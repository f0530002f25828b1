/** The in-memory article repository. internal/storage/memory/articles.go. */
module MemoryArticles {
  import opened Outcomes
  import opened ArticleModel
  import opened ArticleTable
  import opened ArticleProtocol
  import opened Paging

  datatype Stored = Stored(article: Article, etag: nat)

  type Shelf = map<Id, Stored>

  ghost predicate Keyed(m: Shelf) { forall id | id in m :: m[id].article.id == id }

  /** No slug is reserved by two articles. */
  ghost predicate Disjoint(m: Shelf) {
    forall id, id', x | id in m && id' in m && Reserves(m[id].article, x) && Reserves(m[id'].article, x) :: id == id'
  }

  /** The slugs map is the index of the draft slugs. */
  ghost predicate Indexed(m: Shelf, slugs: map<Slug, Id>) {
    && (forall id | id in m :: m[id].article.slug in slugs && slugs[m[id].article.slug] == id)
    && (forall x | x in slugs :: slugs[x] in m && m[slugs[x]].article.slug == x)
  }

  /** slugOwnedByOther */
  ghost predicate OwnedByOther(m: Shelf, x: Slug, id: Id) {
    exists id' :: id' in m && id' != id && Reserves(m[id'].article, x)
  }

  ghost predicate TakenByOther(m: Shelf, a: Article) {
    exists x :: Reserves(a, x) && OwnedByOther(m, x, a.id)
  }

  ghost function CreateError(m: Shelf, a: Article): Option<Error> {
    if !ValidArticle(a) then Some(Validation)
    else if a.id in m then Some(Conflict)
    else if TakenByOther(m, a) then Some(SlugTaken)
    else None
  }

  ghost function UpdateError(m: Shelf, a: Article, expected: nat): Option<Error> {
    if !ValidArticle(a) then Some(Validation)
    else if a.id !in m then Some(NotFound)
    else if m[a.id].etag != expected then Some(Conflict)
    else if PermanenceError(m[a.id].article, a).Some? then PermanenceError(m[a.id].article, a)
    else if TakenByOther(m, a) then Some(SlugTaken)
    else None
  }

  /** What the repository holds: the articles and the last ETag it handed out. */
  datatype Memory = Memory(articles: Shelf, last: nat)

  ghost function Put(m: Memory, a: Article): Memory {
    Memory(m.articles[a.id := Stored(a, m.last + 1)], m.last + 1)
  }

  ghost function Created(m: Memory, a: Article): (Memory, Result<Stored>) {
    if CreateError(m.articles, a).Some? then (m, Err(CreateError(m.articles, a).value)) else (Put(m, a), Ok(Stored(a, m.last + 1)))
  }

  ghost function Updated(m: Memory, a: Article, expected: nat): (Memory, Result<Stored>) {
    if UpdateError(m.articles, a, expected).Some? then (m, Err(UpdateError(m.articles, a, expected).value))
    else (Put(m, a), Ok(Stored(a, m.last + 1)))
  }

  predicate HasStatus(a: Article, status: Option<Status>) { status.Some? ==> a.status == status.value }

  function ItemOf(a: Article): Item<Article> { Item(Pos(a.createdAt, a.id), a) }

  /** The articles with the status, if one is asked for. */
  ghost function ItemsOf(m: Shelf, status: Option<Status>): set<Item<Article>> {
    set id | id in m && HasStatus(m[id].article, status) :: ItemOf(m[id].article)
  }

  /** The stored articles of a page. */
  function StoredAt(m: Shelf, items: seq<Item<Article>>): (r: seq<Stored>)
    requires forall i | 0 <= i < |items| :: items[i].pos.id in m
    ensures |r| == |items| && forall i | 0 <= i < |r| :: r[i] == m[items[i].pos.id]
  {
    seq(|items|, i requires 0 <= i < |items| => m[items[i].pos.id])
  }

  /** The page of the articles with the status, beyond the cursor, with their ETags. */
  ghost predicate Lists(m: Shelf, status: Option<Status>, cursor: Option<Pos>, limit: nat, found: seq<Stored>, next: Option<Pos>) {
    exists items :: ListsItems(m, status, cursor, limit, items, found, next)
  }

  ghost predicate ListsItems(m: Shelf, status: Option<Status>, cursor: Option<Pos>, limit: nat,
                             items: seq<Item<Article>>, found: seq<Stored>, next: Option<Pos>) {
    && ExactPage(GreatestIdFirst, items, next, Beyond(GreatestIdFirst, ItemsOf(m, status), cursor), limit)
    && (forall i | 0 <= i < |items| :: items[i].pos.id in m) && found == StoredAt(m, items)
  }

  class Repository {
    var articles: Shelf
    var slugs: map<Slug, Id>
    var nextETag: nat

    ghost predicate Valid()
      reads this
    {
      Keyed(articles) && Disjoint(articles) && Indexed(articles, slugs)
    }

    ghost function State(): Memory
      reads this
    {
      Memory(articles, nextETag)
    }

    method SlugOwnedByOther(x: Slug, id: Id) returns (owned: bool)
      ensures owned <==> OwnedByOther(articles, x, id)
    {
      var rest := articles.Keys;
      while rest != {}
        invariant rest <= articles.Keys
        invariant forall k | k in articles && k !in rest && k != id :: !Reserves(articles[k].article, x)
        decreases |rest|
      {
        var k :| k in rest;
        rest := rest - {k};
        if k != id {
          var a := articles[k].article;
          if a.slug == x || (a.published.Some? && (a.published.value.slug == x || x in a.published.value.historical)) {
            return true;
          }
        }
      }
      return false;
    }

    /** The loop over articleSlugs. */
    method AnyTaken(a: Article) returns (taken: bool)
      ensures taken <==> TakenByOther(articles, a)
    {
      var all := [a.slug] + PublishedSlugs(a);
      for i := 0 to |all|
        invariant forall j | 0 <= j < i :: !OwnedByOther(articles, all[j], a.id)
      {
        var owned := SlugOwnedByOther(all[i], a.id);
        if owned {
          assert Reserves(a, all[i]);
          return true;
        }
      }
      forall x | Reserves(a, x) ensures !OwnedByOther(articles, x, a.id) {
        assert x in all;
      }
      return false;
    }

    method Create(a: Article) returns (r: Result<Stored>)
      requires Valid()
      modifies this
      ensures Valid()
      ensures r.Err? <==> CreateError(old(articles), a).Some?
      ensures (State(), r) == Created(old(State()), a)
    {
      hide ValidArticle;
      if !ValidArticle(a) {
        return Err(Validation);
      }
      if a.id in articles {
        return Err(Conflict);
      }
      var taken := AnyTaken(a);
      if taken {
        return Err(SlugTaken);
      }
      nextETag := nextETag + 1;
      var stored := Stored(a, nextETag);
      KeepsDisjoint(articles, slugs, stored);
      articles := articles[a.id := stored];
      slugs := slugs[a.slug := a.id];
      return Ok(stored);
    }

    method Update(a: Article, expected: nat) returns (r: Result<Stored>)
      requires Valid()
      modifies this
      ensures Valid()
      ensures r.Err? <==> UpdateError(old(articles), a, expected).Some?
      ensures (State(), r) == Updated(old(State()), a, expected)
    {
      hide ValidArticle;
      hide PermanenceError;
      if !ValidArticle(a) {
        return Err(Validation);
      }
      if a.id !in articles {
        return Err(NotFound);
      }
      var before := articles[a.id];
      if before.etag != expected {
        return Err(Conflict);
      }
      var refused := PermanenceError(before.article, a);
      if refused.Some? {
        return Err(refused.value);
      }
      var taken := AnyTaken(a);
      if taken {
        return Err(SlugTaken);
      }
      nextETag := nextETag + 1;
      var stored := Stored(a, nextETag);
      KeepsDisjoint(articles, slugs, stored);
      if before.article.slug != a.slug {
        slugs := slugs - {before.article.slug};
        slugs := slugs[a.slug := a.id];
      }
      articles := articles[a.id := stored];
      return Ok(stored);
    }

    method Get(id: Id) returns (r: Result<Stored>)
      ensures r == if id in articles then Ok(articles[id]) else Err(NotFound)
    {
      if id !in articles {
        return Err(NotFound);
      }
      return Ok(articles[id]);
    }

    /** List: copy the articles with the status in any order, sort, start after the cursor, cut at the limit. */
    method List(status: Option<Status>, cursor: Option<Pos>, limit: nat) returns (found: seq<Stored>, next: Option<Pos>)
      requires Valid() && limit > 0
      ensures Lists(articles, status, cursor, limit, found, next)
      ensures forall x | x in found :: x.article.id in articles && articles[x.article.id] == x && (status == None || status == Some(x.article.status))
      ensures cursor == None && next == None ==>
                forall id | id in articles && (status == None || status == Some(articles[id].article.status)) :: articles[id] in found
    {
      var stored: seq<Item<Article>> := [];
      var rest := articles.Keys;
      while rest != {}
        invariant rest <= articles.Keys && AllDifferent(stored)
        invariant forall x :: x in stored <==> x.pos.id in articles && x.pos.id !in rest &&
                                               HasStatus(articles[x.pos.id].article, status) && x == ItemOf(articles[x.pos.id].article)
        decreases |rest|
      {
        var id :| id in rest;
        rest := rest - {id};
        var a := articles[id].article;
        forall k | 0 <= k < |stored| ensures stored[k].pos.id != id {
          assert stored[k] in stored;
        }
        if HasStatus(a, status) {
          stored := stored + [ItemOf(a)];
        }
      }
      AllItems(articles, status, stored);
      var items;
      items, next := ListInMemory(GreatestIdFirst, stored, cursor, limit);
      forall i | 0 <= i < |items| ensures items[i].pos.id in articles {
        assert items[i] in items;
      }
      found := StoredAt(articles, items);
      assert ListsItems(articles, status, cursor, limit, items, found, next);
      ListedHaveStatus(articles, status, cursor, limit, items, found, next);
    }

    method GetBySlug(x: Slug) returns (r: Result<Stored>)
      requires Valid()
      ensures r.Ok? ==> r.value.article.id in articles && articles[r.value.article.id] == r.value && r.value.article.slug == x
      ensures r.Err? ==> r.error == NotFound && forall id | id in articles :: articles[id].article.slug != x
    {
      if x !in slugs {
        return Err(NotFound);
      }
      return Ok(articles[slugs[x]]);
    }

    /** The articles are searched in any order; at most one has the slug among its public ones. */
    method GetPublishedBySlug(x: Slug) returns (r: Result<Stored>)
      requires Valid()
      ensures r.Ok? ==> r.value.article.id in articles && articles[r.value.article.id] == r.value && PublicSlug(r.value.article, x)
      ensures r.Ok? ==> forall id | id in articles && PublicSlug(articles[id].article, x) :: id == r.value.article.id
      ensures r.Err? ==> r.error == NotFound && forall id | id in articles :: !PublicSlug(articles[id].article, x)
    {
      var rest := articles.Keys;
      while rest != {}
        invariant rest <= articles.Keys
        invariant forall k | k in articles && k !in rest :: !PublicSlug(articles[k].article, x)
        decreases |rest|
      {
        var k :| k in rest;
        rest := rest - {k};
        var a := articles[k].article;
        if a.published.Some? && (a.published.value.slug == x || x in a.published.value.historical) {
          assert Reserves(a, x);
          return Ok(articles[k]);
        }
      }
      return Err(NotFound);
    }
  }

  /** What is listed has the status, and a first page without a cursor to a next one lists everything that has it. */
  lemma ListedHaveStatus(m: Shelf, status: Option<Status>, cursor: Option<Pos>, limit: nat,
                         items: seq<Item<Article>>, found: seq<Stored>, next: Option<Pos>)
    requires Keyed(m) && ListsItems(m, status, cursor, limit, items, found, next)
    ensures forall x | x in found :: x.article.id in m && m[x.article.id] == x && (status == None || status == Some(x.article.status))
    ensures cursor == None && next == None ==>
              forall id | id in m && (status == None || status == Some(m[id].article.status)) :: m[id] in found
  {
    forall x | x in found ensures x.article.id in m && m[x.article.id] == x && (status == None || status == Some(x.article.status)) {
      var i :| 0 <= i < |found| && found[i] == x;
      assert items[i] in items;
      assert items[i] in ItemsOf(m, status);
    }
    if cursor == None && next == None {
      forall id | id in m && (status == None || status == Some(m[id].article.status)) ensures m[id] in found {
        var x := ItemOf(m[id].article);
        assert x in ItemsOf(m, status);
        assert x in Beyond(GreatestIdFirst, ItemsOf(m, status), cursor);
        var i :| 0 <= i < |items| && items[i] == x;
        assert found[i] == m[id];
      }
    }
  }

  lemma AllItems(m: Shelf, status: Option<Status>, stored: seq<Item<Article>>)
    requires Keyed(m)
    requires forall x :: x in stored <==> x.pos.id in m && HasStatus(m[x.pos.id].article, status) && x == ItemOf(m[x.pos.id].article)
    ensures Elements(stored) == ItemsOf(m, status)
  {
    forall x ensures x in Elements(stored) <==> x in ItemsOf(m, status) {
      if x in ItemsOf(m, status) {
        var id :| id in m && HasStatus(m[id].article, status) && x == ItemOf(m[id].article);
        assert x.pos.id == id;
      }
    }
  }

  /** Storing an article whose slugs nobody else owns keeps slugs apart and the index right. */
  lemma KeepsDisjoint(m: Shelf, slugs: map<Slug, Id>, stored: Stored)
    requires Keyed(m) && Disjoint(m) && Indexed(m, slugs) && !TakenByOther(m, stored.article)
    ensures var a := stored.article; var m' := m[a.id := stored];
            && Keyed(m') && Disjoint(m')
            && Indexed(m', (if a.id in m && m[a.id].article.slug != a.slug then slugs - {m[a.id].article.slug} else slugs)[a.slug := a.id])
  {
    var a := stored.article;
    var m' := m[a.id := stored];
    forall x | Reserves(a, x) ensures forall id | id in m && id != a.id :: !Reserves(m[id].article, x) {
      assert !OwnedByOther(m, x, a.id);
    }
    assert Reserves(a, a.slug);
    if a.slug in slugs && slugs[a.slug] != a.id {
      assert Reserves(m[slugs[a.slug]].article, a.slug);
    }
  }
}
