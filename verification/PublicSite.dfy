/**
  What the public pages show, which cache keys a change of an article
  invalidates, and that together they are enough.
  internal/web/public/articles.go, renderer.go and seo.go,
  internal/articles/service.go.
 */
module PublicSite {
  import opened Outcomes
  import opened ArticleModel
  import opened Paging
  import opened CacheModel
  import H = HtmlCache

  const ORDER: Order := GreatestIdFirst

  /** The stored articles by ID. */
  type Library = map<Id, Article>

  /** Stored articles are valid, and no two share a public slug. */
  ghost predicate Consistent(w: Library) {
    && (forall id | id in w :: w[id].id == id && ValidPublication(w[id]))
    && (forall id, id', x | id in w && id' in w && PublicSlug(w[id], x) && PublicSlug(w[id'], x) :: id == id')
  }

  // ----- Reading -----

  /** publishedProjection */
  function Projection(a: Article): Article
    requires a.published.Some?
  {
    var p := a.published.value;
    a.(slug := p.slug, title := p.title, summary := p.summary, area := p.area, coverId := p.coverId, draftBody := None,
       updatedAt := if a.lastPublishedAt.Some? then a.lastPublishedAt.value else a.updatedAt)
  }

  /** What a visitor may see of an article: nothing unless it is published now. */
  function Visible(a: Article): Option<Article> {
    if a.status == Published && a.published.Some? && a.publishedBody.Some?
    then Some(Projection(a)) else None
  }

  function ItemOf(a: Article): Item<Article> { Item(Pos(a.createdAt, a.id), a) }

  /** The items ListPublished pages through. */
  ghost function Listed(w: Library): set<Item<Article>> {
    set id | id in w && Visible(w[id]).Some? :: ItemOf(Visible(w[id]).value)
  }

  ghost function ListedIn(w: Library, area: string): set<Item<Article>> {
    set x | x in Listed(w) && x.value.area == area
  }

  /** The article that has the slug among its public slugs, as a visitor sees it. */
  ghost function Found(w: Library, slug: string): set<Option<Article>> {
    set id | id in w && PublicSlug(w[id], slug) :: Visible(w[id])
  }

  // ----- Pages -----

  datatype Page = Home | Sitemap | Index(cursor: string) | Area(area: string) | Detail(slug: string)

  function KeyOf(page: Page): string {
    match page
    case Home => "home"
    case Sitemap => "sitemap"
    case Index(cursor) => "articles:index:" + cursor
    case Area(area) => "area:" + area
    case Detail(slug) => "articles:detail:" + slug
  }

  lemma KeyOfInjective(p: Page, q: Page)
    requires KeyOf(p) == KeyOf(q)
    ensures p == q
  {
    var a, b := KeyOf(p), KeyOf(q);
    assert a[0] == b[0] && a[1] == b[1] && a[2] == b[2];
    if p.Index? || p.Detail? {
      assert a[9] == b[9];
      if p.Index? && q.Index? {
        assert a[15..] == p.cursor && b[15..] == q.cursor;
      } else if p.Detail? && q.Detail? {
        assert a[16..] == p.slug && b[16..] == q.slug;
      }
    } else if p.Area? && q.Area? {
      assert a[5..] == p.area && b[5..] == q.area;
    }
  }

  /** What a page is rendered from: cards or entries, a link to the next page, or one article. */
  datatype Content =
    | Cards(cards: seq<Item<Article>>, next: Option<Pos>)
    | Whole(article: Article)

  /** What the read of a page depends on. */
  datatype Source = Many(items: set<Item<Article>>) | One(found: set<Option<Article>>)

  ghost function SourceOf(w: Library, page: Page): Source {
    match page
    case Home => Many(Listed(w))
    case Sitemap => Many(Listed(w))
    case Index(_) => Many(Listed(w))
    case Area(area) => Many(ListedIn(w, area))
    case Detail(slug) => One(Found(w, slug))
  }

  /**
    The uncached reads: three cards at home and on an area page, six articles on
    an index page (decode turns a cursor into a position), all articles in the
    sitemap, and the article whose current public slug the detail page names.
   */
  ghost predicate Reads(source: Source, page: Page, decode: string -> Option<Pos>, content: Content) {
    match page
    case Home => source.Many? && content.Cards? && content.next.None? && IsTop(ORDER, content.cards, source.items, 3)
    case Area(_) => source.Many? && content.Cards? && content.next.None? && IsTop(ORDER, content.cards, source.items, 3)
    case Sitemap =>
      && source.Many? && content.Cards? && content.next.None?
      && IsTop(ORDER, content.cards, source.items, |content.cards|) && forall x | x in source.items :: x in content.cards
    case Index(cursor) =>
      && source.Many? && content.Cards? && (cursor != "" ==> decode(cursor).Some?)
      && ExactPage(ORDER, content.cards, content.next,
                   Beyond(ORDER, source.items, if cursor == "" then None else decode(cursor)), 6)
    case Detail(slug) =>
      source.One? && content.Whole? && source.found == {Some(content.article)} && content.article.slug == slug
  }

  /** A render is determined by what it depends on. */
  lemma ReadsUnique(source: Source, page: Page, decode: string -> Option<Pos>, c: Content, c': Content)
    requires Reads(source, page, decode, c) && Reads(source, page, decode, c')
    ensures c == c'
  {
    match page
    case Home => TopUnique(ORDER, c.cards, c'.cards, source.items, 3);
    case Area(_) => TopUnique(ORDER, c.cards, c'.cards, source.items, 3);
    case Sitemap => AllUnique(c.cards, c'.cards, source.items);
    case Index(cursor) =>
      var s := Beyond(ORDER, source.items, if cursor == "" then None else decode(cursor));
      TopUnique(ORDER, c.cards, c'.cards, s, 6);
    case Detail(slug) =>
      assert Some(c.article) in source.found && Some(c'.article) in source.found;
  }

  lemma AllUnique(a: seq<Item<Article>>, b: seq<Item<Article>>, s: set<Item<Article>>)
    requires IsTop(ORDER, a, s, |a|) && IsTop(ORDER, b, s, |b|)
    requires (forall x | x in s :: x in a) && (forall x | x in s :: x in b)
    ensures a == b
  {
    var n := |a| + |b|;
    TopUnique(ORDER, a, b, s, n);
  }

  // ----- Changes -----

  /** What a successful service call does to one article. */
  datatype Change =
    | Created(article: Article)
    | SavedDraft(id: Id, fields: DraftFields, ref: BodyRef, now: Time)
    | PublishedNow(id: Id, now: Time)
    | WithdrawnNow(id: Id, now: Time)

  predicate Possible(w: Library, change: Change) {
    match change
    case Created(a) => a.id !in w && a.status == Draft && a.published.None?
    case SavedDraft(id, _, _, _) => id in w
    case PublishedNow(id, _) => id in w && w[id].draftBody.Some?
    case WithdrawnNow(id, _) => id in w && w[id].status == Published
  }

  function ChangedId(change: Change): Id {
    if change.Created? then change.article.id else change.id
  }

  function After(w: Library, change: Change): Article
    requires Possible(w, change)
  {
    match change
    case Created(a) => a
    case SavedDraft(id, fields, ref, now) => Saved(w[id], fields, ref, now)
    case PublishedNow(id, now) => PublishedFrom(w[id], now)
    case WithdrawnNow(id, now) => WithdrawnFrom(w[id], now)
  }

  function Changed(w: Library, change: Change): Library
    requires Possible(w, change)
  {
    w[ChangedId(change) := After(w, change)]
  }

  /** The invalidations of one of the two articles that PublicArticleChanged is given. */
  function EventsOf(a: Article): seq<Event> {
    if a.published.None? then []
    else
      [Keys([KeyOf(Detail(a.published.value.slug)), KeyOf(Area(a.published.value.area))])] +
      seq(|a.published.value.historical|, i requires 0 <= i < |a.published.value.historical| =>
        Keys([KeyOf(Detail(a.published.value.historical[i]))]))
  }

  /** The invalidations of PublicArticleChanged, in order. */
  function Events(before: Article, after: Article): seq<Event> {
    [Keys([KeyOf(Home), KeyOf(Sitemap)]), Prefix("articles:index:")] + EventsOf(before) + EventsOf(after)
  }

  /** Publish and Withdraw notify; CreateDraft and SaveDraft do not. */
  function Notice(w: Library, change: Change): seq<Event>
    requires Possible(w, change)
  {
    if change.PublishedNow? || change.WithdrawnNow? then Events(w[change.id], After(w, change)) else []
  }

  ghost predicate CoveredBy(events: seq<Event>, key: string) {
    exists j :: 0 <= j < |events| && Covers(events[j], key)
  }

  lemma EventsOfCover(a: Article, slug: string)
    requires PublicSlug(a, slug)
    ensures CoveredBy(EventsOf(a), KeyOf(Detail(slug))) && CoveredBy(EventsOf(a), KeyOf(Area(a.published.value.area)))
  {
    var events := EventsOf(a);
    assert Covers(events[0], KeyOf(Area(a.published.value.area)));
    if slug == a.published.value.slug {
      assert Covers(events[0], KeyOf(Detail(slug)));
    } else {
      var i :| 0 <= i < |a.published.value.historical| && a.published.value.historical[i] == slug;
      assert Covers(events[i + 1], KeyOf(Detail(slug)));
    }
  }

  lemma EventsInclude(before: Article, after: Article, key: string)
    requires CoveredBy(EventsOf(before), key) || CoveredBy(EventsOf(after), key)
    ensures CoveredBy(Events(before, after), key)
  {
    var events := Events(before, after);
    if CoveredBy(EventsOf(before), key) {
      var j :| 0 <= j < |EventsOf(before)| && Covers(EventsOf(before)[j], key);
      assert Covers(events[j + 2], key);
    } else {
      var j :| 0 <= j < |EventsOf(after)| && Covers(EventsOf(after)[j], key);
      assert Covers(events[j + 2 + |EventsOf(before)|], key);
    }
  }

  lemma CoveredByEither(a: seq<Event>, b: seq<Event>, key: string)
    ensures CoveredBy(a + b, key) <==> CoveredBy(a, key) || CoveredBy(b, key)
  {
    hide Covers;
    if CoveredBy(a + b, key) {
      var j :| 0 <= j < |a + b| && Covers((a + b)[j], key);
      assert if j < |a| then (a + b)[j] == a[j] else (a + b)[j] == b[j - |a|];
    }
    if CoveredBy(a, key) {
      var j :| 0 <= j < |a| && Covers(a[j], key);
      assert Covers((a + b)[j], key);
    }
    if CoveredBy(b, key) {
      var j :| 0 <= j < |b| && Covers(b[j], key);
      assert Covers((a + b)[|a| + j], key);
    }
  }

  /** The prefix of the index pages is no other page's. */
  lemma IndexPrefix(page: Page)
    ensures Covers(Prefix("articles:index:"), KeyOf(page)) <==> page.Index?
  {
    var key := KeyOf(page);
    assert |"articles:index:"| == 15 && "articles:index:"[0] == 'a' && "articles:index:"[1] == 'r' && "articles:index:"[2] == 't' && "articles:index:"[9] == 'i';
    assert page.Detail? ==> key[9] == 'd';
    assert page.Area? ==> key[2] == 'e';
    assert page.Home? || page.Sitemap? ==> key[0] != 'a';
    assert |key| >= 15 ==> key[..15][0] == key[0] && key[..15][2] == key[2] && key[..15][9] == key[9];
    assert page.Index? ==> key[..15] == "articles:index:";
  }

  /** What one of the two articles makes invalid: its detail pages and the page of its area. */
  lemma EventsOfExactly(a: Article, page: Page)
    ensures CoveredBy(EventsOf(a), KeyOf(page)) <==>
            || (page.Detail? && PublicSlug(a, page.slug))
            || (page.Area? && a.published.Some? && a.published.value.area == page.area)
  {
    var events, key := EventsOf(a), KeyOf(page);
    if page.Detail? && PublicSlug(a, page.slug) {
      EventsOfCover(a, page.slug);
    }
    if page.Area? && a.published.Some? && a.published.value.area == page.area {
      EventsOfCover(a, a.published.value.slug);
    }
    if CoveredBy(events, key) {
      var j :| 0 <= j < |events| && Covers(events[j], key);
      var slug := if j == 0 then a.published.value.slug else a.published.value.historical[j - 1];
      EventKeys(a, j, key);
      hide KeyOf;
      hide EventsOf;
      if key == KeyOf(Area(a.published.value.area)) {
        KeyOfInjective(page, Area(a.published.value.area));
      } else {
        KeyOfInjective(page, Detail(slug));
      }
    }
  }

  lemma EventKeys(a: Article, j: nat, key: string)
    requires j < |EventsOf(a)| && Covers(EventsOf(a)[j], key)
    ensures a.published.Some? && j <= |a.published.value.historical|
    ensures key == KeyOf(Area(a.published.value.area)) ||
            key == KeyOf(Detail(if j == 0 then a.published.value.slug else a.published.value.historical[j - 1]))
  {
    hide KeyOf;
  }

  /**
    Which pages a change is announced for, and that it is announced for no other:
    nothing for a creation or a save, and otherwise the home page, the sitemap,
    every index page, the areas of the old and the new publication, and the detail
    pages of all their slugs.
   */
  lemma NoticeExactly(w: Library, change: Change, page: Page)
    requires Possible(w, change)
    ensures CoveredBy(Notice(w, change), KeyOf(page)) <==>
            && (change.PublishedNow? || change.WithdrawnNow?)
            && var a, d := w[change.id], After(w, change);
               match page
               case Detail(slug) => PublicSlug(a, slug) || PublicSlug(d, slug)
               case Area(area) =>
                 || (a.published.Some? && a.published.value.area == area)
                 || (d.published.Some? && d.published.value.area == area)
               case _ => true
  {
    if change.PublishedNow? || change.WithdrawnNow? {
      var a, d, key := w[change.id], After(w, change), KeyOf(page);
      var first := [Keys([KeyOf(Home), KeyOf(Sitemap)]), Prefix("articles:index:")];
      FirstExactly(page);
      EventsOfExactly(a, page);
      EventsOfExactly(d, page);
      CoveredByEither(first, EventsOf(a), key);
      CoveredByEither(first + EventsOf(a), EventsOf(d), key);
      hide CoveredBy;
      hide EventsOf;
      hide PublicSlug;
    }
  }

  lemma FirstExactly(page: Page)
    ensures CoveredBy([Keys([KeyOf(Home), KeyOf(Sitemap)]), Prefix("articles:index:")], KeyOf(page)) <==> !page.Detail? && !page.Area?
  {
    var first := [Keys([KeyOf(Home), KeyOf(Sitemap)]), Prefix("articles:index:")];
    IndexPrefix(page);
    if page.Home? || page.Sitemap? {
      assert Covers(first[0], KeyOf(page));
    }
    if page.Index? {
      assert Covers(first[1], KeyOf(page));
    }
    if CoveredBy(first, KeyOf(page)) && !page.Index? {
      assert Covers(first[0], KeyOf(page));
      if KeyOf(page) == KeyOf(Home) {
        KeyOfInjective(page, Home);
      } else {
        KeyOfInjective(page, Sitemap);
      }
    }
  }

  // ----- The footprint -----

  /** Saving a draft changes nothing a visitor can see. */
  lemma SavingIsInvisible(a: Article, fields: DraftFields, ref: BodyRef, now: Time)
    requires ValidPublication(a)
    ensures Visible(Saved(a, fields, ref, now)) == Visible(a)
    ensures forall x :: PublicSlug(Saved(a, fields, ref, now), x) <==> PublicSlug(a, x)
  {
  }

  /** A change outside the slugs and areas of the old and the new article leaves every detail and area page alone. */
  lemma ListedFrame(w: Library, id: Id, after: Article, area: string)
    requires forall i | i in w :: w[i].id == i
    requires after.id == id
    requires id in w && Visible(w[id]).Some? ==> Visible(w[id]).value.area != area
    requires Visible(after).Some? ==> Visible(after).value.area != area
    ensures ListedIn(w[id := after], area) == ListedIn(w, area)
  {
    var w' := w[id := after];
    forall x | x in ListedIn(w', area) ensures x in ListedIn(w, area) {
      var i :| i in w' && Visible(w'[i]).Some? && x == ItemOf(Visible(w'[i]).value);
      assert i != id && w'[i] == w[i];
    }
    forall x | x in ListedIn(w, area) ensures x in ListedIn(w', area) {
      var i :| i in w && Visible(w[i]).Some? && x == ItemOf(Visible(w[i]).value);
      assert i != id && w'[i] == w[i];
    }
  }

  lemma FoundFrame(w: Library, id: Id, after: Article, slug: string)
    requires id in w ==> !PublicSlug(w[id], slug)
    requires !PublicSlug(after, slug)
    ensures Found(w[id := after], slug) == Found(w, slug)
  {
    var w' := w[id := after];
    forall x | x in Found(w', slug) ensures x in Found(w, slug) {
      var i :| i in w' && PublicSlug(w'[i], slug) && x == Visible(w'[i]);
      assert w'[i] == w[i];
    }
    forall x | x in Found(w, slug) ensures x in Found(w', slug) {
      var i :| i in w && PublicSlug(w[i], slug) && x == Visible(w[i]);
      assert w'[i] == w[i];
    }
  }

  /** The article under id looks the same to visitors before and after. */
  ghost predicate LooksSame(w: Library, id: Id, after: Article) {
    if id in w then Visible(after) == Visible(w[id]) && forall x :: PublicSlug(after, x) <==> PublicSlug(w[id], x)
    else Visible(after).None? && forall x :: !PublicSlug(after, x)
  }

  lemma ListedSame(w: Library, id: Id, after: Article)
    requires LooksSame(w, id, after)
    ensures Listed(w[id := after]) == Listed(w)
  {
    hide PublicSlug;
    hide Visible;
    var w' := w[id := after];
    forall x | x in Listed(w') ensures x in Listed(w) {
      var i :| i in w' && Visible(w'[i]).Some? && x == ItemOf(Visible(w'[i]).value);
      assert i in w && Visible(w[i]) == Visible(w'[i]);
    }
    forall x | x in Listed(w) ensures x in Listed(w') {
      var i :| i in w && Visible(w[i]).Some? && x == ItemOf(Visible(w[i]).value);
      assert i in w' && Visible(w'[i]) == Visible(w[i]);
    }
  }

  lemma FoundSame(w: Library, id: Id, after: Article, slug: string)
    requires LooksSame(w, id, after)
    ensures Found(w[id := after], slug) == Found(w, slug)
  {
    hide PublicSlug;
    hide Visible;
    var w' := w[id := after];
    forall x | x in Found(w', slug) ensures x in Found(w, slug) {
      var i :| i in w' && PublicSlug(w'[i], slug) && x == Visible(w'[i]);
      assert i in w && PublicSlug(w[i], slug) && Visible(w[i]) == Visible(w'[i]);
    }
    forall x | x in Found(w, slug) ensures x in Found(w', slug) {
      var i :| i in w && PublicSlug(w[i], slug) && x == Visible(w[i]);
      assert i in w' && PublicSlug(w'[i], slug) && Visible(w'[i]) == Visible(w[i]);
    }
  }

  lemma SameToVisitors(w: Library, id: Id, after: Article)
    requires LooksSame(w, id, after)
    ensures Listed(w[id := after]) == Listed(w)
    ensures forall slug :: Found(w[id := after], slug) == Found(w, slug)
  {
    ListedSame(w, id, after);
    forall slug ensures Found(w[id := after], slug) == Found(w, slug) {
      FoundSame(w, id, after, slug);
    }
  }

  /**
    The footprint is complete: when a change alters what a page is rendered from,
    PublicArticleChanged invalidates the key of that page; the changes that do
    not notify alter nothing.
   */
  lemma FootprintComplete(w: Library, change: Change, page: Page)
    requires Consistent(w) && Possible(w, change)
    requires SourceOf(Changed(w, change), page) != SourceOf(w, page)
    ensures CoveredBy(Notice(w, change), KeyOf(page))
  {
    var id, after := ChangedId(change), After(w, change);
    match change
    case Created(a) => SameToVisitors(w, id, after);
    case SavedDraft(_, fields, ref, now) =>
      SavingIsInvisible(w[id], fields, ref, now);
      SameToVisitors(w, id, after);
    case PublishedNow(_, _) => ChangeCovered(w, id, after, page);
    case WithdrawnNow(_, _) => ChangeCovered(w, id, after, page);
  }

  lemma ChangeCovered(w: Library, id: Id, after: Article, page: Page)
    requires Consistent(w) && id in w && after.id == id
    requires SourceOf(w[id := after], page) != SourceOf(w, page)
    ensures CoveredBy(Events(w[id], after), KeyOf(page))
  {
    var events := Events(w[id], after);
    match page
    case Home => assert Covers(events[0], KeyOf(Home));
    case Sitemap => assert Covers(events[0], KeyOf(Sitemap));
    case Index(cursor) => assert Covers(events[1], KeyOf(Index(cursor)));
    case Area(area) => AreaCovered(w, id, after, area);
    case Detail(slug) =>
      if PublicSlug(w[id], slug) {
        EventsOfCover(w[id], slug);
      } else if PublicSlug(after, slug) {
        EventsOfCover(after, slug);
      } else {
        FoundFrame(w, id, after, slug);
      }
      EventsInclude(w[id], after, KeyOf(page));
  }

  lemma AreaCovered(w: Library, id: Id, after: Article, area: string)
    requires Consistent(w) && id in w && after.id == id
    requires ListedIn(w[id := after], area) != ListedIn(w, area)
    ensures CoveredBy(Events(w[id], after), KeyOf(Area(area)))
  {
    if Visible(w[id]).Some? && Visible(w[id]).value.area == area {
      EventsOfCover(w[id], w[id].published.value.slug);
    } else if Visible(after).Some? && Visible(after).value.area == area {
      EventsOfCover(after, after.published.value.slug);
    } else {
      ListedFrame(w, id, after, area);
    }
    EventsInclude(w[id], after, KeyOf(Area(area)));
  }

  // ----- PublicArticleChanged -----

  function InvalidateAll(s: State, events: seq<Event>): State
    requires Linked(s)
    decreases |events|
  {
    if events == [] then s
    else
      InvalidateLinked(s, events[0]);
      InvalidateAll(Invalidate(s, events[0]), events[1..])
  }

  lemma InvalidateLinked(s: State, event: Event)
    requires Linked(s)
    ensures Linked(Invalidate(s, event))
  {
    hide Linked;
    var s1 := s.(generation := (s.generation + 1) % GENERATIONS, log := s.log + [event]);
    LinkedFields(s, s1);
    RemoveAllLinked(s1, CoveredKeys(s, event));
  }

  lemma {:induction false} InvalidateAllAppend(s: State, a: seq<Event>, b: seq<Event>)
    requires Linked(s)
    ensures Linked(InvalidateAll(s, a)) && InvalidateAll(s, a + b) == InvalidateAll(InvalidateAll(s, a), b)
    decreases |a|
  {
    hide Linked;
    hide Invalidate;
    if a == [] {
      assert a + b == b;
    } else {
      InvalidateLinked(s, a[0]);
      assert (a + b)[0] == a[0] && (a + b)[1..] == a[1..] + b;
      InvalidateAllAppend(Invalidate(s, a[0]), a[1..], b);
    }
  }

  lemma InvalidateOneMore(s: State, done: seq<Event>, event: Event)
    requires Linked(s)
    ensures Linked(InvalidateAll(s, done)) && InvalidateAll(s, done + [event]) == Invalidate(InvalidateAll(s, done), event)
  {
    hide Linked;
    hide Invalidate;
    InvalidateAllAppend(s, done, [event]);
    var s1 := InvalidateAll(s, done);
    InvalidateLinked(s1, event);
    assert [event][1..] == [];
  }

  /** Renderer.PublicArticleChanged */
  method PublicArticleChanged(cache: H.Cache, before: Article, after: Article)
    requires cache.Valid()
    modifies cache
    ensures cache.Valid() && cache.Abstract() == InvalidateAll(old(cache.Abstract()), Events(before, after))
  {
    hide Linked;
    hide Invalidate;
    hide InvalidateAll;
    ghost var s := cache.Abstract();
    NothingDone(s);
    InvalidateOneMore(s, [], Keys([KeyOf(Home), KeyOf(Sitemap)]));
    cache.InvalidateKeys(["home", "sitemap"]);
    InvalidateOneMore(s, [Keys([KeyOf(Home), KeyOf(Sitemap)])], Prefix("articles:index:"));
    cache.InvalidatePrefix("articles:index:");
    ghost var done := [Keys([KeyOf(Home), KeyOf(Sitemap)]), Prefix("articles:index:")];
    assert [] + [Keys([KeyOf(Home), KeyOf(Sitemap)])] == [Keys([KeyOf(Home), KeyOf(Sitemap)])];
    assert done == [Keys([KeyOf(Home), KeyOf(Sitemap)])] + [Prefix("articles:index:")];
    done := ArticleInvalidated(cache, s, done, before);
    done := ArticleInvalidated(cache, s, done, after);
  }

  /** One turn of the loop over the old and the new article. */
  method ArticleInvalidated(cache: H.Cache, ghost s: State, ghost done: seq<Event>, a: Article) returns (ghost more: seq<Event>)
    requires cache.Valid() && Linked(s) && cache.Abstract() == InvalidateAll(s, done)
    modifies cache
    ensures cache.Valid() && more == done + EventsOf(a) && cache.Abstract() == InvalidateAll(s, more)
  {
    hide Linked;
    hide Invalidate;
    hide InvalidateAll;
    more := done;
    if a.published.None? {
      return;
    }
    var p := a.published.value;
    InvalidateOneMore(s, more, Keys([KeyOf(Detail(p.slug)), KeyOf(Area(p.area))]));
    cache.InvalidateKeys(["articles:detail:" + p.slug, "area:" + p.area]);
    more := more + [Keys([KeyOf(Detail(p.slug)), KeyOf(Area(p.area))])];
    for i := 0 to |p.historical|
      invariant cache.Valid() && cache.Abstract() == InvalidateAll(s, more)
      invariant more == done + EventsOf(a)[..i + 1]
    {
      InvalidateOneMore(s, more, Keys([KeyOf(Detail(p.historical[i]))]));
      cache.InvalidateKeys(["articles:detail:" + p.historical[i]]);
      more := more + [Keys([KeyOf(Detail(p.historical[i]))])];
      assert EventsOf(a)[..i + 2] == EventsOf(a)[..i + 1] + [EventsOf(a)[i + 1]];
    }
    assert EventsOf(a)[..|p.historical| + 1] == EventsOf(a);
  }

  lemma NothingDone(s: State)
    requires Linked(s)
    ensures InvalidateAll(s, []) == s
  {
  }

  // ----- latestArticleCards -----

  /** The cards of a home or area page: page through the listing until enough cards of the area are found. */
  method LatestCards(pages: seq<seq<Item<Article>>>, area: string, limit: nat) returns (cards: seq<Item<Article>>)
    requires limit > 0 && Sorted(ORDER, Flatten(pages))
    ensures IsTop(ORDER, cards, OfArea(Flatten(pages), area), limit)
  {
    hide IsTop;
    hide Sorted;
    hide Flatten;
    hide OfArea;
    hide Filter;
    cards := [];
    FilterNothing(area);
    ghost var seen: seq<Item<Article>> := [];
    assert pages[..0] == [];
    FlattenEmpty<Item<Article>>();
    for p := 0 to |pages|
      invariant seen == Flatten(pages[..p])
      invariant cards == Filter(seen, area) && |cards| < limit
    {
      for i := 0 to |pages[p]|
        invariant seen == Flatten(pages[..p]) + pages[p][..i]
        invariant cards == Filter(seen, area) && |cards| < limit
      {
        var item := pages[p][i];
        ScannedPrefix(pages, p, i);
        assert pages[p][..i + 1] == pages[p][..i] + [item];
        FilterOneMore(seen, item, area);
        seen := seen + [item];
        if area == "" || item.value.area == area {
          cards := cards + [item];
          if |cards| == limit {
            PrefixTop(Flatten(pages), |seen|, area, limit);
            return;
          }
        }
      }
      assert pages[p][..|pages[p]|] == pages[p];
      FlattenNext(pages, p);
    }
    assert pages[..|pages|] == pages;
    assert Flatten(pages)[..|seen|] == Flatten(pages);
    PrefixTop(Flatten(pages), |seen|, area, limit);
  }

  lemma FlattenEmpty<T>()
    ensures Flatten<T>([]) == []
  {
  }

  lemma FilterNothing(area: string)
    ensures Filter([], area) == []
  {
  }

  lemma FilterOneMore(seen: seq<Item<Article>>, item: Item<Article>, area: string)
    ensures Filter(seen + [item], area) ==
            if area == "" || item.value.area == area then Filter(seen, area) + [item] else Filter(seen, area)
  {
    FilterAppend(seen, [item], area);
    assert [item][1..] == [];
  }

  function Filter(items: seq<Item<Article>>, area: string): (r: seq<Item<Article>>)
    ensures forall x :: x in r <==> x in items && (area == "" || x.value.area == area)
  {
    if items == [] then []
    else (if area == "" || items[0].value.area == area then [items[0]] else []) + Filter(items[1..], area)
  }

  lemma {:induction false} FilterAppend(a: seq<Item<Article>>, b: seq<Item<Article>>, area: string)
    ensures Filter(a + b, area) == Filter(a, area) + Filter(b, area)
  {
    if a == [] {
      assert a + b == b;
    } else {
      assert (a + b)[1..] == a[1..] + b;
      FilterAppend(a[1..], b, area);
    }
  }

  lemma {:induction false} FilterSorted(items: seq<Item<Article>>, area: string)
    requires Sorted(ORDER, items)
    ensures Sorted(ORDER, Filter(items, area))
  {
    if items != [] {
      FilterSorted(items[1..], area);
      var rest := Filter(items[1..], area);
      forall i | 0 <= i < |rest| ensures Before(ORDER, items[0].pos, rest[i].pos) {
        assert rest[i] in rest;
        var k :| 0 <= k < |items[1..]| && items[1..][k] == rest[i];
        assert items[k + 1] == rest[i];
      }
    }
  }

  ghost function OfArea(items: seq<Item<Article>>, area: string): set<Item<Article>> {
    set x | x in items && (area == "" || x.value.area == area) :: x
  }

  /** The matching items of a prefix are the first matching items, once there are enough or nothing is left. */
  lemma PrefixTop(all: seq<Item<Article>>, n: nat, area: string, limit: nat)
    requires Sorted(ORDER, all) && n <= |all|
    requires |Filter(all[..n], area)| == limit || (n == |all| && |Filter(all[..n], area)| <= limit)
    ensures IsTop(ORDER, Filter(all[..n], area), OfArea(all, area), limit)
  {
    var cards := Filter(all[..n], area);
    FilterSorted(all[..n], area);
    forall x | x in cards ensures x in OfArea(all, area) {
      var k :| 0 <= k < n && all[..n][k] == x;
      assert all[k] == x;
    }
    forall x | x in OfArea(all, area) && x !in cards
      ensures |cards| == limit && forall i | 0 <= i < |cards| :: Before(ORDER, cards[i].pos, x.pos)
    {
      var k :| 0 <= k < |all| && all[k] == x;
      assert forall i | 0 <= i < n :: all[..n][i] == all[i] && all[i] in all[..n];
      assert k >= n;
      forall i | 0 <= i < |cards| ensures Before(ORDER, cards[i].pos, x.pos) {
        assert cards[i] in cards;
        var j :| 0 <= j < n && all[..n][j] == cards[i];
        assert all[j] == cards[i];
      }
    }
  }

  // ----- Cards while others change the articles -----

  lemma {:induction false} InSomePage<T>(pages: seq<seq<T>>, x: T)
    ensures x in Flatten(pages) <==> exists i :: 0 <= i < |pages| && x in pages[i]
    decreases |pages|
  {
    if pages != [] {
      var m := |pages| - 1;
      InSomePage(pages[..m], x);
      assert forall i | 0 <= i < m :: pages[..m][i] == pages[i];
    }
  }

  lemma {:induction false} PagesInOrder<T>(pages: seq<seq<Item<T>>>)
    requires forall i | 0 <= i < |pages| :: Sorted(ORDER, pages[i])
    requires forall i, j, x, y | 0 <= i < j < |pages| && x in pages[i] && y in pages[j] :: Before(ORDER, x.pos, y.pos)
    ensures Sorted(ORDER, Flatten(pages))
    decreases |pages|
  {
    if pages != [] {
      var m := |pages| - 1;
      assert forall i | 0 <= i < m :: pages[..m][i] == pages[i];
      PagesInOrder(pages[..m]);
      var before := Flatten(pages[..m]);
      forall i, j | 0 <= i < |before| && 0 <= j < |pages[m]| ensures Before(ORDER, before[i].pos, pages[m][j].pos) {
        InSomePage(pages[..m], before[i]);
        assert pages[m][j] in pages[m];
      }
    }
  }

  lemma InPositions<T>(items: seq<Item<T>>, x: Item<T>)
    requires x in items
    ensures x.pos in Positions(items)
  {
    var k :| 0 <= k < |items| && items[k] == x;
    assert Positions(items)[k] == x.pos;
  }

  /** Pages that follow each other's cursors are in order, whatever others change in between. */
  lemma FollowedInOrder<T>(pages: seq<seq<Item<T>>>, nexts: seq<Option<Pos>>, states: seq<set<Item<T>>>, limits: seq<nat>)
    requires Followed(ORDER, pages, nexts, states, limits)
    ensures Sorted(ORDER, Flatten(pages))
  {
    KeysetVisitsOnce(ORDER, pages, nexts, states, limits);
    forall i, j, x, y | 0 <= i < j < |pages| && x in pages[i] && y in pages[j] ensures Before(ORDER, x.pos, y.pos) {
      InPositions(pages[i], x);
      InPositions(pages[j], y);
    }
    PagesInOrder(pages);
  }

  /** A page shows an item with the position of a stored one only as it is stored. */
  lemma PageShowsStored<T>(pages: seq<seq<Item<T>>>, nexts: seq<Option<Pos>>, states: seq<set<Item<T>>>, limits: seq<nat>, i: nat, x: Item<T>)
    requires Followed(ORDER, pages, nexts, states, limits) && i < |pages| && x in states[i] && x.pos in Positions(pages[i])
    ensures x in pages[i]
  {
    var k :| 0 <= k < |pages[i]| && Positions(pages[i])[k] == x.pos;
    assert pages[i][k] in pages[i];
    assert pages[i][k] in Beyond(ORDER, states[i], CursorAt(nexts, i));
  }

  /** What is listed as it is the whole time is on some page. */
  lemma LastingIsPaged<T>(pages: seq<seq<Item<T>>>, nexts: seq<Option<Pos>>, states: seq<set<Item<T>>>, limits: seq<nat>, x: Item<T>)
    requires Followed(ORDER, pages, nexts, states, limits) && forall i | 0 <= i < |states| :: x in states[i]
    ensures x in Flatten(pages)
  {
    hide Followed;
    hide Before;
    hide Flatten;
    KeysetVisitsOnce(ORDER, pages, nexts, states, limits);
    FollowedShape(ORDER, pages, nexts, states, limits);
    assert forall i | 0 <= i < |states| :: x.pos in PosSet(states[i]);
    assert VisitedOnce(PagePositions(pages), x.pos);
    var i: nat, k: nat :| i < |pages| && k < |PagePositions(pages)[i]| && PagePositions(pages)[i][k] == x.pos;
    PageShowsStored(pages, nexts, states, limits, i, x);
    InSomePage(pages, x);
  }

  /**
    The pages are read one after another while others change the articles: an
    article that stays listed as it is the whole time is among the cards, unless
    enough cards come before it.
   */
  lemma LastingCardShown(pages: seq<seq<Item<Article>>>, nexts: seq<Option<Pos>>, states: seq<set<Item<Article>>>, limits: seq<nat>,
                         area: string, limit: nat, cards: seq<Item<Article>>, x: Item<Article>)
    requires Followed(ORDER, pages, nexts, states, limits) && IsTop(ORDER, cards, OfArea(Flatten(pages), area), limit)
    requires (forall i | 0 <= i < |states| :: x in states[i]) && (area == "" || x.value.area == area)
    ensures x in cards || (|cards| == limit && forall i | 0 <= i < |cards| :: Before(ORDER, cards[i].pos, x.pos))
  {
    hide Followed;
    hide Flatten;
    hide Sorted;
    LastingIsPaged(pages, nexts, states, limits, x);
    assert x in OfArea(Flatten(pages), area);
  }
}
