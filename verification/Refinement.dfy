/**
  When the Azure and the memory repository hold the same articles: a slug stops
  a write in one exactly if it does in the other, and the same article is found
  under a public slug. internal/storage/azure/articles.go,
  internal/storage/memory/articles.go.
 */
module Refinement {
  import opened Outcomes
  import opened ArticleModel
  import opened ArticleTable
  import opened ArticleProtocol
  import opened ArticleSteps
  import M = MemoryArticles

  /** Both hold the same articles, each under one row, and the table is consistent. */
  ghost predicate Same(s: Store, m: M.Shelf) {
    && KeysOk(s.rows) && SlugIndexExact(s.rows, s.slugs) && M.Keyed(m)
    && (forall k | k in s.rows :: k.id in m && m[k.id].article == s.rows[k].article)
    && (forall id | id in m :: HasRowFor(s.rows, id))
  }

  ghost predicate HasRowFor(rows: map<Key, Row>, id: Id) {
    exists k :: k in rows && k.id == id
  }

  // ----- What the service updates -----

  /** An update that the service makes of a stored article keeps its ID, its creation time, and a settled publication. */
  predicate Produced(stored: Article, a: Article) {
    && a.id == stored.id && a.createdAt == stored.createdAt
    && (a.published == stored.published || (a.published.Some? && a.published.value.slug == a.slug))
  }

  /** One of SaveDraft, Publish and Withdraw makes a of the stored article. */
  ghost predicate ServiceMade(stored: Article, a: Article) {
    || (exists fields, ref, now :: a == Saved(stored, fields, ref, now))
    || (exists now :: a == PublishedFrom(stored, now))
    || (exists now :: a == WithdrawnFrom(stored, now))
  }

  lemma SavedIsProduced(stored: Article, fields: DraftFields, ref: BodyRef, now: Time)
    ensures Produced(stored, Saved(stored, fields, ref, now))
  {
  }

  lemma PublishedIsProduced(stored: Article, now: Time)
    ensures Produced(stored, PublishedFrom(stored, now))
  {
    hide NextHistory;
  }

  lemma WithdrawnIsProduced(stored: Article, now: Time)
    ensures Produced(stored, WithdrawnFrom(stored, now))
  {
  }

  lemma ServiceMadeProduced(stored: Article, a: Article)
    requires ServiceMade(stored, a)
    ensures Produced(stored, a)
  {
    hide Produced;
    hide Saved;
    hide PublishedFrom;
    hide WithdrawnFrom;
    if fields, ref, now :| a == Saved(stored, fields, ref, now) {
      SavedIsProduced(stored, fields, ref, now);
    } else if now :| a == PublishedFrom(stored, now) {
      PublishedIsProduced(stored, now);
    } else {
      var now :| a == WithdrawnFrom(stored, now);
      WithdrawnIsProduced(stored, now);
    }
  }

  // ----- Slugs -----

  /** A slug row that stops an update: another article's, or an alias that the draft may not take. */
  predicate Stops(a: Article, slugs: map<Slug, SlugRow>, x: Slug) {
    x in slugs &&
    (slugs[x].record.articleId != a.id || (x == a.slug && slugs[x].record.target != "" && x != Canonical(a)))
  }

  lemma ReservedRow(s: Store, k: Key, x: Slug)
    requires KeysOk(s.rows) && SlugIndexExact(s.rows, s.slugs) && k in s.rows && Reserves(s.rows[k].article, x)
    ensures x in s.slugs && s.slugs[x].record == RecordFor(s.rows[k].article, x) && s.slugs[x].record.articleId == k.id
  {
    assert SlugsPresent(s.rows, s.slugs);
  }

  lemma TakenStops(s: Store, m: M.Shelf, a: Article, x: Slug)
    requires Same(s, m) && M.OwnedByOther(m, x, a.id)
    ensures x in s.slugs && s.slugs[x].record.articleId != a.id
  {
    hide KeysOk;
    hide SlugIndexExact;
    hide Reserves;
    var id :| id in m && id != a.id && Reserves(m[id].article, x);
    assert HasRowFor(s.rows, id);
    var k :| k in s.rows && k.id == id;
    ReservedRow(s, k, x);
  }

  /** A slug row belongs to an article that the memory repository holds too. */
  lemma RowOwner(s: Store, m: M.Shelf, x: Slug) returns (k: Key)
    requires Same(s, m) && x in s.slugs
    ensures k in s.rows && Reserves(s.rows[k].article, x) && k.id in m && Reserves(m[k.id].article, x)
    ensures s.slugs[x].record.articleId == k.id
  {
    assert SomeoneReserves(s.rows, x);
    k :| k in s.rows && Reserves(s.rows[k].article, x);
  }

  /** A slug stops the update exactly when another article owns it. */
  lemma StopsIffTaken(s: Store, m: M.Shelf, row: Row, a: Article, x: Slug)
    requires Same(s, m) && row.key in s.rows && s.rows[row.key] == row && Produced(row.article, a)
    requires PermanenceError(row.article, a).None? && Reserves(a, x)
    ensures Stops(a, s.slugs, x) <==> M.OwnedByOther(m, x, a.id)
  {
    assert KeysOk(s.rows) && SlugsPresent(s.rows, s.slugs);
    hide Same;
    hide KeysOk;
    hide SlugsPresent;
    hide SlugIndexExact;
    hide Produced;
    hide PermanenceError;
    if M.OwnedByOther(m, x, a.id) {
      TakenStops(s, m, a, x);
    }
    if Stops(a, s.slugs, x) {
      var k := RowOwner(s, m, x);
      if k.id == a.id {
        OwnSlugFree(s, row, k, a, x);
      }
    }
  }

  /** The article's own slug rows never stop an update of the service. */
  lemma OwnSlugFree(s: Store, row: Row, k: Key, a: Article, x: Slug)
    requires KeysOk(s.rows) && SlugsPresent(s.rows, s.slugs)
    requires row.key in s.rows && s.rows[row.key] == row && Produced(row.article, a)
    requires PermanenceError(row.article, a).None? && Reserves(a, x)
    requires k in s.rows && k.id == a.id && Reserves(s.rows[k].article, x)
    ensures !Stops(a, s.slugs, x)
  {
    hide ValidArticle;
    assert k == row.key;
    assert s.slugs[x].record == RecordFor(row.article, x);
  }

  lemma SomeStopsIffTaken(s: Store, m: M.Shelf, row: Row, a: Article)
    requires Same(s, m) && row.key in s.rows && s.rows[row.key] == row && Produced(row.article, a)
    requires PermanenceError(row.article, a).None?
    ensures (exists x :: x in SlugSet(a) && Stops(a, s.slugs, x)) <==> M.TakenByOther(m, a)
  {
    forall x | Reserves(a, x) ensures Stops(a, s.slugs, x) <==> M.OwnedByOther(m, x, a.id) {
      StopsIffTaken(s, m, row, a, x);
    }
    hide Same;
    hide Stops;
    hide Produced;
    hide PermanenceError;
    if M.TakenByOther(m, a) {
      var x :| Reserves(a, x) && M.OwnedByOther(m, x, a.id);
      assert x in SlugSet(a);
    }
  }

  lemma DropsPresent(s: Store, row: Row, a: Article)
    requires KeysOk(s.rows) && SlugIndexExact(s.rows, s.slugs) && row.key in s.rows && s.rows[row.key] == row
    ensures SlugSet(a) !! SlugSet(row.article) - SlugSet(a)
    ensures forall y | y in SlugSet(row.article) - SlugSet(a) :: y in s.slugs
  {
    assert SlugsPresent(s.rows, s.slugs);
    forall y | y in SlugSet(row.article) ensures y in s.slugs {
      assert Reserves(s.rows[row.key].article, y);
    }
  }

  // ----- Create -----

  /** The batch of Create: the article row and all its slug rows are added. */
  function CreatePlan(a: Article): map<Slug, SlugAction> {
    map x | x in SlugSet(a) :: AddSlug(RecordFor(a, x))
  }

  lemma FreeIffNotTaken(s: Store, m: M.Shelf, a: Article)
    requires Same(s, m) && a.id !in m
    ensures PlanFits(s.slugs, CreatePlan(a)) <==> !M.TakenByOther(m, a)
  {
    forall x | Reserves(a, x) ensures x in s.slugs <==> M.OwnedByOther(m, x, a.id) {
      if x in s.slugs {
        var k := RowOwner(s, m, x);
        assert k.id in m && k.id != a.id;
      }
      if M.OwnedByOther(m, x, a.id) {
        TakenStops(s, m, a, x);
      }
    }
    hide Same;
    hide M.OwnedByOther;
    if M.TakenByOther(m, a) {
      var x :| Reserves(a, x) && M.OwnedByOther(m, x, a.id);
      assert x in CreatePlan(a);
    }
  }

  // ----- Reading -----

  /** What the mode relies on: once the table serves current rows only, no legacy row is left. */
  ghost predicate Served(rows: map<Key, Row>, mode: Mode) {
    mode.CurrentOnly? ==> forall k | k in rows :: k.CurrentKey?
  }

  ghost predicate SomeListed(rows: map<Key, Row>, id: Id) {
    exists k :: k in rows && Listed(rows[k], id)
  }

  /** getWithRowKey: the query by ID, and in compatibility mode the row under the bare ID. */
  ghost function AzureFind(rows: map<Key, Row>, mode: Mode, id: Id): Option<Row> {
    if !SafeSegment(id) then None
    else if SomeListed(rows, id) then
      var k :| k in rows && Listed(rows[k], id);
      Some(rows[k])
    else if mode.Compat? && LegacyKey(id) in rows then Some(rows[LegacyKey(id)])
    else None
  }

  /** The row of an article is found, in either layout that the mode serves. */
  lemma FindsRow(rows: map<Key, Row>, mode: Mode, k: Key)
    requires KeysOk(rows) && RowsStorable(rows) && Served(rows, mode) && k in rows
    ensures AzureFind(rows, mode, k.id) == Some(rows[k])
  {
    assert Storable(rows[k].article) && rows[k].article.id == k.id;
    hide ValidArticle;
    if k.CurrentKey? {
      assert Listed(rows[k], k.id);
    }
    hide Storable;
  }

  lemma FindsNothing(rows: map<Key, Row>, mode: Mode, id: Id)
    requires KeysOk(rows) && !HasRowFor(rows, id)
    ensures AzureFind(rows, mode, id) == None
  {
    forall k | k in rows ensures !Listed(rows[k], id) && k.id != id {
      assert KeyFits(k, rows[k].article);
    }
  }

  /** GetPublishedBySlug of the Azure repository: the slug row, its target, and the article. */
  ghost function AzurePublished(s: Store, mode: Mode, x: Slug): Option<Row> {
    if Normalized(x) != Ok(x) || x !in s.slugs || s.slugs[x].record.target == "" then None
    else
      var found := AzureFind(s.rows, mode, s.slugs[x].record.articleId);
      if found.Some? && found.value.article.published.Some? then found else None
  }

  /** The article with a public slug is found, in its only row. */
  lemma PublicFound(s: Store, mode: Mode, k: Key, x: Slug)
    requires KeysOk(s.rows) && SlugIndexExact(s.rows, s.slugs) && RowsStorable(s.rows) && Served(s.rows, mode)
    requires k in s.rows && PublicSlug(s.rows[k].article, x)
    ensures AzurePublished(s, mode, x) == Some(s.rows[k])
  {
    assert ValidArticle(s.rows[k].article) by { StorableValid(s.rows, k); }
    hide ValidArticle;
    hide Normalized;
    hide SlugIndexExact;
    hide RowsStorable;
    hide AzureFind;
    ReservedRow(s, k, x);
    PublicSlugNormal(s.rows[k].article, x);
    FindsRow(s.rows, mode, k);
    hide KeysOk;
    hide Served;
  }

  lemma StorableValid(rows: map<Key, Row>, k: Key)
    requires RowsStorable(rows) && k in rows
    ensures ValidArticle(rows[k].article)
  {
    hide ValidArticle;
  }

  /** Nothing is found under a text that is no public slug. */
  lemma FoundIsPublic(s: Store, mode: Mode, x: Slug)
    requires KeysOk(s.rows) && SlugIndexExact(s.rows, s.slugs) && AzurePublished(s, mode, x).Some?
    ensures exists k :: k in s.rows && PublicSlug(s.rows[k].article, x)
  {
    hide Normalized;
    hide AzureFind;
    assert SomeoneReserves(s.rows, x);
    var k :| k in s.rows && Reserves(s.rows[k].article, x);
    ReservedRow(s, k, x);
    hide SlugIndexExact;
  }

  /** The same article is found under a public slug, and nothing under any other text. */
  lemma PublishedAgrees(s: Store, m: M.Shelf, mode: Mode, x: Slug)
    requires Same(s, m) && RowsStorable(s.rows) && Served(s.rows, mode)
    ensures AzurePublished(s, mode, x).Some? <==> exists id :: id in m && PublicSlug(m[id].article, x)
    ensures forall k | k in s.rows && PublicSlug(s.rows[k].article, x) :: AzurePublished(s, mode, x) == Some(s.rows[k])
  {
    hide AzurePublished;
    hide PublicSlug;
    hide RowsStorable;
    hide SlugIndexExact;
    forall k | k in s.rows && PublicSlug(s.rows[k].article, x) ensures AzurePublished(s, mode, x) == Some(s.rows[k]) {
      PublicFound(s, mode, k, x);
    }
    if AzurePublished(s, mode, x).Some? {
      FoundIsPublic(s, mode, x);
      var k :| k in s.rows && PublicSlug(s.rows[k].article, x);
      assert k.id in m;
    }
    if id :| id in m && PublicSlug(m[id].article, x) {
      assert HasRowFor(s.rows, id);
      var k :| k in s.rows && k.id == id;
    }
  }

  lemma PublicSlugNormal(a: Article, x: Slug)
    requires ValidArticle(a) && PublicSlug(a, x)
    ensures Normalized(x) == Ok(x) && Canonical(a) != ""
  {
    assert ValidMetadata(a.published.value);
    if Canonical(a) == "" {
      NormalizedFixedPoints("");
    }
    hide Normalized;
  }
}
