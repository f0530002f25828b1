/**
  The articles partition and the body store as the article repository sees
  them: article rows under current or legacy keys, slug rows, ETags and
  immutable bodies, with the history that "never reused" talks about.
  internal/storage/azure/schema.go, driver.go, articles.go.
 */
module ArticleTable {
  import opened Outcomes
  import opened ArticleModel

  type ETag = nat

  /** ArticleSchemaCompat reads both layouts; migrate and repair serve current rows only. */
  datatype Mode = Compat | CurrentOnly

  /** RowKeys: reverse time plus inverse ID, or the bare ID of the first layout. */
  datatype Key = CurrentKey(id: Id, createdAt: Time) | LegacyKey(id: Id)

  /** hasId: the entity carries the id property that the point query filters on; old rows lack it. */
  datatype Row = Row(key: Key, article: Article, etag: ETag, hasId: bool)

  datatype SlugRow = SlugRow(record: SlugRecord, etag: ETag)

  /**
    rows, slugs and blobs are the stored data, next the next ETag to hand out.
    The rest is history: every article row ever written by ETag, every body
    reference ever issued with its article, drafts that a save replaced,
    bodies that nothing refers to any more, slugs that were ever public, and
    the latest clock reading with a flag that readings never went back.
   */
  datatype Store = Store(
    rows: map<Key, Row>, slugs: map<Slug, SlugRow>, next: ETag, blobs: set<string>,
    log: map<ETag, Row>, issued: map<string, (Id, BodyRef)>, retired: set<(Id, Option<BodyRef>)>,
    dropped: set<string>, everPublic: map<Slug, Id>, clock: Time, monotone: bool)

  // ----- What is stored -----

  predicate SafeSegment(s: string) {
    s != "" && forall i | 0 <= i < |s| ::
      'a' <= s[i] <= 'z' || 'A' <= s[i] <= 'Z' || '0' <= s[i] <= '9' || s[i] == '-' || s[i] == '_'
  }

  /** marshalArticleEntity accepts the article: it is valid and has a row key. */
  predicate Storable(a: Article) {
    ValidArticle(a) && SafeSegment(a.id) && a.createdAt >= 0
  }

  function CurrentKeyOf(a: Article): Key { CurrentKey(a.id, a.createdAt) }

  predicate KeyFits(k: Key, a: Article) {
    k == CurrentKeyOf(a) || k == LegacyKey(a.id)
  }

  ghost predicate RowsStorable(rows: map<Key, Row>) {
    forall k | k in rows :: Storable(rows[k].article)
  }

  /** Rows sit at one of their two keys, and an article has one row. */
  ghost predicate KeysOk(rows: map<Key, Row>) {
    && (forall k | k in rows :: rows[k].key == k && KeyFits(k, rows[k].article))
    && (forall k, k' | k in rows && k' in rows && k.id == k'.id :: k == k')
  }

  predicate Reserves(a: Article, s: Slug) { s == a.slug || PublicSlug(a, s) }

  function RecordFor(a: Article, s: Slug): SlugRecord {
    SlugRecord(s, a.id, if PublicSlug(a, s) then Canonical(a) else "")
  }

  /** Every slug an article reserves has exactly the row slugRecordMap gives it. */
  ghost predicate SlugsPresent(rows: map<Key, Row>, slugs: map<Slug, SlugRow>) {
    forall k, s | k in rows && Reserves(rows[k].article, s) ::
      s in slugs && slugs[s].record == RecordFor(rows[k].article, s)
  }

  ghost predicate SomeoneReserves(rows: map<Key, Row>, s: Slug) {
    exists k :: k in rows && Reserves(rows[k].article, s)
  }

  /** Every slug row is reserved by some article. */
  ghost predicate SlugsOwned(rows: map<Key, Row>, slugs: map<Slug, SlugRow>) {
    forall s | s in slugs :: SomeoneReserves(rows, s)
  }

  /** The slug index is exact: it is the union of slugRecordMap over all stored articles. */
  ghost predicate SlugIndexExact(rows: map<Key, Row>, slugs: map<Slug, SlugRow>) {
    SlugsPresent(rows, slugs) && SlugsOwned(rows, slugs)
  }

  predicate Refers(a: Article, name: string) {
    || (a.draftBody.Some? && a.draftBody.value.blobName == name)
    || (a.publishedBody.Some? && a.publishedBody.value.blobName == name)
  }

  ghost predicate Unreferenced(rows: map<Key, Row>, name: string) {
    forall k | k in rows :: !Refers(rows[k].article, name)
  }

  /** Every body a stored article names is in the body store. */
  ghost predicate NoDanglingBodies(rows: map<Key, Row>, blobs: set<string>) {
    forall k, name | k in rows && Refers(rows[k].article, name) :: name in blobs
  }

  ghost predicate Known(s: Store, id: Id, ref: BodyRef) {
    ref.blobName in s.issued && s.issued[ref.blobName] == (id, ref)
  }

  ghost predicate RefsKnown(s: Store, a: Article) {
    && (a.draftBody.Some? ==> Known(s, a.id, a.draftBody.value))
    && (a.publishedBody.Some? ==> Known(s, a.id, a.publishedBody.value))
  }

  ghost predicate BodiesOk(s: Store) {
    && NoDanglingBodies(s.rows, s.blobs)
    && (forall k | k in s.rows :: RefsKnown(s, s.rows[k].article))
    && (forall name | name in s.dropped :: Unreferenced(s.rows, name))
    && (forall name | name in s.dropped || name in s.blobs :: name in s.issued)
  }

  /** A draft reference that a save replaced never comes back. */
  ghost predicate RetiredOk(s: Store) {
    && (forall k | k in s.rows :: (s.rows[k].article.id, s.rows[k].article.draftBody) !in s.retired)
    && (forall p | p in s.retired && p.1.Some? :: p.1.value.blobName in s.issued)
  }

  ghost predicate LogOk(s: Store) {
    && (forall e | e in s.log :: e < s.next)
    && (forall k | k in s.rows :: s.rows[k].etag in s.log && s.log[s.rows[k].etag] == s.rows[k])
    && (forall k | k in s.rows :: s.rows[k].article.updatedAt <= s.clock)
  }

  ghost predicate PublicBy(rows: map<Key, Row>, s: Slug, id: Id) {
    exists k :: k in rows && k.id == id && PublicSlug(rows[k].article, s)
  }

  /** Every slug that was ever public is still public, for the same article. */
  ghost predicate PublicOk(s: Store) {
    && (forall x | x in s.everPublic :: PublicBy(s.rows, x, s.everPublic[x]))
    && (forall k, x | k in s.rows && PublicSlug(s.rows[k].article, x) :: x in s.everPublic)
  }

  ghost predicate StoreOk(s: Store) {
    && KeysOk(s.rows)
    && RowsStorable(s.rows)
    && SlugIndexExact(s.rows, s.slugs)
    && BodiesOk(s)
    && RetiredOk(s)
    && LogOk(s)
    && PublicOk(s)
  }

  // ----- One batch -----

  datatype SlugAction =
    | AddSlug(record: SlugRecord)
    | ReplaceSlug(record: SlugRecord, etag: ETag)
    | DeleteSlug(etag: ETag)

  /** The conditions under which the service accepts the slug actions of a batch. */
  predicate PlanFits(slugs: map<Slug, SlugRow>, plan: map<Slug, SlugAction>) {
    forall s | s in plan ::
      match plan[s]
      case AddSlug(_) => s !in slugs
      case ReplaceSlug(_, e) => s in slugs && slugs[s].etag == e
      case DeleteSlug(e) => s in slugs && slugs[s].etag == e
  }

  function ApplyPlan(slugs: map<Slug, SlugRow>, plan: map<Slug, SlugAction>, etag: ETag): (r: map<Slug, SlugRow>)
    ensures forall s :: s in r <==> if s in plan then !plan[s].DeleteSlug? else s in slugs
    ensures forall s | s in r :: r[s] == if s in plan then SlugRow(plan[s].record, etag) else slugs[s]
  {
    map s | s in slugs.Keys + plan.Keys && !(s in plan && plan[s].DeleteSlug?) ::
      if s in plan then SlugRow(plan[s].record, etag) else slugs[s]
  }

  /**
    The plan turns the records of the prior article into those of the desired
    one, except for the slugs in keep and drop that are still to be read.
   */
  ghost predicate PlanSound(prior: Article, desired: Article, keep: set<Slug>, drop: set<Slug>, plan: map<Slug, SlugAction>) {
    && (forall s | Reserves(desired, s) && s !in keep ::
          if !Reserves(prior, s) then s in plan && plan[s] == AddSlug(RecordFor(desired, s))
          else if RecordFor(prior, s) == RecordFor(desired, s) then s !in plan
          else s in plan && plan[s].ReplaceSlug? && plan[s].record == RecordFor(desired, s))
    && (forall s | Reserves(prior, s) && !Reserves(desired, s) && s !in drop :: s in plan && plan[s].DeleteSlug?)
    && (forall s | s in plan :: (Reserves(desired, s) && s !in keep) || (Reserves(prior, s) && !Reserves(desired, s) && s !in drop))
  }

  /** Replacing the row at key gone (if any) by row keeps keys unique, when gone is the row of that ID. */
  lemma ReplaceKeys(rows: map<Key, Row>, gone: Key, row: Row)
    requires KeysOk(rows)
    requires KeyFits(row.key, row.article)
    requires forall k | k in rows && k.id == row.key.id :: k == gone
    ensures KeysOk((rows - {gone})[row.key := row])
  {
  }

  /** The slug index stays exact: an update of one article, its plan read while the row was the prior one. */
  lemma UpdateKeepsIndex(rows: map<Key, Row>, slugs: map<Slug, SlugRow>, gone: Key, row: Row,
                         plan: map<Slug, SlugAction>, etag: ETag)
    requires KeysOk(rows) && SlugIndexExact(rows, slugs)
    requires gone in rows && KeyFits(row.key, row.article) && row.article.id == gone.id
    requires PlanFits(slugs, plan)
    requires PlanSound(rows[gone].article, row.article, {}, {}, plan)
    ensures SlugIndexExact((rows - {gone})[row.key := row], ApplyPlan(slugs, plan, etag))
  {
    UpdatePresent(rows, slugs, gone, row, plan, etag);
    UpdateOwned(rows, slugs, gone, row, plan, etag);
  }

  lemma UpdatePresent(rows: map<Key, Row>, slugs: map<Slug, SlugRow>, gone: Key, row: Row,
                      plan: map<Slug, SlugAction>, etag: ETag)
    requires KeysOk(rows) && SlugsPresent(rows, slugs)
    requires gone in rows && row.article.id == gone.id
    requires PlanFits(slugs, plan)
    requires PlanSound(rows[gone].article, row.article, {}, {}, plan)
    ensures SlugsPresent((rows - {gone})[row.key := row], ApplyPlan(slugs, plan, etag))
  {
    hide KeysOk;
    hide PlanFits;
    hide PlanSound;
    hide RecordFor;
    var rows' := (rows - {gone})[row.key := row];
    forall k, s | k in rows' && Reserves(rows'[k].article, s)
      ensures s in ApplyPlan(slugs, plan, etag)
      ensures ApplyPlan(slugs, plan, etag)[s].record == RecordFor(rows'[k].article, s)
    {
      if k == row.key {
        OwnSlugPresent(rows, slugs, gone, row, plan, etag, s);
      } else {
        OthersSlugUnplanned(rows, slugs, gone, row, plan, k, s);
      }
    }
  }

  lemma UpdateOwned(rows: map<Key, Row>, slugs: map<Slug, SlugRow>, gone: Key, row: Row,
                    plan: map<Slug, SlugAction>, etag: ETag)
    requires SlugsOwned(rows, slugs) && gone in rows
    requires row.key in rows ==> row.key == gone
    requires PlanSound(rows[gone].article, row.article, {}, {}, plan)
    ensures SlugsOwned((rows - {gone})[row.key := row], ApplyPlan(slugs, plan, etag))
  {
    forall s | s in ApplyPlan(slugs, plan, etag) ensures SomeoneReserves((rows - {gone})[row.key := row], s) {
      UpdatedSlugOwned(rows, slugs, gone, row, plan, s);
    }
  }

  lemma OwnSlugPresent(rows: map<Key, Row>, slugs: map<Slug, SlugRow>, gone: Key, row: Row,
                       plan: map<Slug, SlugAction>, etag: ETag, s: Slug)
    requires SlugsPresent(rows, slugs) && gone in rows
    requires PlanSound(rows[gone].article, row.article, {}, {}, plan)
    requires Reserves(row.article, s)
    ensures s in ApplyPlan(slugs, plan, etag)
    ensures ApplyPlan(slugs, plan, etag)[s].record == RecordFor(row.article, s)
  {
    var prior := rows[gone].article;
    assert Reserves(prior, s) ==> s in slugs && slugs[s].record == RecordFor(prior, s);
  }

  lemma UpdatedSlugOwned(rows: map<Key, Row>, slugs: map<Slug, SlugRow>, gone: Key, row: Row,
                         plan: map<Slug, SlugAction>, s: Slug)
    requires SlugsOwned(rows, slugs) && gone in rows
    requires row.key in rows ==> row.key == gone
    requires PlanSound(rows[gone].article, row.article, {}, {}, plan)
    requires if s in plan then !plan[s].DeleteSlug? else s in slugs
    ensures SomeoneReserves((rows - {gone})[row.key := row], s)
  {
    var rows' := (rows - {gone})[row.key := row];
    if Reserves(row.article, s) {
      assert row.key in rows' && Reserves(rows'[row.key].article, s);
    } else {
      assert s !in plan && SomeoneReserves(rows, s);
      var k :| k in rows && Reserves(rows[k].article, s);
      assert k != gone;
      assert k in rows' && Reserves(rows'[k].article, s);
    }
  }

  /** A slug of another article is not in the plan of this one. */
  lemma OthersSlugUnplanned(rows: map<Key, Row>, slugs: map<Slug, SlugRow>, gone: Key, row: Row,
                            plan: map<Slug, SlugAction>, k: Key, s: Slug)
    requires KeysOk(rows) && SlugsPresent(rows, slugs)
    requires gone in rows && row.article.id == gone.id
    requires PlanFits(slugs, plan)
    requires PlanSound(rows[gone].article, row.article, {}, {}, plan)
    requires k in rows && k != gone && Reserves(rows[k].article, s)
    ensures s in slugs && slugs[s].record == RecordFor(rows[k].article, s)
    ensures s !in plan
  {
    assert slugs[s].record.articleId == k.id != gone.id;
    assert !Reserves(rows[gone].article, s);
  }

  /** The slug index stays exact: a new article whose slugs were all free. */
  lemma CreateKeepsIndex(rows: map<Key, Row>, slugs: map<Slug, SlugRow>, row: Row,
                         plan: map<Slug, SlugAction>, etag: ETag)
    requires SlugIndexExact(rows, slugs)
    requires row.key !in rows
    requires PlanFits(slugs, plan)
    requires forall s :: s in plan <==> Reserves(row.article, s)
    requires forall s | s in plan :: plan[s] == AddSlug(RecordFor(row.article, s))
    ensures SlugIndexExact(rows[row.key := row], ApplyPlan(slugs, plan, etag))
  {
    var rows' := rows[row.key := row];
    var slugs' := ApplyPlan(slugs, plan, etag);
    forall k, s | k in rows' && Reserves(rows'[k].article, s)
      ensures s in slugs' && slugs'[s].record == RecordFor(rows'[k].article, s)
    {
      if k == row.key {
        assert s in plan;
      } else {
        assert k in rows && Reserves(rows[k].article, s);
        assert s !in plan;
      }
    }
    forall s | s in slugs' ensures SomeoneReserves(rows', s) {
      if s in plan {
        assert row.key in rows' && Reserves(rows'[row.key].article, s);
      } else {
        ReservesElsewhere(rows, row, s);
      }
    }
  }

  lemma ReservesElsewhere(rows: map<Key, Row>, row: Row, s: Slug)
    requires SomeoneReserves(rows, s) && row.key !in rows
    ensures SomeoneReserves(rows[row.key := row], s)
  {
    var k :| k in rows && Reserves(rows[k].article, s);
    assert k in rows[row.key := row] && Reserves(rows[row.key := row][k].article, s);
  }

  /** Moving an unchanged article to another key does not touch the index. */
  lemma MoveKeepsIndex(rows: map<Key, Row>, slugs: map<Slug, SlugRow>, gone: Key, row: Row)
    requires SlugIndexExact(rows, slugs)
    requires gone in rows && row.article == rows[gone].article
    requires row.key !in rows
    ensures SlugIndexExact((rows - {gone})[row.key := row], slugs)
  {
    hide Reserves;
    hide RecordFor;
    var rows' := (rows - {gone})[row.key := row];
    forall k, s | k in rows' && Reserves(rows'[k].article, s)
      ensures s in slugs && slugs[s].record == RecordFor(rows'[k].article, s)
    {
      var k' := if k == row.key then gone else k;
      assert k' in rows && Reserves(rows[k'].article, s);
    }
    forall s | s in slugs ensures SomeoneReserves(rows', s) {
      assert SomeoneReserves(rows, s);
      var k :| k in rows && Reserves(rows[k].article, s);
      var k' := if k == gone then row.key else k;
      assert k' in rows' && Reserves(rows'[k'].article, s);
    }
  }
}
