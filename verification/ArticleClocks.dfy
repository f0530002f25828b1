/**
  The runs in which a definite failure of Publish or Withdraw hides an effect:
  from every consistent table, and exactly under the condition of ArticleHiding.
  internal/storage/azure/articles.go, internal/articles/service.go.
 */
module ArticleClocks {
  import opened Outcomes
  import opened ArticleModel
  import opened ArticleTable
  import opened ArticleProtocol
  import opened ArticleInvariant
  import opened ArticleSteps
  import opened ArticleCommits
  import opened ArticleTheorems
  import opened ArticleOutcomes
  import opened ArticleHiding

  // ----- Putting runs together -----

  lemma {:induction false} RunAppend(w: World, a: seq<Step>, b: seq<Step>)
    requires Possible(w, a) && Possible(Run(w, a), b)
    ensures Possible(w, a + b) && Run(w, a + b) == Run(Run(w, a), b)
    decreases |a|
  {
    hide Enabled;
    hide Next;
    if a == [] {
      assert a + b == b;
    } else {
      RunAppend(Next(w, a[0]), a[1..], b);
      assert (a + b)[0] == a[0] && (a + b)[1..] == a[1..] + b;
    }
  }

  /** One more step. */
  lemma Extend(w: World, a: seq<Step>, step: Step)
    requires Possible(w, a) && Enabled(Run(w, a), step)
    ensures Possible(w, a + [step]) && Run(w, a + [step]) == Next(Run(w, a), step)
  {
    hide Enabled;
    hide Next;
    assert [step][1..] == [];
    RunAppend(w, a, [step]);
  }

  // ----- One row, written again with the same slugs -----

  /** The draft slug is the canonical one, and no alias. */
  predicate Tidy(a: Article) {
    a.published.Some? && a.published.value.slug == a.slug && a.slug !in a.published.value.historical
  }

  /** Two versions that reserve the same slugs in the same way. */
  predicate Alike(a: Article, b: Article) {
    a.id == b.id && a.slug == b.slug && a.published == b.published && a.createdAt == b.createdAt
  }

  /** The table holds the row where a query finds it, with all its slug records. */
  ghost predicate Holding(s: Store, row: Row) {
    && KeysOk(s.rows) && row.key in s.rows && s.rows[row.key] == row && row.etag < s.next
    && Listed(row, row.article.id) && Tidy(row.article)
    && forall x | Reserves(row.article, x) :: x in s.slugs && s.slugs[x].record == RecordFor(row.article, x)
  }

  ghost function Written(s: Store, key: Key, a: Article): Store {
    s.(rows := s.rows[key := Row(key, a, s.next, true)], next := s.next + 1,
       log := s.log[s.next := Row(key, a, s.next, true)], everPublic := s.everPublic + PublicOf(a))
  }

  lemma AlikeSlugs(a: Article, b: Article)
    requires Alike(a, b) && Tidy(a)
    ensures Tidy(b) && SlugSet(a) == SlugSet(b) && PermanenceError(a, b).None?
    ensures forall x :: Reserves(a, x) <==> Reserves(b, x)
    ensures forall x :: RecordFor(a, x) == RecordFor(b, x)
  {
  }

  lemma WrittenHolds(s: Store, now: Time, row: Row, b: Article)
    requires Holding(s, row) && Alike(row.article, b)
    ensures Holding(Written(ReadClock(s, now), row.key, b), Row(row.key, b, s.next, true))
  {
    AlikeSlugs(row.article, b);
    hide Tidy;
    hide Reserves;
    hide RecordFor;
    assert KeyFits(row.key, row.article);
  }

  /** The article to store, in terms of the one that the service read. */
  function Wanted(request: Request, a: Article, now: Time): Article {
    if request.Publish? then PublishedFrom(a, now) else WithdrawnFrom(a, now)
  }

  /** The service goes ahead with this row, to a version alike. */
  ghost predicate GoesAhead(request: Request, row: Row, now: Time) {
    var a := row.article;
    && !request.CreateDraft? && !request.SaveDraft? && RequestId(request) == a.id
    && (request.Publish? ==> ValidTransition(a.status, Published) && a.draftBody.Some?)
    && (request.Withdraw? ==> a.status == Published)
    && Storable(Wanted(request, a, now)) && Alike(a, Wanted(request, a, now))
  }

  /** The client at each stage; i's own batch is the one that replaces row. */
  function Client0(request: Request, row: Row, born: ETag): Client {
    Client(Op(request, CurrentOnly, row.etag, born, None, None, None, None, false), Read(false), false)
  }

  function Client1(request: Request, row: Row, now: Time, born: ETag): Client {
    var a := Wanted(request, row.article, now);
    Client(Op(request, CurrentOnly, row.etag, born, Some(row), None, Some(a), None, false), Reread(false), false)
  }

  function Client2(request: Request, row: Row, now: Time, born: ETag, applied: bool, phase: Phase): Client {
    var a := Wanted(request, row.article, now);
    Client(Op(request, CurrentOnly, row.etag, born, Some(row), None, Some(a), Some(row), applied), phase, false)
  }

  lemma Starts(w: World, i: nat, request: Request, row: Row, now: Time)
    requires i !in w.clients && Holding(w.store, row) && GoesAhead(request, row, now)
    ensures var step := Start(i, request, CurrentOnly, row.etag);
            Enabled(w, step) && Next(w, step) == World(w.store, w.clients[i := Client0(request, row, w.store.next)])
  {
    hide Storable;
    hide KeysOk;
    hide Tidy;
    hide Alike;
    hide Wanted;
  }

  /** A read that finds the row. */
  lemma SeesRow(w: World, i: nat, row: Row, now: Time)
    requires i in w.clients && GetPhase(w.clients[i].phase) && !w.clients[i].phase.again
    requires Holding(w.store, row) && IdOf(w.clients[i]) == row.article.id
    requires !w.clients[i].phase.Read? ==> w.clients[i].op.desired.Some?
    requires !GetStep(w.clients[i], w.store, Saw(row), now).phase.Discard?
    ensures Enabled(w, Get(i, Saw(row), now))
    ensures Next(w, Get(i, Saw(row), now)) ==
            World(if w.clients[i].phase.Read? then ReadClock(w.store, now) else w.store,
                  w.clients[i := GetStep(w.clients[i], w.store, Saw(row), now)])
  {
    assert AnswerOk(w.store.rows, row.article.id, false, Saw(row));
    hide Holding;
    hide AnswerOk;
    hide GetStep;
    hide ReadClock;
    hide Applied;
    hide BatchFits;
    hide AfterPut;
  }

  lemma Reads(w: World, i: nat, request: Request, row: Row, now: Time, born: ETag)
    requires i in w.clients && w.clients[i] == Client0(request, row, born)
    requires Holding(w.store, row) && GoesAhead(request, row, now)
    ensures var step := Get(i, Saw(row), now);
            && Enabled(w, step)
            && Next(w, step) == World(ReadClock(w.store, now), w.clients[i := Client1(request, row, now, born)])
  {
    ReadsTo(request, row, now, born);
    hide AfterRead;
    assert RequestId(request) == row.article.id;
    hide GoesAhead;
    hide Holding;
    hide Wanted;
    hide Enabled;
    hide Next;
    SeesRow(w, i, row, now);
  }

  lemma ReadsTo(request: Request, row: Row, now: Time, born: ETag)
    requires Tidy(row.article) && GoesAhead(request, row, now)
    ensures AfterRead(Client0(request, row, born), Saw(row), now) == Client1(request, row, now, born)
  {
    hide ValidArticle;
    hide ValidTransition;
    hide PublishedFrom;
    hide WithdrawnFrom;
    hide Alike;
  }

  lemma Rereads(w: World, i: nat, request: Request, row: Row, now: Time, born: ETag)
    requires i in w.clients && w.clients[i] == Client1(request, row, now, born)
    requires Holding(w.store, row) && GoesAhead(request, row, now)
    ensures var step := Get(i, Saw(row), now);
            && Enabled(w, step)
            && Next(w, step) == World(w.store, w.clients[i := Client2(request, row, now, born, false, Slugs(SlugSet(row.article), {}, map[]))])
  {
    RereadsTo(request, row, now, born);
    hide AfterReread;
    assert RequestId(request) == row.article.id;
    hide GoesAhead;
    hide Holding;
    hide Wanted;
    hide SlugSet;
    hide Enabled;
    hide Next;
    SeesRow(w, i, row, now);
  }

  lemma RereadsTo(request: Request, row: Row, now: Time, born: ETag)
    requires Tidy(row.article) && GoesAhead(request, row, now) && KeyFits(row.key, row.article)
    ensures AfterReread(Client1(request, row, now, born), Saw(row)) ==
            Client2(request, row, now, born, false, Slugs(SlugSet(row.article), {}, map[]))
  {
    AlikeSlugs(row.article, Wanted(request, row.article, now));
    hide Storable;
    hide PermanenceError;
    hide Wanted;
    hide Tidy;
    assert SlugSet(row.article) - SlugSet(row.article) == {};
    hide SlugSet;
  }

  /** No slug row stops the update, and none has to change. */
  lemma {:induction false} ReadsSlugs(w: World, i: nat, request: Request, row: Row, now: Time, born: ETag, keep: set<Slug>)
    returns (steps: seq<Step>)
    requires i in w.clients && w.clients[i] == Client2(request, row, now, born, false, Slugs(keep, {}, map[]))
    requires Holding(w.store, row) && GoesAhead(request, row, now) && keep <= SlugSet(row.article)
    ensures Possible(w, steps)
    ensures Run(w, steps) == World(w.store, w.clients[i := Client2(request, row, now, born, false, Slugs({}, {}, map[]))])
    decreases |keep|
  {
    hide Enabled;
    hide Next;
    hide Holding;
    hide GoesAhead;
    hide SlugSet;
    if keep == {} {
      steps := [];
      assert w.clients[i := w.clients[i]] == w.clients;
    } else {
      var x :| x in keep;
      ReadsSlug(w, i, request, row, now, born, keep, x);
      var c := Client2(request, row, now, born, false, Slugs(keep - {x}, {}, map[]));
      var w1 := World(w.store, w.clients[i := c]);
      var rest := ReadsSlugs(w1, i, request, row, now, born, keep - {x});
      steps := [ReadSlug(i, x, false)] + rest;
      assert steps[1..] == rest;
    }
  }

  lemma ReadsSlug(w: World, i: nat, request: Request, row: Row, now: Time, born: ETag, keep: set<Slug>, x: Slug)
    requires i in w.clients && w.clients[i] == Client2(request, row, now, born, false, Slugs(keep, {}, map[]))
    requires Holding(w.store, row) && GoesAhead(request, row, now) && keep <= SlugSet(row.article) && x in keep
    ensures var step := ReadSlug(i, x, false);
            && Enabled(w, step)
            && Next(w, step) == World(w.store, w.clients[i := Client2(request, row, now, born, false, Slugs(keep - {x}, {}, map[]))])
  {
    OwnRecord(w.store, row, x);
    assert Tidy(row.article) && Alike(row.article, Wanted(request, row.article, now));
    hide Holding;
    hide GoesAhead;
    hide SlugSet;
    hide Wanted;
    hide AfterReadSlug;
    hide Tidy;
    hide Alike;
    hide Enabled;
    hide Next;
    OwnSlugRead(w.store.slugs, request, row, now, born, keep, x);
    SlugStep(w, i, x);
  }

  lemma SlugStep(w: World, i: nat, x: Slug)
    requires i in w.clients && w.clients[i].phase.Slugs? && w.clients[i].op.desired.Some? && x in w.clients[i].phase.keep
    requires AfterReadSlug(w.clients[i], w.store.slugs, x, false).phase.Slugs?
    ensures Enabled(w, ReadSlug(i, x, false))
    ensures Next(w, ReadSlug(i, x, false)) ==
            World(w.store, w.clients[i := AfterReadSlug(w.clients[i], w.store.slugs, x, false)])
  {
    hide AfterReadSlug;
    hide Applied;
    hide BatchFits;
    hide GetStep;
    hide AfterPut;
  }

  lemma OwnRecord(s: Store, row: Row, x: Slug)
    requires Holding(s, row) && x in SlugSet(row.article)
    ensures x in s.slugs && s.slugs[x].record == RecordFor(row.article, x)
  {
    hide KeysOk;
    hide RecordFor;
  }

  lemma OwnSlugRead(slugs: map<Slug, SlugRow>, request: Request, row: Row, now: Time, born: ETag, keep: set<Slug>, x: Slug)
    requires Tidy(row.article) && Alike(row.article, Wanted(request, row.article, now)) && x in keep
    requires x in slugs && slugs[x].record == RecordFor(row.article, x)
    ensures AfterReadSlug(Client2(request, row, now, born, false, Slugs(keep, {}, map[])), slugs, x, false) ==
            Client2(request, row, now, born, false, Slugs(keep - {x}, {}, map[]))
  {
    AlikeSlugs(row.article, Wanted(request, row.article, now));
    hide Wanted;
    hide PermanenceError;
    hide SlugSet;
  }

  lemma Commits1(w: World, i: nat, request: Request, row: Row, now: Time, born: ETag, reply: Reply)
    requires i in w.clients && w.clients[i] == Client2(request, row, now, born, false, Slugs({}, {}, map[]))
    requires Holding(w.store, row) && GoesAhead(request, row, now) && !reply.Refused?
    ensures var step := Commit(i, true, reply);
            var phase := if reply.Accepted? then Refresh(false) else Reconcile(false);
            && Enabled(w, step)
            && Next(w, step) == World(Written(w.store, row.key, Wanted(request, row.article, now)),
                                      w.clients[i := Client2(request, row, now, born, true, phase)])
  {
    hide KeysOk;
    hide Tidy;
    hide Storable;
    hide Alike;
    hide Wanted;
    hide PublicOf;
    var s := w.store;
    assert ApplyPlan(s.slugs, map[], s.next) == s.slugs;
    var b := Wanted(request, row.article, now);
    assert (s.rows - {row.key})[row.key := Row(row.key, b, s.next, true)] == s.rows[row.key := Row(row.key, b, s.next, true)];
  }

  /** A whole update up to and with its batch, by a client that was not there before. */
  lemma OneBatch(w: World, i: nat, request: Request, row: Row, now: Time, reply: Reply) returns (steps: seq<Step>)
    requires i !in w.clients && Holding(w.store, row) && GoesAhead(request, row, now) && !reply.Refused?
    ensures Possible(w, steps) && steps != [] && steps[|steps| - 1] == Commit(i, true, reply)
    ensures var phase := if reply.Accepted? then Refresh(false) else Reconcile(false);
            Run(w, steps) == World(Written(ReadClock(w.store, now), row.key, Wanted(request, row.article, now)),
                                   w.clients[i := Client2(request, row, now, w.store.next, true, phase)])
  {
    hide Enabled;
    hide Next;
    hide GoesAhead;
    hide SlugSet;
    hide Written;
    var born, s1 := w.store.next, ReadClock(w.store, now);
    var c := Client2(request, row, now, born, false, Slugs(SlugSet(row.article), {}, map[]));
    var d := Client2(request, row, now, born, false, Slugs({}, {}, map[]));
    assert Holding(s1, row);
    hide Holding;
    hide ReadClock;
    Starts(w, i, request, row, now);
    var w1 := World(w.store, w.clients[i := Client0(request, row, born)]);
    Reads(w1, i, request, row, now, born);
    var w2 := World(s1, w.clients[i := Client1(request, row, now, born)]);
    Rereads(w2, i, request, row, now, born);
    var w3 := World(s1, w.clients[i := c]);
    var slugs := ReadsSlugs(w3, i, request, row, now, born, SlugSet(row.article));
    var w4 := World(s1, w.clients[i := d]);
    Commits1(w4, i, request, row, now, born, reply);
    var begin := [Start(i, request, CurrentOnly, row.etag), Get(i, Saw(row), now), Get(i, Saw(row), now)];
    assert w1.clients[i := Client1(request, row, now, born)] == w2.clients;
    assert w2.clients[i := c] == w3.clients && w3.clients[i := d] == w4.clients;
    Extend(w, [], begin[0]);
    Extend(w, [] + [begin[0]], begin[1]);
    Extend(w, [] + [begin[0]] + [begin[1]], begin[2]);
    assert begin == [] + [begin[0]] + [begin[1]] + [begin[2]];
    RunAppend(w, begin, slugs);
    Extend(w, begin + slugs, Commit(i, true, reply));
    steps := begin + slugs + [Commit(i, true, reply)];
  }

  // ----- Bringing a version back -----

  /** The clock reading is not behind the dates of the article. */
  predicate ClockInOrder(request: Request, a: Article, now: Time) {
    if request.Publish? then InTime(a, now) else now != ZERO_TIME && a.lastPublishedAt.Some? && a.lastPublishedAt.value <= now
  }

  /** The version as it was right after its last publication. */
  function Republished(a: Article): Article
    requires a.lastPublishedAt.Some?
  {
    a.(status := Published, updatedAt := a.lastPublishedAt.value)
  }

  lemma PublicDates(a: Article)
    requires Storable(a) && a.published.Some?
    ensures a.firstPublishedAt.Some? && a.lastPublishedAt.Some? && a.publishedBody.Some?
    ensures a.status == Published || a.status == Withdrawn
    ensures 0 <= a.createdAt <= a.firstPublishedAt.value <= a.lastPublishedAt.value <= a.updatedAt
    ensures a.published.value.slug !in a.published.value.historical
  {
    hide ValidText;
    hide ValidRef;
    hide Blank;
    hide Distinct;
    assert ValidMetadata(a.published.value);
    hide Normalized;
  }

  lemma SettledSlug(a: Article)
    requires Settled(a)
    ensures a.published.value.slug == a.slug
  {
    hide NextHistory;
  }

  /** Publishing a settled version, or one withdrawn from it, at the time of its last publication. */
  lemma PublishesAgain(a: Article, d: Article)
    requires Settled(a) && a.firstPublishedAt.Some? && a.lastPublishedAt.Some?
    requires d == a.(status := d.status, lastPublishedAt := d.lastPublishedAt, updatedAt := d.updatedAt)
    ensures PublishedFrom(d, a.lastPublishedAt.value) == Republished(a)
  {
    hide NextHistory;
  }

  /** What publishing a settled version changes. */
  lemma PublishesDates(a: Article, now: Time)
    requires Settled(a) && a.firstPublishedAt.Some?
    ensures PublishedFrom(a, now) == a.(status := Published, lastPublishedAt := Some(now), updatedAt := now)
  {
    hide NextHistory;
  }

  /** Other statuses and dates of a storable version, in order. */
  lemma StillStorable(a: Article, b: Article)
    requires Storable(a) && a.published.Some? && (b.status == Published || b.status == Withdrawn)
    requires b == a.(status := b.status, lastPublishedAt := b.lastPublishedAt, updatedAt := b.updatedAt)
    requires b.lastPublishedAt.Some? && a.firstPublishedAt.Some? && a.firstPublishedAt.value <= b.lastPublishedAt.value <= b.updatedAt
    ensures Storable(b)
  {
    hide ValidText;
    hide ValidRef;
    hide Blank;
    hide ValidMetadata;
  }

  /** The client's own version goes ahead, and the two that lead back. */
  lemma RestoringArticles(request: Request, a: Article, now: Time)
    requires Storable(a) && MayHide(request, a, now) && ClockInOrder(request, a, now)
    ensures a.lastPublishedAt.Some? && a.draftBody.Some? && Tidy(a) && (a.status == Published || a.status == Withdrawn)
    ensures var d, q := Wanted(request, a, now), Republished(a);
            && Storable(d) && Alike(a, d) && d != a && (d.status == Published || d.status == Withdrawn) && d.draftBody == a.draftBody
            && PublishedFrom(d, a.lastPublishedAt.value) == q && Storable(q) && Alike(d, q)
            && (a.status == Withdrawn ==> WithdrawnFrom(q, a.updatedAt) == a && Alike(q, a))
            && (a.status == Published ==> q == a)
  {
    hide NextMetadata;
    hide ValidArticle;
    hide Storable;
    PublicDates(a);
    SettledSlug(a);
    assert InTime(a, now) ==> a.firstPublishedAt.value <= now;
    if request.Publish? {
      PublishesDates(a, now);
    }
    var d, q := Wanted(request, a, now), Republished(a);
    PublishesAgain(a, d);
    hide Settled;
    hide PublishedFrom;
    StillStorable(a, d);
    StillStorable(a, q);
  }

  // ----- The reconciliation read and its slug reads -----

  /** The client finds the version it replaced, which another batch has brought back. */
  lemma Reconciles(w: World, request: Request, row: Row, now: Time, born: ETag, back: Row)
    requires 0 in w.clients && w.clients[0] == Client2(request, row, now, born, true, Reconcile(false))
    requires Holding(w.store, back) && back.article == row.article != Wanted(request, row.article, now)
    requires GoesAhead(request, row, now)
    ensures var step := Get(0, Saw(back), now);
            var c := Client2(request, row, now, born, true, Verify(SlugMap(row.article), {}, IsPrior));
            Enabled(w, step) && Next(w, step) == World(w.store, w.clients[0 := c])
  {
    TidyBack(w.store, back);
    ReconcilesTo(w.store, request, row, now, born, back);
    hide AfterReconcile;
    assert RequestId(request) == row.article.id;
    hide GetStep;
    ReconcileGet(w.store, w.clients[0], back, now);
    hide GoesAhead;
    hide Holding;
    hide Wanted;
    hide SlugMap;
    hide Enabled;
    hide Next;
    SeesRow(w, 0, back, now);
  }

  lemma ReconcileGet(s: Store, c: Client, row: Row, now: Time)
    requires c.phase == Reconcile(false) && c.op.desired.Some?
    ensures GetStep(c, s, Saw(row), now) == AfterReconcile(c, s, Saw(row))
  {
    hide AfterReconcile;
  }

  lemma TidyBack(s: Store, row: Row)
    requires Holding(s, row)
    ensures Tidy(row.article) && KeyFits(row.key, row.article)
  {
    hide Reserves;
    hide RecordFor;
  }

  lemma ReconcilesTo(s: Store, request: Request, row: Row, now: Time, born: ETag, back: Row)
    requires Tidy(row.article) && GoesAhead(request, row, now)
    requires back.article == row.article != Wanted(request, row.article, now)
    ensures AfterReconcile(Client2(request, row, now, born, true, Reconcile(false)), s, Saw(back)) ==
            Client2(request, row, now, born, true, Verify(SlugMap(row.article), {}, IsPrior))
  {
    SameSlugs(row.article, Wanted(request, row.article, now));
    hide GoesAhead;
    hide Holds;
    hide Wanted;
    hide SlugMap;
    hide SlugSet;
    hide Tidy;
  }

  lemma SameSlugs(a: Article, b: Article)
    requires Alike(a, b) && Tidy(a)
    ensures SlugSet(b) - SlugSet(a) == {}
  {
    AlikeSlugs(a, b);
  }

  /** All slug rows are as the replaced version has them. */
  lemma {:induction false} Verifies(w: World, c: Client, present: map<Slug, SlugRecord>) returns (steps: seq<Step>)
    requires 0 in w.clients && c.op.desired.Some? && w.clients[0] == c.(phase := Verify(present, {}, IsPrior))
    requires forall x | x in present :: x in w.store.slugs && w.store.slugs[x].record == present[x]
    ensures Possible(w, steps) && Run(w, steps) == World(w.store, w.clients[0 := c.(phase := Verify(map[], {}, IsPrior))])
    decreases |present|
  {
    hide Enabled;
    hide Next;
    if present == map[] {
      steps := [];
      assert w.clients[0 := w.clients[0]] == w.clients;
    } else {
      assert present.Keys != {};
      var x :| x in present;
      VerifiesOne(w, c, present, x);
      var w1 := World(w.store, w.clients[0 := c.(phase := Verify(present - {x}, {}, IsPrior))]);
      assert (present - {x}).Keys == present.Keys - {x} && |present| == |present.Keys|;
      assert |present - {x}| == |(present - {x}).Keys|;
      var rest := Verifies(w1, c, present - {x});
      steps := [VerifySlug(0, x, false)] + rest;
      assert steps[1..] == rest;
    }
  }

  lemma VerifiesOne(w: World, c: Client, present: map<Slug, SlugRecord>, x: Slug)
    requires 0 in w.clients && w.clients[0] == c.(phase := Verify(present, {}, IsPrior)) && x in present
    requires x in w.store.slugs && w.store.slugs[x].record == present[x]
    ensures Enabled(w, VerifySlug(0, x, false))
    ensures Next(w, VerifySlug(0, x, false)) ==
            World(w.store, w.clients[0 := c.(phase := Verify(present - {x}, {}, IsPrior))])
  {
    hide Applied;
    hide BatchFits;
    hide GetStep;
    hide AfterPut;
  }

  lemma Fails(w: World, c: Client)
    requires 0 in w.clients && c.op.desired.Some? && c.op.ref.None? && w.clients[0] == c.(phase := Verify(map[], {}, IsPrior))
    ensures Enabled(w, Verified(0))
    ensures Next(w, Verified(0)) == World(w.store, w.clients[0 := c.(phase := Finished(Err(Storage)))])
  {
    hide Applied;
    hide BatchFits;
    hide GetStep;
    hide AfterPut;
  }

  /** From the reconciliation read to the answer. */
  lemma Misleads(w: World, request: Request, row: Row, now: Time, born: ETag, back: Row) returns (steps: seq<Step>)
    requires 0 in w.clients && w.clients[0] == Client2(request, row, now, born, true, Reconcile(false))
    requires Holding(w.store, back) && back.article == row.article != Wanted(request, row.article, now)
    requires GoesAhead(request, row, now)
    ensures Possible(w, steps)
    ensures Run(w, steps) == World(w.store, w.clients[0 := Client2(request, row, now, born, true, Finished(Err(Storage)))])
  {
    hide Enabled;
    hide Next;
    hide Holding;
    hide GoesAhead;
    hide SlugMap;
    hide Wanted;
    hide Client2;
    var present := SlugMap(row.article);
    var c, c1 := Client2(request, row, now, born, true, Reconcile(false)), Client2(request, row, now, born, true, Verify(present, {}, IsPrior));
    Reconciles(w, request, row, now, born, back);
    RecordsPresent(w.store, back);
    OnlyPhase(request, row, now, born, Verify(present, {}, IsPrior));
    OnlyPhase(request, row, now, born, Finished(Err(Storage)));
    var w1 := World(w.store, w.clients[0 := c1]);
    Extend(w, [], Get(0, Saw(back), now));
    var checks := ChecksAndFails(w1, c, present);
    RunAppend(w, [] + [Get(0, Saw(back), now)], checks);
    steps := [] + [Get(0, Saw(back), now)] + checks;
  }

  lemma OnlyPhase(request: Request, row: Row, now: Time, born: ETag, p: Phase)
    ensures var c := Client2(request, row, now, born, true, Reconcile(false));
            Client2(request, row, now, born, true, p) == c.(phase := p) && c.op.desired.Some? && c.op.ref.None?
  {
    hide Wanted;
  }

  lemma ChecksAndFails(w: World, c: Client, present: map<Slug, SlugRecord>) returns (steps: seq<Step>)
    requires 0 in w.clients && c.op.desired.Some? && c.op.ref.None? && w.clients[0] == c.(phase := Verify(present, {}, IsPrior))
    requires forall x | x in present :: x in w.store.slugs && w.store.slugs[x].record == present[x]
    ensures Possible(w, steps) && Run(w, steps) == World(w.store, w.clients[0 := c.(phase := Finished(Err(Storage)))])
  {
    hide Enabled;
    hide Next;
    var checks := Verifies(w, c, present);
    var w1 := World(w.store, w.clients[0 := c.(phase := Verify(map[], {}, IsPrior))]);
    Fails(w1, c);
    Extend(w, checks, Verified(0));
    steps := checks + [Verified(0)];
  }

  lemma RecordsPresent(s: Store, row: Row)
    requires Holding(s, row)
    ensures forall x | x in SlugMap(row.article) :: x in s.slugs && s.slugs[x].record == SlugMap(row.article)[x]
  {
    hide KeysOk;
    hide Tidy;
  }

  // ----- From any table -----

  /** What a query finds in a consistent table is held with all its slug records. */
  lemma TableHolds(s: Store, row: Row)
    requires StoreOk(s) && row.key in s.rows && s.rows[row.key] == row && Tidy(row.article) && Listed(row, row.article.id)
    ensures Holding(s, row) && Storable(row.article)
  {
    StoreParts(s);
    StoreStorable(s);
    hide StoreOk;
    hide Tidy;
    hide SlugIndexExact;
    hide RetiredOk;
    hide Storable;
    hide SlugsPresent;
    hide KeysOk;
    hide LogOk;
    hide Listed;
    RowInLog(s, row);
    RecordsThere(s, row);
  }

  lemma RecordsThere(s: Store, row: Row)
    requires SlugsPresent(s.rows, s.slugs) && row.key in s.rows && s.rows[row.key] == row
    ensures forall x | Reserves(row.article, x) :: x in s.slugs && s.slugs[x].record == RecordFor(row.article, x)
  {
    hide RecordFor;
    hide Reserves;
  }

  lemma GoesAheadWith(request: Request, row: Row, now: Time)
    requires !request.CreateDraft? && !request.SaveDraft? && RequestId(request) == row.article.id && row.article.draftBody.Some?
    requires Storable(Wanted(request, row.article, now)) && Alike(row.article, Wanted(request, row.article, now))
    requires row.article.status == Published || (request.Publish? && row.article.status == Withdrawn)
    ensures GoesAhead(request, row, now)
  {
    hide Storable;
    hide Alike;
    hide Wanted;
  }

  /** The run up to the moment when the replaced version is back. */
  lemma BringsBack(w: World, row: Row, request: Request, now: Time) returns (steps: seq<Step>, back: Row)
    requires Init(w) && Holding(w.store, row) && Storable(row.article) && RequestId(request) == row.article.id
    requires MayHide(request, row.article, now) && ClockInOrder(request, row.article, now)
    ensures Possible(w, steps) && Committed(steps, 0) && GoesAhead(request, row, now)
    ensures var w' := Run(w, steps);
            && 0 in w'.clients && w'.clients[0] == Client2(request, row, now, w.store.next, true, Reconcile(false))
            && Holding(w'.store, back) && back.article == row.article
            && (w.store.monotone && w.store.clock == now && SameInstant(row.article, now) ==> w'.store.monotone)
  {
    hide StoreOk;
    hide Enabled;
    hide Next;
    hide Storable;
    hide Holding;
    hide GoesAhead;
    hide Wanted;
    hide Alike;
    hide MayHide;
    hide ClockInOrder;
    var id, a := row.article.id, row.article;
    RestoringArticles(request, a, now);
    hide Tidy;
    var d, q, l := Wanted(request, a, now), Republished(a), a.lastPublishedAt.value;
    WithdrawsOnlyPublished(request, a, now);
    GoesAheadWith(request, row, now);
    var first := OneBatch(w, 0, request, row, now, Uncertain);
    var w1, r1 := Run(w, first), Row(row.key, d, w.store.next, true);
    WrittenHolds(w.store, now, row, d);
    assert Wanted(Publish(id), d, l) == q;
    GoesAheadWith(Publish(id), r1, l);
    var second := OneBatch(w1, 1, Publish(id), r1, l, Accepted);
    var w2, r2 := Run(w1, second), Row(row.key, q, w1.store.next, true);
    WrittenHolds(w1.store, l, r1, q);
    RunAppend(w, first, second);
    assert Commits((first + second)[|first| - 1], 0);
    if a.status == Published {
      steps, back := first + second, r2;
    } else {
      assert Wanted(Withdraw(id), q, a.updatedAt) == a;
      GoesAheadWith(Withdraw(id), r2, a.updatedAt);
      var third := OneBatch(w2, 2, Withdraw(id), r2, a.updatedAt, Accepted);
      WrittenHolds(w2.store, a.updatedAt, r2, a);
      RunAppend(w, first + second, third);
      assert Commits((first + second + third)[|first| - 1], 0);
      steps, back := first + second + third, Row(row.key, a, w2.store.next, true);
    }
  }

  lemma WithdrawsOnlyPublished(request: Request, a: Article, now: Time)
    requires MayHide(request, a, now)
    ensures !request.CreateDraft? && !request.SaveDraft? && (request.Withdraw? ==> a.status == Published)
    ensures forall d, t :: Wanted(Publish(a.id), d, t) == PublishedFrom(d, t)
    ensures forall d, t :: Wanted(Withdraw(a.id), d, t) == WithdrawnFrom(d, t)
  {
    hide Restorable;
    hide PublishedFrom;
    hide WithdrawnFrom;
  }

  // ----- Readings of the clock -----

  /** No reading that an update was dated with is earlier than t, as long as clocks did not go back. */
  ghost predicate ReadAfter(w: World, t: Time) {
    w.store.clock >= t && forall i | i in w.clients :: DatedAfter(w.store, w.clients[i], t)
  }

  ghost predicate DatedAfter(s: Store, c: Client, t: Time) {
    s.monotone && !Saves(c.op) && c.op.desired.Some? ==> c.op.desired.value.updatedAt >= t
  }

  lemma ReadDates(c: Client, answer: Answer, now: Time)
    requires c.op.desired.None? && !Saves(c.op) && AfterRead(c, answer, now).op.desired.Some?
    ensures AfterRead(c, answer, now).op.desired.value.updatedAt == now
  {
    hide ValidArticle;
    hide ValidTransition;
    hide NextMetadata;
  }

  lemma ReadDatesStep(w: World, step: Step)
    requires Enabled(w, step) && step.Get? && w.clients[step.client].phase.Read?
    requires var c := w.clients[step.client]; c.op.desired.None? && !Saves(c.op)
    ensures var c' := ReadOnly(w, step);
            c'.op.desired.Some? ==> c'.op.desired.value.updatedAt == step.now
  {
    hide AfterRead;
    hide AnswerOk;
    if AfterRead(w.clients[step.client], step.answer, step.now).op.desired.Some? {
      ReadDates(w.clients[step.client], step.answer, step.now);
    }
  }

  /** The step that decides what a Publish or Withdraw wants to store reads the clock for it. */
  lemma FirstDated(w: World, step: Step, t: Time)
    requires WorldOk(w) && Enabled(w, step) && !step.Migrate? && step.client in w.clients && w.store.clock >= t
    requires var c := w.clients[step.client]; c.op.desired.None? && !Saves(c.op)
    ensures DatedAfter(Next(w, step).store, Next(w, step).clients[step.client], t)
  {
    hide WorldOk;
    hide StoreOk;
    hide OpOk;
    hide OwnOk;
    hide IdReserved;
    hide AnswerOk;
    WorldClient(w, step.client);
    var c := w.clients[step.client];
    assert !c.phase.Putting? && !c.phase.PutCheck? && !c.phase.Slugs?;
    hide PhaseOk;
    hide ReadOnly;
    if IsReadOnly(step) {
      NextReadOnly(w, step);
      if step.Get? {
        ReadDatesStep(w, step);
      } else {
        SlowOps(w, step);
      }
    } else {
      assert step.DeleteBody?;
    }
    hide Enabled;
  }

  lemma SlowOps(w: World, step: Step)
    requires Enabled(w, step) && (step.CheckLegacy? || step.VerifySlug? || step.Verified? || step.ReadSlug?)
    requires w.clients[step.client].op.desired.None?
    ensures ReadOnly(w, step).op.desired.None?
  {
  }

  lemma StepReadAfter(w: World, step: Step, t: Time)
    requires WorldOk(w) && Enabled(w, step) && ReadAfter(w, t)
    ensures ReadAfter(Next(w, step), t)
  {
    hide WorldOk;
    hide Enabled;
    hide Next;
    StepClock(w, step);
    StepMonotone(w, step);
    forall i | i in Next(w, step).clients ensures DatedAfter(Next(w, step).store, Next(w, step).clients[i], t) {
      if !Takes(step, i) {
        OthersUntouched(w, step, i);
      } else if i !in w.clients {
        StartsUndated(w, step, i);
      } else if w.clients[i].op.desired.Some? {
        StepCarries(w, step);
      } else if Saves(w.clients[i].op) {
        StepCarries(w, step);
      } else {
        FirstDated(w, step, t);
      }
    }
  }

  lemma StartsUndated(w: World, step: Step, i: nat)
    requires Enabled(w, step) && i !in w.clients && i in Next(w, step).clients
    ensures Next(w, step).clients[i].op.desired.None?
  {
    StartsFresh(w, step, i);
    hide ReadClock;
  }

  lemma StepClock(w: World, step: Step)
    requires WorldOk(w) && Enabled(w, step)
    ensures w.store.clock <= Next(w, step).store.clock
  {
    hide WorldOk;
    if step.Commit? && step.applies {
      CommitNext(w, step);
      assert Applied(w.store, w.clients[step.client]).clock == w.store.clock by { hide TargetKey; hide ApplyPlan; }
      hide Next;
      hide Applied;
    } else if step.Migrate? {
    } else {
      StepSameTable(w, step);
      hide Next;
      hide Enabled;
    }
  }

  lemma {:induction false} RunReadAfter(w: World, steps: seq<Step>, t: Time)
    requires WorldOk(w) && Possible(w, steps) && ReadAfter(w, t)
    ensures ReadAfter(Run(w, steps), t) && (Run(w, steps).store.monotone ==> w.store.monotone)
    decreases |steps|
  {
    hide WorldOk;
    hide ReadAfter;
    hide Enabled;
    hide Next;
    if steps != [] {
      StepKept(w, steps[0]);
      StepReadAfter(w, steps[0], t);
      StepMonotone(w, steps[0]);
      RunReadAfter(Next(w, steps[0]), steps[1..], t);
    }
  }

  // ----- The exact condition -----

  /** Client i replaced this row at this time, and was told of a definite failure. */
  ghost predicate Hides(w: World, steps: seq<Step>, i: nat, request: Request, row: Row, now: Time)
    requires Possible(w, steps)
  {
    && WronglyFails(w, steps, i, Storage)
    && var o := Run(w, steps).clients[i].op;
       o.request == request && o.prior == Some(row) && o.desired == Some(Wanted(request, row.article, now))
  }

  /** Some run from w hides the effect of such a call; a steady one on clocks that never went back. */
  ghost predicate CanHide(w: World, request: Request, row: Row, now: Time, steady: bool) {
    exists steps, i :: Possible(w, steps) && Hides(w, steps, i, request, row, now) && (steady ==> Run(w, steps).store.monotone)
  }

  lemma ClockWasInOrder(request: Request, a: Article, now: Time)
    requires ValidArticle(a) && MayHide(request, a, now) && ValidArticle(Wanted(request, a, now))
    ensures ClockInOrder(request, a, now)
  {
    SettledSlug(a);
    hide Settled;
    hide ValidText;
    hide ValidMetadata;
    hide ValidRef;
    hide Blank;
    if request.Publish? {
      hide PublishedFrom;
      assert a.published.Some? ==> ValidMetadata(a.published.value);
      SlugNoAlias(a);
      PublishValid(a, now);
    } else {
      WithdrawValid(a, now);
    }
  }

  lemma SlugNoAlias(a: Article)
    requires ValidArticle(a) && a.published.Some? && a.published.value.slug == a.slug
    ensures a.slug !in a.published.value.historical
  {
    assert ValidMetadata(a.published.value);
    hide Normalized;
    hide Blank;
  }

  /** A table that holds the row: only calls that may hide their effect do. */
  lemma HidingNeeds(w: World, steps: seq<Step>, i: nat, request: Request, row: Row, now: Time)
    requires Init(w) && row.key in w.store.rows && w.store.rows[row.key] == row
    requires Possible(w, steps) && Hides(w, steps, i, request, row, now)
    ensures RequestId(request) == row.article.id && Listed(row, row.article.id)
    ensures MayHide(request, row.article, now) && ClockInOrder(request, row.article, now)
    ensures Run(w, steps).store.monotone ==> w.store.monotone && w.store.clock == now && SameInstant(row.article, now)
  {
    hide StoreOk;
    hide WorldOk;
    hide Possible;
    hide Run;
    hide MayHide;
    hide ValidArticle;
    hide PublishedFrom;
    hide WithdrawnFrom;
    var o := Run(w, steps).clients[i].op;
    WrongFailureIsRestored(w, steps, i, Storage);
    WantedDate(request, row.article, now);
    WithdrawsOnlyPublished(request, row.article, now);
    RunInvariant(w, steps);
    PriorIsStored(Run(w, steps), i);
    StoreStorable(w.store);
    ClockWasInOrder(request, row.article, now);
    InitHides(w);
    assert ReadAfter(w, w.store.clock);
    RunReadAfter(w, steps, w.store.clock);
    assert DatedAfter(Run(w, steps).store, Run(w, steps).clients[i], w.store.clock);
    RowDated(w.store, row);
  }

  lemma RowDated(s: Store, row: Row)
    requires StoreOk(s) && row.key in s.rows && s.rows[row.key] == row
    ensures row.article.updatedAt <= s.clock
  {
    StoreParts(s);
    hide StoreOk;
    hide KeysOk;
    hide SlugsPresent;
    hide SlugIndexExact;
    hide RetiredOk;
  }

  lemma WantedDate(request: Request, a: Article, now: Time)
    ensures Wanted(request, a, now).updatedAt == now
  {
    hide NextMetadata;
  }

  lemma PriorIsStored(w: World, i: nat)
    requires WorldOk(w) && i in w.clients && w.clients[i].op.prior.Some? && w.clients[i].op.desired.Some?
    ensures var o := w.clients[i].op;
            o.prior.value.article.id == RequestId(o.request) && Storable(o.desired.value)
  {
    hide WorldOk;
    hide StoreOk;
    hide PhaseOk;
    hide OwnOk;
    hide IdReserved;
    WorldClient(w, i);
    var o := w.clients[i].op;
    assert PriorOk(o) && BaseOk(w.store, o);
    hide OpOk;
    hide Storable;
    hide PermanenceError;
  }

  /** And from every such table, those that may do, in some run. */
  lemma HidingRun(w: World, request: Request, row: Row, now: Time) returns (steps: seq<Step>)
    requires Init(w) && row.key in w.store.rows && w.store.rows[row.key] == row
    requires RequestId(request) == row.article.id && Listed(row, row.article.id)
    requires MayHide(request, row.article, now) && ClockInOrder(request, row.article, now)
    ensures Possible(w, steps) && Hides(w, steps, 0, request, row, now)
    ensures w.store.monotone && w.store.clock == now && SameInstant(row.article, now) ==> Run(w, steps).store.monotone
  {
    hide StoreOk;
    hide Possible;
    hide Run;
    hide ClockInOrder;
    hide Wanted;
    hide Holding;
    hide GoesAhead;
    RowTidy(w.store, request, row, now);
    TableHolds(w.store, row);
    RestoringArticles(request, row.article, now);
    hide MayHide;
    var first, back := BringsBack(w, row, request, now);
    var w1 := Run(w, first);
    var second := Misleads(w1, request, row, now, w.store.next, back);
    RunAppend(w, first, second);
    steps := first + second;
    CommittedLonger(first, second, 0);
  }

  lemma CommittedLonger(a: seq<Step>, b: seq<Step>, i: nat)
    requires Committed(a, i)
    ensures Committed(a + b, i)
  {
    var j :| 0 <= j < |a| && Commits(a[j], i);
    assert Commits((a + b)[j], i);
  }

  lemma RowTidy(s: Store, request: Request, row: Row, now: Time)
    requires StoreOk(s) && row.key in s.rows && s.rows[row.key] == row && MayHide(request, row.article, now)
    ensures Tidy(row.article)
  {
    StoreStorable(s);
    hide StoreOk;
    hide Storable;
    assert Settled(row.article);
    SettledSlug(row.article);
    PublicDates(row.article);
  }

  /**
    Whatever consistent table holds this row: some call that replaces it at this
    time is told of a definite failure although its batch took effect, if and
    only if a query finds the row, the clock is in order, and the version can be
    brought back.
   */
  lemma HidesExactly(w: World, request: Request, row: Row, now: Time)
    requires Init(w) && row.key in w.store.rows && w.store.rows[row.key] == row && RequestId(request) == row.article.id
    ensures CanHide(w, request, row, now, false) <==>
            Listed(row, row.article.id) && MayHide(request, row.article, now) && ClockInOrder(request, row.article, now)
  {
    hide StoreOk;
    hide Possible;
    hide Run;
    hide Hides;
    hide Listed;
    hide MayHide;
    hide ClockInOrder;
    if CanHide(w, request, row, now, false) {
      var steps, i :| Possible(w, steps) && Hides(w, steps, i, request, row, now);
      HidingNeeds(w, steps, i, request, row, now);
    }
    if Listed(row, row.article.id) && MayHide(request, row.article, now) && ClockInOrder(request, row.article, now) {
      var steps := HidingRun(w, request, row, now);
    }
  }

  /**
    The same on clocks that never went back: only a call that reads the very
    time at which the version was both published and last updated.
   */
  lemma HidesExactlyOnSteadyClocks(w: World, request: Request, row: Row, now: Time)
    requires Init(w) && row.key in w.store.rows && w.store.rows[row.key] == row && RequestId(request) == row.article.id
    ensures CanHide(w, request, row, now, true) <==>
            && Listed(row, row.article.id) && w.store.monotone && w.store.clock == now
            && match request
               case Publish(_) =>
                 row.article.status == Withdrawn && PublishedFrom(row.article, now) == row.article.(status := Published)
               case Withdraw(_) =>
                 row.article.status == Published && PublishedFrom(WithdrawnFrom(row.article, now), now) == row.article
               case _ => false
  {
    hide StoreOk;
    hide Possible;
    hide Run;
    hide Hides;
    hide Listed;
    hide PublishedFrom;
    hide WithdrawnFrom;
    StoreStorable(w.store);
    SteadyCondition(request, row.article, now);
    hide MayHide;
    hide ClockInOrder;
    hide SameInstant;
    hide Storable;
    if CanHide(w, request, row, now, true) {
      var steps, i :| Possible(w, steps) && Hides(w, steps, i, request, row, now) && Run(w, steps).store.monotone;
      HidingNeeds(w, steps, i, request, row, now);
    }
    if Listed(row, row.article.id) && w.store.monotone && w.store.clock == now && SameInstant(row.article, now) &&
       MayHide(request, row.article, now) {
      var steps := HidingRun(w, request, row, now);
    }
  }

  lemma SteadyCondition(request: Request, a: Article, now: Time)
    requires Storable(a)
    ensures MayHide(request, a, now) && SameInstant(a, now) <==>
            match request
            case Publish(_) => a.status == Withdrawn && PublishedFrom(a, now) == a.(status := Published)
            case Withdraw(_) => a.status == Published && PublishedFrom(WithdrawnFrom(a, now), now) == a
            case _ => false
    ensures MayHide(request, a, now) && SameInstant(a, now) ==> ClockInOrder(request, a, now)
  {
    hide Storable;
    hide NextHistory;
    if a.published.Some? {
      PublicDates(a);
    }
    StatusPublic(a);
  }

  lemma StatusPublic(a: Article)
    requires Storable(a)
    ensures a.status == Published || a.status == Withdrawn ==> a.published.Some?
  {
    hide ValidText;
    hide ValidMetadata;
    hide ValidRef;
    hide ValidTimes;
    hide Blank;
  }
}
