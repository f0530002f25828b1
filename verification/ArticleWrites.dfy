/**
  What each operation stores, field by field, in terms of what it read, what it
  was given and the clock. internal/articles/service.go.
 */
module ArticleWrites {
  import opened Outcomes
  import opened ArticleModel
  import opened ArticleTable
  import opened ArticleProtocol
  import opened ArticleInvariant
  import opened ArticleSteps
  import opened ArticleCommits
  import opened ArticleTheorems
  import opened ArticleOutcomes

  // ----- The four kinds of new versions -----

  /** The identity of the article and what no operation changes. */
  predicate SameIdentity(a: Article, d: Article) {
    d.id == a.id && d.createdAt == a.createdAt && d.deletedAt == a.deletedAt
  }

  predicate SameDraft(a: Article, d: Article) {
    d.slug == a.slug && d.title == a.title && d.summary == a.summary && d.area == a.area && d.coverId == a.coverId && d.draftBody == a.draftBody
  }

  predicate SamePublication(a: Article, d: Article) {
    && d.status == a.status && d.published == a.published && d.publishedBody == a.publishedBody
    && d.firstPublishedAt == a.firstPublishedAt && d.lastPublishedAt == a.lastPublishedAt
  }

  /** The aliases of the next publication: the old ones, and the canonical slug if it is replaced. */
  predicate NextAliases(a: Article, aliases: seq<Slug>) {
    if a.published.None? then aliases == []
    else if a.published.value.slug == a.slug then aliases == a.published.value.historical
    else aliases == a.published.value.historical + [a.published.value.slug]
  }

  /** The draft of a, published at this time. */
  predicate PublishedOf(a: Article, now: Time, d: Article) {
    && SameIdentity(a, d) && SameDraft(a, d) && d.status == Published && d.published.Some?
    && d.published.value.slug == a.slug && d.published.value.title == a.title && d.published.value.summary == a.summary
    && d.published.value.area == a.area && d.published.value.coverId == a.coverId && NextAliases(a, d.published.value.historical)
    && d.publishedBody == a.draftBody
    && d.firstPublishedAt == (if a.firstPublishedAt.Some? then a.firstPublishedAt else Some(now))
    && d.lastPublishedAt == Some(now) && d.updatedAt == now
  }

  predicate WithdrawnOf(a: Article, now: Time, d: Article) {
    && SameIdentity(a, d) && SameDraft(a, d) && d.status == Withdrawn && d.published == a.published && d.publishedBody == a.publishedBody
    && d.firstPublishedAt == a.firstPublishedAt && d.lastPublishedAt == a.lastPublishedAt && d.updatedAt == now
  }

  /** a with these texts and this body as its draft. */
  predicate SavedOf(a: Article, fields: DraftFields, ref: BodyRef, now: Time, d: Article) {
    && SameIdentity(a, d) && SamePublication(a, d)
    && d.slug == fields.slug && d.title == fields.title && d.summary == fields.summary
    && d.area == fields.area && d.coverId == fields.coverId && d.draftBody == Some(ref) && d.updatedAt == now
  }

  /** The new article with its uploaded body. */
  predicate CreatedOf(a: Article, ref: BodyRef, d: Article) {
    SameIdentity(a, d) && SamePublication(a, d) && d.updatedAt == a.updatedAt &&
    d.slug == a.slug && d.title == a.title && d.summary == a.summary && d.area == a.area && d.coverId == a.coverId && d.draftBody == Some(ref)
  }

  lemma {:induction false} DeduplicatedDistinctly(slugs: seq<Slug>, kept: seq<Slug>)
    requires Distinct(kept + slugs)
    ensures Deduplicated(slugs, kept) == kept + slugs
    decreases |slugs|
  {
    if slugs != [] {
      var all := kept + slugs;
      forall j | 0 <= j < |kept| ensures kept[j] != slugs[0] {
        assert all[j] == kept[j] && all[|kept|] == slugs[0];
      }
      assert kept + [slugs[0]] + slugs[1..] == all;
      DeduplicatedDistinctly(slugs[1..], kept + [slugs[0]]);
    } else {
      assert kept + slugs == kept;
    }
  }

  lemma AliasesDistinct(m: Metadata)
    requires ValidMetadata(m)
    ensures m.slug !in m.historical && Deduplicated(m.historical, []) == m.historical
  {
    hide ValidText;
    hide Normalized;
    assert [] + m.historical == m.historical;
    DeduplicatedDistinctly(m.historical, []);
    hide Deduplicated;
  }

  lemma AliasesAre(a: Article)
    requires ValidArticle(a)
    ensures NextAliases(a, NextHistory(a.published, a.slug))
  {
    hide ValidText;
    hide ValidTimes;
    hide ValidPublication;
    hide ValidMetadata;
    hide ValidRef;
    hide Blank;
    hide Deduplicated;
    if a.published.Some? {
      AliasesDistinct(a.published.value);
    }
  }

  lemma PublishedIs(a: Article, now: Time)
    requires ValidArticle(a)
    ensures PublishedOf(a, now, PublishedFrom(a, now))
  {
    hide ValidArticle;
    hide NextHistory;
    hide NextAliases;
    AliasesAre(a);
  }

  lemma WithdrawnIs(a: Article, now: Time)
    ensures WithdrawnOf(a, now, WithdrawnFrom(a, now))
  {
  }

  lemma SavedIs(a: Article, fields: DraftFields, ref: BodyRef, now: Time)
    ensures SavedOf(a, fields, ref, now, Saved(a, fields, ref, now))
  {
  }

  // ----- Where the new version comes from -----

  /** The m-th step is the service's read of the article, which found this row. */
  ghost predicate ServiceRead(w: World, steps: seq<Step>, i: nat, m: nat, row: Row)
    requires Possible(w, steps)
  {
    && m < |steps| && steps[m].Get? && steps[m].client == i && steps[m].answer == Saw(row)
    && Possible(w, steps[..m]) && i in Run(w, steps[..m]).clients && Run(w, steps[..m]).clients[i].phase.Read?
  }

  /** The m-th step is the upload of this body. */
  predicate ServiceUploaded(steps: seq<Step>, i: nat, m: nat, ref: BodyRef) {
    m < |steps| && steps[m].Upload? && steps[m].client == i && steps[m].newRef == ref
  }

  /** The clock reading with the service's read, or once the upload is known to have succeeded. */
  predicate ClockRead(steps: seq<Step>, i: nat, m: nat, now: Time) {
    m < |steps| && Takes(steps[m], i) &&
    match steps[m]
    case Get(_, _, t) => t == now
    case Upload(_, _, t, _, reply) => reply.Accepted? && t == now
    case CheckUpload(_, t, fails) => !fails && t == now
    case _ => false
  }

  // ----- Longer runs -----

  lemma ReadLonger(w: World, steps: seq<Step>, n: nat, i: nat, m: nat, row: Row)
    requires Possible(w, steps) && n <= |steps| && Possible(w, steps[..n]) && ServiceRead(w, steps[..n], i, m, row)
    ensures ServiceRead(w, steps, i, m, row)
  {
    hide Run;
    hide Possible;
    assert steps[..n][..m] == steps[..m];
  }

  lemma UploadLonger(steps: seq<Step>, n: nat, i: nat, u: nat, ref: BodyRef)
    requires n <= |steps| && ServiceUploaded(steps[..n], i, u, ref)
    ensures ServiceUploaded(steps, i, u, ref)
  {
  }

  lemma ClockLonger(steps: seq<Step>, n: nat, i: nat, t: nat, now: Time)
    requires n <= |steps| && ClockRead(steps[..n], i, t, now)
    ensures ClockRead(steps, i, t, now)
  {
  }

  // ----- What is known of a client on its way there -----

  ghost predicate ClockSince(steps: seq<Step>, i: nat, u: nat, now: Time) {
    exists t :: u <= t && ClockRead(steps, i, t, now)
  }

  ghost predicate UploadedSince(steps: seq<Step>, i: nat, m: nat, o: Op)
    requires o.ref.Some?
  {
    exists u :: m < u && ServiceUploaded(steps, i, u, o.ref.value) && (o.desired.Some? ==> ClockSince(steps, i, u, o.desired.value.updatedAt))
  }

  /** The operation as its own steps in the run explain it; the m-th is the service's read. */
  ghost predicate ReadTrace(w: World, steps: seq<Step>, i: nat, m: nat, o: Op)
    requires Possible(w, steps) && o.base.Some?
  {
    && ServiceRead(w, steps, i, m, o.base.value)
    && (!Saves(o) && o.desired.Some? ==> ClockRead(steps, i, m, o.desired.value.updatedAt))
    && (o.request.SaveDraft? && o.ref.Some? ==> UploadedSince(steps, i, m, o))
  }

  ghost predicate Traced(w: World, steps: seq<Step>, i: nat, o: Op)
    requires Possible(w, steps)
  {
    && (o.base.Some? ==> exists m :: ReadTrace(w, steps, i, m, o))
    && (o.request.CreateDraft? && o.ref.Some? ==> exists u :: ServiceUploaded(steps, i, u, o.ref.value))
  }

  lemma ClockSinceLonger(steps: seq<Step>, n: nat, i: nat, u: nat, now: Time)
    requires n <= |steps| && ClockSince(steps[..n], i, u, now)
    ensures ClockSince(steps, i, u, now)
  {
    var t :| u <= t && ClockRead(steps[..n], i, t, now);
    ClockLonger(steps, n, i, t, now);
  }

  lemma UploadedSinceLonger(steps: seq<Step>, n: nat, i: nat, m: nat, o: Op)
    requires n <= |steps| && o.ref.Some? && UploadedSince(steps[..n], i, m, o)
    ensures UploadedSince(steps, i, m, o)
  {
    hide ClockSince;
    var u :| m < u && ServiceUploaded(steps[..n], i, u, o.ref.value) && (o.desired.Some? ==> ClockSince(steps[..n], i, u, o.desired.value.updatedAt));
    UploadLonger(steps, n, i, u, o.ref.value);
    if o.desired.Some? {
      ClockSinceLonger(steps, n, i, u, o.desired.value.updatedAt);
    }
  }

  lemma TracedLonger(w: World, steps: seq<Step>, n: nat, i: nat, o: Op)
    requires Possible(w, steps) && n <= |steps| && Possible(w, steps[..n]) && Traced(w, steps[..n], i, o)
    ensures Traced(w, steps, i, o)
  {
    hide Possible;
    hide ServiceRead;
    hide ServiceUploaded;
    hide ClockRead;
    hide UploadedSince;
    if o.base.Some? {
      var m :| ReadTrace(w, steps[..n], i, m, o);
      ReadLonger(w, steps, n, i, m, o.base.value);
      if !Saves(o) && o.desired.Some? {
        ClockLonger(steps, n, i, m, o.desired.value.updatedAt);
      }
      if o.request.SaveDraft? && o.ref.Some? {
        UploadedSinceLonger(steps, n, i, m, o);
      }
      assert ReadTrace(w, steps, i, m, o);
    }
    if o.request.CreateDraft? && o.ref.Some? {
      var u :| ServiceUploaded(steps[..n], i, u, o.ref.value);
      UploadLonger(steps, n, i, u, o.ref.value);
    }
  }

  // ----- One step of the client -----

  /** The operation apart from what the repository adds. */
  predicate SameSource(o: Op, o': Op) {
    o'.request == o.request && o'.base == o.base && o'.ref == o.ref && o'.desired == o.desired
  }

  /** What the service's read sets. */
  predicate ReadSets(o: Op, row: Row, now: Time, o': Op) {
    && o'.request == o.request && o'.ref == o.ref
    && (o'.base == o.base || o'.base == Some(row))
    && (o'.desired == o.desired || (o'.base == Some(row) && o'.desired.Some? && o'.desired.value.updatedAt == now && !Saves(o)))
    && (o'.base == o.base ==> o'.desired == o.desired)
  }

  /** What a finished upload sets. */
  predicate PutSets(o: Op, ref: BodyRef, now: Time, o': Op) {
    && o'.request == o.request && o'.base == o.base && o'.ref == Some(ref)
    && (o'.desired == o.desired || (o'.desired.Some? && (o.request.SaveDraft? ==> o'.desired.value.updatedAt == now)))
  }

  lemma ReadSetsOp(c: Client, row: Row, now: Time)
    requires c.phase.Read? && c.op.base.None? && c.op.desired.None? && !c.op.request.CreateDraft?
    ensures ReadSets(c.op, row, now, AfterRead(c, Saw(row), now).op)
  {
    hide NextMetadata;
    hide ValidArticle;
    hide ValidTransition;
  }

  lemma NotFoundSetsNothing(c: Client, answer: Answer, now: Time)
    requires !answer.Saw?
    ensures SameSource(c.op, AfterRead(c, answer, now).op)
  {
  }

  lemma PutSetsOp(c: Client, now: Time)
    requires c.op.ref.Some? && c.op.desired.None?
    ensures PutSets(c.op, c.op.ref.value, now, AfterPut(c, now).op)
  {
    hide Storable;
    hide ValidArticle;
  }

  /** A read in any other phase. */
  lemma OtherGetSame(s: Store, c: Client, answer: Answer, now: Time)
    requires GetPhase(c.phase) && !c.phase.Read? && c.op.desired.Some?
    ensures SameSource(c.op, GetStep(c, s, answer, now).op)
  {
    hide Storable;
    hide KeyFits;
    hide PermanenceError;
    hide SlugSet;
    hide SlugMap;
    hide Holds;
  }

  lemma PlainSame(w: World, step: Step)
    requires Enabled(w, step) && (step.Commit? || step.DeleteBody?)
    ensures step.client in w.clients && step.client in Next(w, step).clients
    ensures SameSource(w.clients[step.client].op, Next(w, step).clients[step.client].op)
  {
    hide Applied;
    hide BatchFits;
    hide Abandon;
  }

  lemma QuietSame(w: World, step: Step)
    requires Enabled(w, step) && (step.ReadSlug? || step.CheckLegacy? || step.VerifySlug? || step.Verified?)
    ensures SameSource(w.clients[step.client].op, ReadOnly(w, step).op)
  {
    hide SlugSet;
    hide SlugMap;
    hide RecordFor;
    hide Holds;
  }

  // ----- Every step of a run -----

  lemma SameTraced(w: World, steps: seq<Step>, i: nat, o: Op, o': Op)
    requires Possible(w, steps) && Traced(w, steps, i, o) && SameSource(o, o')
    ensures Traced(w, steps, i, o')
  {
    hide Possible;
    hide ServiceRead;
    hide ServiceUploaded;
    hide ClockRead;
    hide ClockSince;
    if o.base.Some? {
      var m :| ReadTrace(w, steps, i, m, o);
      assert ReadTrace(w, steps, i, m, o') by {
        if o.request.SaveDraft? && o.ref.Some? {
          assert UploadedSince(steps, i, m, o');
        }
      }
    }
  }

  /** The service's read, as the last step of the run. */
  lemma ReadTraced(w: World, steps: seq<Step>, i: nat, o: Op, o': Op)
    requires steps != [] && Possible(w, steps) && Traced(w, steps, i, o) && o.base.None? && o.desired.None? && !o.request.CreateDraft? && o.ref.None?
    requires steps[|steps| - 1].Get? && steps[|steps| - 1].answer.Saw?
    requires ServiceRead(w, steps, i, |steps| - 1, steps[|steps| - 1].answer.row)
    requires ReadSets(o, steps[|steps| - 1].answer.row, steps[|steps| - 1].now, o')
    ensures Traced(w, steps, i, o')
  {
    hide Possible;
    hide ServiceRead;
    hide ServiceUploaded;
    var m, now := |steps| - 1, steps[|steps| - 1].now;
    if o'.base.Some? {
      assert !Saves(o') && o'.desired.Some? ==> ClockRead(steps, i, m, now) by { ReadClocks(w, steps, i, m); }
      assert ReadTrace(w, steps, i, m, o');
    }
  }

  lemma ReadClocks(w: World, steps: seq<Step>, i: nat, m: nat)
    requires Possible(w, steps) && m < |steps| && steps[m].Get? && steps[m].answer.Saw? && ServiceRead(w, steps, i, m, steps[m].answer.row)
    ensures ClockRead(steps, i, m, steps[m].now)
  {
    hide Possible;
  }

  /** The body is uploaded with the last step; a save had read the article before. */
  lemma UploadTraced(w: World, steps: seq<Step>, i: nat, o: Op, ref: BodyRef, now: Time, o': Op)
    requires steps != [] && Possible(w, steps[..|steps| - 1]) && Possible(w, steps) && Traced(w, steps[..|steps| - 1], i, o)
    requires Saves(o) && o.ref.None? && o.desired.None? && PutSets(o, ref, now, o')
    requires ServiceUploaded(steps, i, |steps| - 1, ref) && (o'.desired.Some? ==> ClockRead(steps, i, |steps| - 1, now))
    ensures Traced(w, steps, i, o')
  {
    hide Possible;
    hide ServiceRead;
    hide ServiceUploaded;
    hide ClockRead;
    var u := |steps| - 1;
    if o.base.Some? && o.request.SaveDraft? {
      var m: nat :| ReadTrace(w, steps[..u], i, m, o);
      ReadBefore(w, steps[..u], i, m, o);
      ReadLonger(w, steps, u, i, m, o.base.value);
      assert o'.desired.Some? ==> ClockSince(steps, i, u, o'.desired.value.updatedAt);
      assert UploadedSince(steps, i, m, o');
      assert ReadTrace(w, steps, i, m, o');
    } else if o.base.Some? {
      var m: nat :| ReadTrace(w, steps[..u], i, m, o);
      ReadLonger(w, steps, u, i, m, o.base.value);
      assert ReadTrace(w, steps, i, m, o');
    }
  }

  lemma ReadBefore(w: World, steps: seq<Step>, i: nat, m: nat, o: Op)
    requires Possible(w, steps) && o.base.Some? && ReadTrace(w, steps, i, m, o)
    ensures m < |steps|
  {
    hide Possible;
  }

  lemma UploadBefore(steps: seq<Step>, i: nat, u: nat, ref: BodyRef)
    requires ServiceUploaded(steps, i, u, ref)
    ensures u < |steps|
  {
  }

  /** The last step finds that the upload did succeed. */
  lemma CheckTraced(w: World, steps: seq<Step>, i: nat, o: Op, now: Time, o': Op)
    requires steps != [] && Possible(w, steps[..|steps| - 1]) && Possible(w, steps) && Traced(w, steps[..|steps| - 1], i, o)
    requires Saves(o) && o.ref.Some? && o.desired.None? && PutSets(o, o.ref.value, now, o') && ClockRead(steps, i, |steps| - 1, now)
    ensures Traced(w, steps, i, o')
  {
    hide Possible;
    hide ServiceRead;
    hide ServiceUploaded;
    hide ClockRead;
    var n := |steps| - 1;
    if o.base.Some? {
      var m: nat :| ReadTrace(w, steps[..n], i, m, o);
      ReadLonger(w, steps, n, i, m, o.base.value);
      if o.request.SaveDraft? {
        var u: nat :| m < u && ServiceUploaded(steps[..n], i, u, o.ref.value);
        UploadBefore(steps[..n], i, u, o.ref.value);
        UploadLonger(steps, n, i, u, o.ref.value);
        assert o'.desired.Some? ==> ClockSince(steps, i, u, o'.desired.value.updatedAt);
        assert UploadedSince(steps, i, m, o');
      }
      assert ReadTrace(w, steps, i, m, o');
    }
    if o.request.CreateDraft? {
      var u: nat :| ServiceUploaded(steps[..n], i, u, o.ref.value);
      UploadLonger(steps, n, i, u, o.ref.value);
    }
  }

  /** The client's own step, as the last one of the run. */
  lemma OwnStepTraced(w: World, steps: seq<Step>, i: nat)
    requires Init(w) && steps != [] && Possible(w, steps) && Possible(w, steps[..|steps| - 1])
    requires var prev, step := Run(w, steps[..|steps| - 1]), steps[|steps| - 1];
             && Enabled(prev, step) && Run(w, steps) == Next(prev, step) && WorldOk(prev) && Takes(step, i)
             && i in prev.clients && Traced(w, steps[..|steps| - 1], i, prev.clients[i].op)
    ensures i in Run(w, steps).clients && Traced(w, steps, i, Run(w, steps).clients[i].op)
  {
    hide Run;
    hide Possible;
    hide WorldOk;
    hide Traced;
    hide Enabled;
    hide Next;
    var n := |steps| - 1;
    var prev, step := Run(w, steps[..n]), steps[n];
    var c := prev.clients[i];
    TracedLonger(w, steps, n, i, c.op);
    OwnStaysInWorld(prev, step);
    if step.Get? {
      OwnGetTraced(w, steps, i);
    } else if step.Upload? {
      OwnUploadTraced(w, steps, i);
    } else if step.CheckUpload? {
      OwnCheckTraced(w, steps, i);
    } else {
      OwnOtherSame(prev, step);
      SameTraced(w, steps, i, c.op, Run(w, steps).clients[i].op);
    }
  }

  lemma OwnOtherSame(w: World, step: Step)
    requires Enabled(w, step) && !step.Migrate? && step.client in w.clients && step.client in Next(w, step).clients
    requires !step.Get? && !step.Upload? && !step.CheckUpload?
    ensures SameSource(w.clients[step.client].op, Next(w, step).clients[step.client].op)
  {
    hide ReadOnly;
    hide SameSource;
    if IsReadOnly(step) {
      QuietSame(w, step);
      NextReadOnly(w, step);
      hide Enabled;
      hide Next;
    } else {
      PlainSame(w, step);
    }
  }

  /** A client in its first read has read nothing yet. */
  lemma ReadingClient(w: World, i: nat)
    requires WorldOk(w) && i in w.clients && w.clients[i].phase.Read?
    ensures var o := w.clients[i].op; o.base.None? && o.desired.None? && o.ref.None? && !o.request.CreateDraft?
  {
    hide WorldOk;
    hide StoreOk;
    hide OpOk;
    WorldClient(w, i);
  }

  lemma PuttingPhase(w: World, i: nat)
    requires WorldOk(w) && i in w.clients && (w.clients[i].phase.Putting? || w.clients[i].phase.PutCheck?)
    ensures var o := w.clients[i].op; Saves(o) && o.desired.None? && (w.clients[i].phase.Putting? <==> o.ref.None?)
  {
    hide WorldOk;
    hide StoreOk;
    hide OpOk;
    WorldClient(w, i);
  }

  lemma GetIsRead(w: World, step: Step)
    requires Enabled(w, step) && step.Get?
    ensures var c := w.clients[step.client]; GetPhase(c.phase) && (!c.phase.Read? ==> c.op.desired.Some?)
    ensures Next(w, step).clients[step.client] == GetStep(w.clients[step.client], w.store, step.answer, step.now)
  {
    hide GetStep;
    hide AnswerOk;
    hide Abandon;
    hide ReadClock;
  }

  lemma GetStepRead(s: Store, c: Client, answer: Answer, now: Time)
    requires c.phase.Read?
    ensures var c' := GetStep(c, s, answer, now); c' == AfterRead(c, answer, now) || c' == c.(phase := Again(c.phase))
  {
    hide AfterRead;
  }

  lemma OwnGetTraced(w: World, steps: seq<Step>, i: nat)
    requires Init(w) && steps != [] && Possible(w, steps) && Possible(w, steps[..|steps| - 1])
    requires var prev, step := Run(w, steps[..|steps| - 1]), steps[|steps| - 1];
             && Enabled(prev, step) && Run(w, steps) == Next(prev, step) && WorldOk(prev) && step.Get? && step.client == i
             && i in prev.clients && i in Run(w, steps).clients && Traced(w, steps, i, prev.clients[i].op)
    ensures Traced(w, steps, i, Run(w, steps).clients[i].op)
  {
    hide Run;
    hide Possible;
    hide WorldOk;
    hide Traced;
    hide Enabled;
    hide Next;
    hide GetStep;
    hide AfterRead;
    hide SameSource;
    hide ReadSets;
    var n := |steps| - 1;
    var prev, step := Run(w, steps[..n]), steps[n];
    var c, c' := prev.clients[i], Run(w, steps).clients[i];
    GetIsRead(prev, step);
    if c.phase.Read? {
      ReadingClient(prev, i);
      GetStepRead(prev.store, c, step.answer, step.now);
      if step.answer.Saw? {
        assert ServiceRead(w, steps, i, n, step.answer.row);
        ReadSetsOp(c, step.answer.row, step.now);
        if c' == AfterRead(c, step.answer, step.now) {
          ReadTraced(w, steps, i, c.op, c'.op);
        } else {
          SameOp(c.op);
          SameTraced(w, steps, i, c.op, c'.op);
        }
      } else {
        NotFoundSetsNothing(c, step.answer, step.now);
        SameOp(c.op);
        SameTraced(w, steps, i, c.op, c'.op);
      }
    } else {
      OtherGetSame(prev.store, c, step.answer, step.now);
      SameTraced(w, steps, i, c.op, c'.op);
    }
  }

  lemma SameOp(o: Op)
    ensures SameSource(o, o)
  {
  }

  /** What an upload makes of the client. */
  lemma UploadSets(w: World, step: Step)
    requires Enabled(w, step) && step.Upload? && w.clients[step.client].op.desired.None?
    ensures var o, o' := w.clients[step.client].op, Next(w, step).clients[step.client].op;
            && w.clients[step.client].phase.Putting?
            && (SameSource(o, o') || PutSets(o, step.newRef, step.now, o'))
            && (o'.desired.Some? ==> step.reply.Accepted?)
  {
    hide AfterPut;
    hide Abandon;
    hide ReadClock;
    hide BlobName;
    var c := w.clients[step.client];
    var c1 := c.(op := c.op.(ref := Some(step.newRef)));
    PutSetsOp(c1, step.now);
    assert Next(w, step) == UploadStep(w, step);
  }

  lemma OwnUploadTraced(w: World, steps: seq<Step>, i: nat)
    requires Init(w) && steps != [] && Possible(w, steps) && Possible(w, steps[..|steps| - 1])
    requires var prev, step := Run(w, steps[..|steps| - 1]), steps[|steps| - 1];
             && Enabled(prev, step) && Run(w, steps) == Next(prev, step) && WorldOk(prev) && step.Upload? && step.client == i
             && i in prev.clients && i in Run(w, steps).clients
             && Traced(w, steps, i, prev.clients[i].op) && Traced(w, steps[..|steps| - 1], i, prev.clients[i].op)
    ensures Traced(w, steps, i, Run(w, steps).clients[i].op)
  {
    hide Run;
    hide Possible;
    hide WorldOk;
    hide Traced;
    hide Enabled;
    hide Next;
    hide SameSource;
    hide PutSets;
    var n := |steps| - 1;
    var prev, step := Run(w, steps[..n]), steps[n];
    var o, o' := prev.clients[i].op, Run(w, steps).clients[i].op;
    UploadPhase(prev, step);
    PuttingPhase(prev, i);
    UploadSets(prev, step);
    if SameSource(o, o') {
      SameTraced(w, steps, i, o, o');
    } else {
      UploadTraced(w, steps, i, o, step.newRef, step.now, o');
    }
  }

  lemma UploadPhase(w: World, step: Step)
    requires Enabled(w, step)
    ensures step.Upload? ==> step.client in w.clients && w.clients[step.client].phase.Putting?
    ensures step.CheckUpload? ==> step.client in w.clients && w.clients[step.client].phase.PutCheck?
  {
    hide BlobName;
  }

  /** What the check after an uncertain upload makes of the client. */
  lemma CheckSets(w: World, step: Step)
    requires Enabled(w, step) && step.CheckUpload? && w.clients[step.client].op.desired.None?
    ensures var o, o' := w.clients[step.client].op, Next(w, step).clients[step.client].op;
            SameSource(o, o') || (!step.fails && o.ref.Some? && PutSets(o, o.ref.value, step.now, o'))
  {
    hide AfterPut;
    hide Abandon;
    hide ReadClock;
    PutSetsOp(w.clients[step.client], step.now);
  }

  lemma OwnCheckTraced(w: World, steps: seq<Step>, i: nat)
    requires Init(w) && steps != [] && Possible(w, steps) && Possible(w, steps[..|steps| - 1])
    requires var prev, step := Run(w, steps[..|steps| - 1]), steps[|steps| - 1];
             && Enabled(prev, step) && Run(w, steps) == Next(prev, step) && WorldOk(prev) && step.CheckUpload? && step.client == i
             && i in prev.clients && i in Run(w, steps).clients
             && Traced(w, steps, i, prev.clients[i].op) && Traced(w, steps[..|steps| - 1], i, prev.clients[i].op)
    ensures Traced(w, steps, i, Run(w, steps).clients[i].op)
  {
    hide Run;
    hide Possible;
    hide WorldOk;
    hide Traced;
    hide Enabled;
    hide Next;
    hide SameSource;
    hide PutSets;
    var n := |steps| - 1;
    var prev, step := Run(w, steps[..n]), steps[n];
    var o, o' := prev.clients[i].op, Run(w, steps).clients[i].op;
    UploadPhase(prev, step);
    PuttingPhase(prev, i);
    CheckSets(prev, step);
    if SameSource(o, o') {
      SameTraced(w, steps, i, o, o');
    } else {
      CheckTraced(w, steps, i, o, step.now, o');
    }
  }

  lemma {:induction false} RunTraced(w: World, steps: seq<Step>, i: nat)
    requires Init(w) && Possible(w, steps) && i in Run(w, steps).clients
    ensures Traced(w, steps, i, Run(w, steps).clients[i].op)
    decreases |steps|
  {
    hide Init;
    hide Enabled;
    hide Next;
    hide WorldOk;
    hide StoreOk;
    hide Traced;
    if steps != [] {
      var n := |steps| - 1;
      RunLast(w, steps);
      RunInvariant(w, steps[..n]);
      var prev := Run(w, steps[..n]);
      hide Run;
      hide Possible;
      if i in prev.clients {
        RunTraced(w, steps[..n], i);
        if Takes(steps[n], i) {
          OwnStepTraced(w, steps, i);
        } else {
          OthersUntouched(prev, steps[n], i);
          TracedLonger(w, steps, n, i, prev.clients[i].op);
        }
      } else {
        StartTraced(w, steps, i, prev, steps[n]);
      }
    } else {
      NoClients(w);
    }
  }

  lemma StartTraced(w: World, steps: seq<Step>, i: nat, prev: World, step: Step)
    requires Possible(w, steps) && Enabled(prev, step) && Run(w, steps) == Next(prev, step) && i !in prev.clients
    requires i in Next(prev, step).clients
    ensures Traced(w, steps, i, Run(w, steps).clients[i].op)
  {
    hide Possible;
    hide Run;
    StartsFresh(prev, step, i);
    hide FreshId;
    hide ReadClock;
  }

  // ----- What a batch stores -----

  /** The new version is what the request makes of the version that the service read, at the time of the call. */
  ghost predicate NewVersion(w: World, steps: seq<Step>, i: nat, request: Request, before: Row, after: Row)
    requires Possible(w, steps)
  {
    match request
    case CreateDraft(_) => false
    case SaveDraft(_, input) => input.Ok? && exists m, u, ref, t, now :: SaveMade(w, steps, i, input.value, before, after, m, u, ref, t, now)
    case Publish(_) =>
      exists m, now :: ServiceRead(w, steps, i, m, before) && ClockRead(steps, i, m, now) && PublishedOf(before.article, now, after.article)
    case Withdraw(_) =>
      exists m, now :: ServiceRead(w, steps, i, m, before) && ClockRead(steps, i, m, now) && WithdrawnOf(before.article, now, after.article)
  }

  /** The service read the article, then uploaded the body, then read the clock. */
  ghost predicate SaveMade(w: World, steps: seq<Step>, i: nat, fields: DraftFields, before: Row, after: Row,
                           m: nat, u: nat, ref: BodyRef, t: nat, now: Time)
    requires Possible(w, steps)
  {
    && ServiceRead(w, steps, i, m, before) && ServiceUploaded(steps, i, u, ref) && ClockRead(steps, i, t, now) && m < u <= t
    && SavedOf(before.article, fields, ref, now, after.article)
  }

  lemma SaveVersion(w: World, steps: seq<Step>, i: nat, o: Op, after: Row)
    requires Possible(w, steps) && Traced(w, steps, i, o) && DesiredOk(o) && o.request.SaveDraft? && o.desired.Some?
    requires after.article == o.desired.value
    ensures o.base.Some? && NewVersion(w, steps, i, o.request, o.base.value, after)
  {
    hide Possible;
    hide ServiceRead;
    hide ServiceUploaded;
    hide ClockRead;
    var m: nat :| ReadTrace(w, steps, i, m, o);
    var u: nat :| m < u && ServiceUploaded(steps, i, u, o.ref.value) && ClockSince(steps, i, u, o.desired.value.updatedAt);
    var t: nat :| u <= t && ClockRead(steps, i, t, o.desired.value.updatedAt);
    SavedIs(o.base.value.article, o.request.input.value, o.ref.value, o.desired.value.updatedAt);
    hide SavedOf;
    assert SaveMade(w, steps, i, o.request.input.value, o.base.value, after, m, u, o.ref.value, t, o.desired.value.updatedAt);
  }

  lemma PublishVersion(w: World, steps: seq<Step>, i: nat, o: Op, after: Row)
    requires Possible(w, steps) && Traced(w, steps, i, o) && DesiredOk(o) && (o.request.Publish? || o.request.Withdraw?) && o.desired.Some?
    requires after.article == o.desired.value && (o.base.Some? ==> ValidArticle(o.base.value.article))
    ensures o.base.Some? && NewVersion(w, steps, i, o.request, o.base.value, after)
  {
    hide Possible;
    hide ServiceRead;
    hide ClockRead;
    hide ValidArticle;
    var a, now := o.base.value.article, o.desired.value.updatedAt;
    var m: nat :| ReadTrace(w, steps, i, m, o);
    if o.request.Publish? {
      PublishedIs(a, now);
    } else {
      WithdrawnIs(a, now);
    }
    hide PublishedFrom;
    hide WithdrawnFrom;
    hide PublishedOf;
    hide WithdrawnOf;
  }

  /** The version that the batch replaces is valid, as every stored one. */
  lemma PriorValid(s: Store, row: Row)
    requires StoreOk(s) && row.key in s.rows && s.rows[row.key] == row
    ensures ValidArticle(row.article)
  {
    hide ValidArticle;
    hide KeysOk;
    hide SlugIndexExact;
    hide BodiesOk;
    hide RetiredOk;
    hide LogOk;
    hide PublicOk;
    assert Storable(s.rows[row.key].article);
  }

  /** The row that an effective batch writes, and the one it replaces. */
  lemma CommitRows(w: World, step: Step)
    requires WorldOk(w) && Enabled(w, step) && step.Commit? && step.applies
    ensures var c, s, s' := w.clients[step.client], w.store, Next(w, step).store;
            && c.op.desired.Some? && DesiredOk(c.op) && (c.op.request.CreateDraft? <==> c.op.prior.None?)
            && var row := NewRow(c, s.next);
               && row.key in s'.rows && s'.rows[row.key] == row && row.article == c.op.desired.value && row.key.id == IdOf(c)
               && (c.op.prior.Some? ==>
                     && c.op.base == c.op.prior && c.op.prior.value.key in s.rows && s.rows[c.op.prior.value.key] == c.op.prior.value
                     && c.op.prior.value.key.id == IdOf(c) && ValidArticle(c.op.prior.value.article))
               && (c.op.prior.None? ==> forall k | k in s.rows :: k.id != IdOf(c))
  {
    var c := w.clients[step.client];
    CommitStepCommits(w, step);
    StoreParts(w.store);
    CommittingPrior(w.store, c);
    CommittingShape(w.store, c);
    AppliedRows(w.store, c);
    CommitNext(w, step);
    OnlyGone(w.store, c);
    CreatingFree(w.store, c);
    hide WorldOk;
    hide Committing;
    hide KeysOk;
    hide LogOk;
    hide SlugsPresent;
    hide SlugIndexExact;
    hide RetiredOk;
    hide Enabled;
    hide Next;
    hide Applied;
    hide DesiredOk;
    hide PriorOk;
    hide TimeOk;
    hide RequestOk;
    hide Storable;
    hide ValidArticle;
    if c.op.prior.Some? {
      PriorValid(w.store, c.op.prior.value);
    }
    hide StoreOk;
  }

  lemma CreatingFree(s: Store, c: Client)
    requires Committing(s, c)
    ensures c.op.request.CreateDraft? ==> forall k | k in s.rows :: k.id != IdOf(c)
  {
    hide ClientOk;
    hide OwnOk;
    hide BatchFits;
    assert SlugsPhaseOk(s, c) && c.phase.Slugs? by { CommittingPhase(s, c); }
    hide SlugsPhaseOk;
  }

  lemma CommittingPhase(s: Store, c: Client)
    requires ClientOk(s, c) && c.phase.Slugs?
    ensures SlugsPhaseOk(s, c) && !c.op.applied
  {
    hide OpOk;
    hide PlanSound;
  }

  /**
    An effective SaveDraft, Publish or Withdraw replaces the version that its
    service call read by exactly the version that the request asks for.
   */
  lemma UpdateStores(w: World, steps: seq<Step>, step: Step)
    requires Init(w) && Possible(w, steps) && Enabled(Run(w, steps), step) && step.Commit? && step.applies
    requires !Run(w, steps).clients[step.client].op.request.CreateDraft?
    ensures var w1 := Run(w, steps); var o, rows, rows' := w1.clients[step.client].op, w1.store.rows, Next(w1, step).store.rows;
            exists k, k' :: k in rows && k' in rows' && k.id == RequestId(o.request) == k'.id &&
                            NewVersion(w, steps, step.client, o.request, rows[k], rows'[k'])
  {
    hide Init;
    hide Run;
    hide Possible;
    hide Enabled;
    hide Next;
    hide WorldOk;
    hide StoreOk;
    hide Traced;
    hide NewVersion;
    hide DesiredOk;
    hide ValidArticle;
    hide NewRow;
    var w1, i := Run(w, steps), step.client;
    CommitClientIn(w1, step);
    RunInvariant(w, steps);
    RunTraced(w, steps, i);
    CommitRows(w1, step);
    var c := w1.clients[i];
    var row := NewRow(c, w1.store.next);
    if c.op.request.SaveDraft? {
      SaveVersion(w, steps, i, c.op, row);
    } else {
      PublishVersion(w, steps, i, c.op, row);
    }
    assert NewVersion(w, steps, i, c.op.request, w1.store.rows[c.op.prior.value.key], Next(w1, step).store.rows[row.key]);
  }

  lemma CommitClientIn(w: World, step: Step)
    requires Enabled(w, step) && step.Commit?
    ensures step.client in w.clients
  {
    hide BatchFits;
  }

  /** An effective CreateDraft adds the new article, with the body that it uploaded. */
  lemma CreateStores(w: World, steps: seq<Step>, step: Step)
    requires Init(w) && Possible(w, steps) && Enabled(Run(w, steps), step) && step.Commit? && step.applies
    requires Run(w, steps).clients[step.client].op.request.CreateDraft?
    ensures var w1 := Run(w, steps); var a, rows, rows' := w1.clients[step.client].op.request.article, w1.store.rows, Next(w1, step).store.rows;
            && (forall k | k in rows :: k.id != a.id)
            && exists k, u, ref :: k in rows' && k.id == a.id && ServiceUploaded(steps, step.client, u, ref) && CreatedOf(a, ref, rows'[k].article)
  {
    hide Init;
    hide Run;
    hide Possible;
    hide Enabled;
    hide Next;
    hide WorldOk;
    hide StoreOk;
    hide ValidArticle;
    hide NewRow;
    hide ServiceUploaded;
    var w1, i := Run(w, steps), step.client;
    CommitClientIn(w1, step);
    RunInvariant(w, steps);
    RunTraced(w, steps, i);
    CommitRows(w1, step);
    var c := w1.clients[i];
    var row := NewRow(c, w1.store.next);
    assert c.op.ref.Some? && c.op.desired.value == c.op.request.article.(draftBody := c.op.ref);
    var u: nat :| ServiceUploaded(steps, i, u, c.op.ref.value);
    assert CreatedOf(c.op.request.article, c.op.ref.value, Next(w1, step).store.rows[row.key].article);
  }
}
