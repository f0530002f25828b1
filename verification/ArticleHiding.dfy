/**
  When a definite failure of Publish or Withdraw can be wrong that the batch had
  no effect: exactly when others may have brought back the version it replaced.
  internal/storage/azure/articles.go, internal/articles/service.go.
 */
module ArticleHiding {
  import opened Outcomes
  import opened ArticleModel
  import opened ArticleTable
  import opened ArticleProtocol
  import opened ArticleInvariant
  import opened ArticleSteps
  import opened ArticleCommits
  import opened ArticleTheorems
  import opened ArticleOutcomes

  // ----- The condition, on the stored article and the clock reading -----

  /** What is public is the draft: publishing again would change dates only. */
  predicate Settled(a: Article) {
    a.published.Some? && a.publishedBody == a.draftBody && a.published == Some(NextMetadata(a.published, a))
  }

  /** Publishing, or publishing and withdrawing, can bring this version back. */
  predicate Restorable(a: Article) {
    Settled(a) && (a.status == Published ==> a.lastPublishedAt == Some(a.updatedAt))
  }

  /** A call that replaces this version at this time may be told that it did not. */
  predicate MayHide(request: Request, stored: Article, now: Time) {
    match request
    case Publish(_) => Restorable(stored) && PublishedFrom(stored, now) != stored
    case Withdraw(_) => Restorable(stored) && stored.status == Published
    case CreateDraft(_) => false
    case SaveDraft(_, _) => false
  }

  /** The version was last published and last updated at the very time of the call. */
  predicate SameInstant(stored: Article, now: Time) {
    stored.updatedAt == now && stored.lastPublishedAt == Some(now)
  }

  // ----- Versions that follow the client's own -----

  /** A later version with the same draft, if nobody saved in between. */
  predicate Kin(o: Op, monotone: bool, a: Article)
    requires o.desired.Some?
  {
    var d := o.desired.value;
    && (a.status == Published ==> Restorable(a))
    && (o.request.Publish? ==> Settled(a))
    && (monotone && d.lastPublishedAt.Some? ==>
          a.lastPublishedAt.Some? && d.lastPublishedAt.value <= a.lastPublishedAt.value)
  }

  ghost predicate VersionOk(s: Store, o: Op, a: Article)
    requires o.desired.Some?
  {
    var d := o.desired.value;
    if a.draftBody == d.draftBody then Kin(o, s.monotone, a) else (RequestId(o.request), d.draftBody) in s.retired
  }

  ghost predicate Traced(s: Store, o: Op)
    requires o.desired.Some?
  {
    forall k | k in s.rows && k.id == RequestId(o.request) :: VersionOk(s, o, s.rows[k].article)
  }

  /** What one batch of any client makes of a version. */
  ghost predicate Follows(s: Store, s': Store, a: Article, b: Article) {
    || b == a
    || (b == PublishedFrom(a, b.updatedAt) && (s'.monotone ==> a.updatedAt <= b.updatedAt))
    || b == WithdrawnFrom(a, b.updatedAt)
    || (b.draftBody != a.draftBody && (a.id, b.draftBody) !in s.retired && (a.id, a.draftBody) in s'.retired)
  }

  lemma {:induction false} DeduplicatedFixed(slugs: seq<Slug>, kept: seq<Slug>)
    requires Distinct(kept + slugs)
    ensures Deduplicated(slugs, kept) == kept + slugs
    decreases |slugs|
  {
    if slugs == [] {
      assert kept + slugs == kept;
    } else {
      assert kept + slugs == kept + [slugs[0]] + slugs[1..];
      assert slugs[0] !in kept by {
        assert (kept + slugs)[|kept|] == slugs[0];
        assert forall i | 0 <= i < |kept| :: (kept + slugs)[i] == kept[i];
      }
      DeduplicatedFixed(slugs[1..], kept + [slugs[0]]);
    }
  }

  /** The history of a publication stays as it is when the same draft is published again. */
  lemma NextHistoryTwice(previous: Option<Metadata>, slug: Slug, m: Metadata)
    requires m.slug == slug && m.historical == NextHistory(previous, slug)
    ensures NextHistory(Some(m), slug) == m.historical
  {
    hide Deduplicated;
    if previous.Some? {
      DeduplicatedDistinct(previous.value.historical, []);
    }
    assert Distinct(m.historical);
    assert [] + m.historical == m.historical;
    DeduplicatedFixed(m.historical, []);
  }

  lemma PublishSettles(a: Article, now: Time)
    ensures Settled(PublishedFrom(a, now)) && Restorable(PublishedFrom(a, now))
  {
    hide NextHistory;
    NextHistoryTwice(a.published, a.slug, NextMetadata(a.published, a));
  }

  /** Withdrawing leaves the draft and the publication as they are. */
  lemma WithdrawSettles(a: Article, now: Time)
    ensures Settled(WithdrawnFrom(a, now)) <==> Settled(a)
  {
    hide NextHistory;
  }

  lemma FollowsKept(s: Store, s': Store, o: Op, a: Article, b: Article)
    requires o.desired.Some? && a.id == RequestId(o.request) && ValidArticle(a)
    requires VersionOk(s, o, a) && Follows(s, s', a, b)
    requires s.retired <= s'.retired && (s'.monotone ==> s.monotone)
    ensures VersionOk(s', o, b)
  {
    assert a.lastPublishedAt.Some? ==> a.lastPublishedAt.value <= a.updatedAt;
    hide ValidArticle;
    if b == PublishedFrom(a, b.updatedAt) {
      PublishSettles(a, b.updatedAt);
    } else if b == WithdrawnFrom(a, b.updatedAt) {
      WithdrawSettles(a, b.updatedAt);
    }
    hide Settled;
    hide NextMetadata;
  }

  // ----- Batches -----

  lemma StoreStorable(s: Store)
    requires StoreOk(s)
    ensures RowsStorable(s.rows)
  {
    hide KeysOk;
    hide RowsStorable;
    hide SlugIndexExact;
    hide BodiesOk;
    hide RetiredOk;
    hide LogOk;
    hide PublicOk;
  }

  /** An update that takes effect makes one of the versions that follow the one it replaces. */
  lemma CommitFollows(s: Store, c: Client)
    requires LogOk(s) && RetiredOk(s) && Committing(s, c) && c.op.prior.Some?
    ensures c.op.desired.Some? && c.phase.Slugs?
    ensures Follows(s, Applied(s, c), c.op.prior.value.article, c.op.desired.value)
  {
    CommittingPrior(s, c);
    NewDraft(s, c);
    hide Committing;
    hide LogOk;
    hide RetiredOk;
    hide Storable;
    hide PriorOk;
    hide RequestOk;
    hide PublishedFrom;
    hide TargetKey;
    hide ApplyPlan;
  }

  lemma AppliedRetires(s: Store, c: Client)
    requires c.op.desired.Some? && c.phase.Slugs?
    ensures s.retired <= Applied(s, c).retired && Applied(s, c).monotone == s.monotone
  {
    hide TargetKey;
    hide ApplyPlan;
  }

  /** Every version of the client's article is traced through the batch of another client. */
  lemma CommitTraced(s: Store, c: Client, o: Op)
    requires StoreOk(s) && Committing(s, c) && o.desired.Some? && Traced(s, o) && HasRow(s.rows, RequestId(o.request))
    ensures c.op.desired.Some? && c.phase.Slugs? && Traced(Applied(s, c), o)
  {
    hide StoreOk;
    hide VersionOk;
    CommitShape(s, c);
    AppliedRetires(s, c);
    var s', row := Applied(s, c), NewRow(c, s.next);
    forall k | k in s'.rows && k.id == RequestId(o.request) ensures VersionOk(s', o, s'.rows[k].article) {
      if k == row.key {
        NewVersionOk(s, c, o);
      } else {
        OldVersionOk(s, s', o, s.rows[k].article);
      }
    }
    hide Committing;
    hide Applied;
    hide NewRow;
  }

  lemma CommitShape(s: Store, c: Client)
    requires StoreOk(s) && Committing(s, c)
    ensures c.op.desired.Some? && c.phase.Slugs?
    ensures var row := NewRow(c, s.next);
            && row.article == c.op.desired.value && row.key in Applied(s, c).rows && Applied(s, c).rows[row.key] == row
            && forall k | k in Applied(s, c).rows && k != row.key :: k in s.rows && Applied(s, c).rows[k] == s.rows[k]
  {
    StoreParts(s);
    hide StoreOk;
    hide SlugsPresent;
    hide SlugIndexExact;
    hide RetiredOk;
    hide LogOk;
    hide KeysOk;
    CommittingShape(s, c);
    CommittingReplaces(s, c);
    hide Committing;
    hide Applied;
  }

  lemma OldVersionOk(s: Store, s': Store, o: Op, a: Article)
    requires o.desired.Some? && VersionOk(s, o, a) && s.retired <= s'.retired && (s'.monotone ==> s.monotone)
    ensures VersionOk(s', o, a)
  {
    hide Settled;
  }

  lemma NewVersionOk(s: Store, c: Client, o: Op)
    requires StoreOk(s) && Committing(s, c) && o.desired.Some? && Traced(s, o) && HasRow(s.rows, RequestId(o.request))
    requires c.op.desired.Some? && c.phase.Slugs? && NewRow(c, s.next).key.id == RequestId(o.request)
    ensures VersionOk(Applied(s, c), o, c.op.desired.value)
  {
    StoreParts(s);
    StoreStorable(s);
    hide StoreOk;
    hide SlugsPresent;
    hide SlugIndexExact;
    hide RetiredOk;
    hide LogOk;
    hide DesiredOk;
    hide PriorOk;
    hide TimeOk;
    hide RequestOk;
    hide VersionOk;
    hide Follows;
    hide ValidArticle;
    CommittingPrior(s, c);
    CommittingShape(s, c);
    assert IdReserved(s, c);
    hide Committing;
    var id := RequestId(o.request);
    var k :| k in s.rows && k.id == id;
    assert NewRow(c, s.next).key.id == IdOf(c);
    assert c.op.prior.Some?;
    AppliedRetires(s, c);
    CommitFollows(s, c);
    hide Applied;
    FollowsKept(s, Applied(s, c), o, c.op.prior.value.article, c.op.desired.value);
  }

  lemma MigrateTraced(s: Store, id: Id, createdAt: Time, o: Op)
    requires KeysOk(s.rows) && LegacyKey(id) in s.rows && o.desired.Some? && Traced(s, o)
    ensures Traced(MigrateStep(s, id, createdAt), o)
  {
    var s' := MigrateStep(s, id, createdAt);
    forall k | k in s'.rows && k.id == RequestId(o.request) ensures VersionOk(s', o, s'.rows[k].article) {
      var k0 := if k == CurrentKey(id, createdAt) then LegacyKey(id) else k;
      assert k0 in s.rows && VersionOk(s, o, s.rows[k0].article);
      OldVersionOk(s, s', o, s.rows[k0].article);
    }
  }

  lemma SameTableTraced(s: Store, s': Store, o: Op)
    requires SameTable(s, s') && o.desired.Some? && Traced(s, o)
    ensures Traced(s', o)
  {
    hide VersionOk;
    forall k | k in s'.rows && k.id == RequestId(o.request) ensures VersionOk(s', o, s'.rows[k].article) {
      OldVersionOk(s, s', o, s.rows[k].article);
    }
  }

  /** Whatever step is taken, the versions stay traced. */
  lemma StepTraced(w: World, step: Step, o: Op)
    requires WorldOk(w) && Enabled(w, step)
    requires o.desired.Some? && Traced(w.store, o) && HasRow(w.store.rows, RequestId(o.request))
    ensures Traced(Next(w, step).store, o)
  {
    hide Traced;
    hide WorldOk;
    hide StoreOk;
    hide Committing;
    hide SameTable;
    if step.Commit? && step.applies {
      CommitStepCommits(w, step);
      CommitNext(w, step);
      CommitTraced(w.store, w.clients[step.client], o);
      SameTableTraced(Applied(w.store, w.clients[step.client]), Next(w, step).store, o);
    } else if step.Migrate? {
      WorldStore(w);
      StoreParts(w.store);
      MigrateTraced(w.store, step.id, step.createdAt, o);
    } else {
      StepSameTable(w, step);
      SameTableTraced(w.store, Next(w, step).store, o);
    }
  }

  // ----- The client -----

  /** The phases after a batch that may have taken effect. */
  predicate Late(p: Phase) {
    p.Refresh? || p.Reconcile? || p.ReconcileLegacy? || p.Verify? || p.DropOld? || p.Finished?
  }

  /** The condition under which the client may be about to be misled. */
  ghost predicate Misled(s: Store, c: Client)
    requires c.op.prior.Some? && c.op.desired.Some?
  {
    var stored, now := c.op.prior.value.article, c.op.desired.value.updatedAt;
    !MovesLegacy(c) && MayHide(c.op.request, stored, now) && (s.monotone ==> SameInstant(stored, now))
  }

  ghost predicate EarlyOk(c: Client) {
    && (GetPhase(c.phase) && c.phase.again ==> c.op.mode.Compat?)
    && (c.op.prior.Some? ==> Listed(c.op.prior.value, IdOf(c)) || MovesLegacy(c))
    && (c.op.request.Withdraw? && c.op.base.Some? ==> c.op.base.value.article.status == Published)
  }

  ghost predicate LateOk(s: Store, c: Client) {
    && c.op.prior.Some? && c.op.desired.Some? && Late(c.phase) && Traced(s, c.op)
    && (MovesLegacy(c) ==> LegacyKey(IdOf(c)) !in s.rows)
    && (c.phase.ReconcileLegacy? ==> MovesLegacy(c))
    && (c.phase.Verify? && c.phase.goal.IsPrior? ==> Misled(s, c))
    && (c.phase.Finished? && c.phase.outcome.Err? ==>
          c.phase.outcome.error == CommitUnknown || (c.phase.outcome.error == Storage && Misled(s, c)))
  }

  ghost predicate HideOk(s: Store, c: Client) {
    EarlyOk(c) && (c.op.applied && !Saves(c.op) ==> LateOk(s, c))
  }

  ghost predicate AllHideOk(w: World) {
    forall i | i in w.clients :: HideOk(w.store, w.clients[i])
  }

  // ----- Steps of others -----

  lemma OtherHides(w: World, step: Step, d: Client)
    requires WorldOk(w) && Enabled(w, step) && AppliedOk(w.store, d.op) && HideOk(w.store, d)
    requires Next(w, step).store.monotone ==> w.store.monotone
    ensures HideOk(Next(w, step).store, d)
  {
    hide WorldOk;
    hide Enabled;
    hide Next;
    hide Traced;
    hide MayHide;
    if d.op.applied && !Saves(d.op) {
      assert HasRow(w.store.rows, RequestId(d.op.request));
      hide AppliedOk;
      StepTraced(w, step, d.op);
      StepAddsNoLegacy(w, step);
    }
  }

  lemma StepMonotone(w: World, step: Step)
    requires WorldOk(w) && Enabled(w, step)
    ensures Next(w, step).store.monotone ==> w.store.monotone
  {
    hide WorldOk;
    if step.Commit? && step.applies {
      CommitNext(w, step);
      AppliedRetires(w.store, w.clients[step.client]);
      hide Next;
      hide Applied;
    } else if step.Migrate? {
    } else {
      StepSameTable(w, step);
      hide Next;
      hide Enabled;
    }
  }

  // ----- Steps of its own -----

  /** The operation goes on without reading a version. */
  predicate Onwards(c: Client, c': Client) {
    && c'.op.request == c.op.request && c'.op.mode == c.op.mode && c'.op.prior == c.op.prior && c'.op.base == c.op.base
    && (GetPhase(c'.phase) ==> !c'.phase.again || c.op.mode.Compat?)
  }

  lemma OnwardsEarly(c: Client, c': Client)
    requires EarlyOk(c) && Onwards(c, c')
    ensures EarlyOk(c')
  {
  }

  lemma ReadEarly(c: Client, answer: Answer, now: Time)
    requires EarlyOk(c) && c.phase.Read? && c.op.prior.None?
    ensures EarlyOk(AfterRead(c, answer, now)) && AfterRead(c, answer, now).op.applied == c.op.applied
  {
    hide ValidArticle;
    hide ValidTransition;
    hide PublishedFrom;
    hide WithdrawnFrom;
  }

  lemma RereadEarly(rows: map<Key, Row>, c: Client, answer: Answer)
    requires EarlyOk(c) && c.phase.Reread? && c.op.desired.Some? && KeysOk(rows)
    requires AnswerOk(rows, IdOf(c), c.phase.again, answer)
    ensures EarlyOk(AfterReread(c, answer)) && AfterReread(c, answer).op.applied == c.op.applied
  {
    hide Storable;
    hide PermanenceError;
    hide KeyFits;
  }

  lemma PutOnwards(c: Client, now: Time)
    requires c.op.ref.Some?
    ensures Onwards(c, AfterPut(c, now)) || AfterPut(c, now) == c
    ensures AfterPut(c, now).op.applied == c.op.applied
  {
    hide ValidArticle;
    hide Storable;
    hide Saved;
  }

  lemma GetEarly(s: Store, c: Client, answer: Answer, now: Time)
    requires KeysOk(s.rows) && EarlyOk(c) && GetPhase(c.phase) && PhaseOk(s, c) && (!c.phase.Read? ==> c.op.desired.Some?)
    requires AnswerOk(s.rows, IdOf(c), c.phase.again, answer)
    ensures EarlyOk(GetStep(c, s, answer, now)) && GetStep(c, s, answer, now).op.applied == c.op.applied
  {
    assert c.phase.Read? ==> c.op.prior.None?;
    hide PhaseOk;
    hide AnswerOk;
    hide KeysOk;
    hide EarlyOk;
    hide AfterRead;
    hide AfterReread;
    if !c.phase.again && c.op.mode.Compat? && answer.Absent? {
      OnwardsEarly(c, c.(phase := Again(c.phase)));
    } else if c.phase.Read? {
      ReadEarly(c, answer, now);
    } else if c.phase.Reread? {
      RereadEarly(s.rows, c, answer);
    } else {
      GetOnwards(s, c, answer, now);
      OnwardsEarly(c, GetStep(c, s, answer, now));
    }
  }

  lemma GetOnwards(s: Store, c: Client, answer: Answer, now: Time)
    requires GetPhase(c.phase) && !c.phase.Read? && !c.phase.Reread? && c.op.desired.Some?
    requires !(!c.phase.again && c.op.mode.Compat? && answer.Absent?)
    ensures Onwards(c, GetStep(c, s, answer, now)) && GetStep(c, s, answer, now).op.applied == c.op.applied
  {
    hide Holds;
    hide SlugMap;
    hide SlugSet;
    hide RecordFor;
  }

  lemma QuietEarly(w: World, step: Step)
    requires KeysOk(w.store.rows) && Enabled(w, step) && IsReadOnly(step)
    requires EarlyOk(w.clients[step.client]) && PhaseOk(w.store, w.clients[step.client])
    ensures EarlyOk(ReadOnly(w, step)) && ReadOnly(w, step).op.applied == w.clients[step.client].op.applied
  {
    hide KeysOk;
    hide PhaseOk;
    hide GetStep;
    hide AfterPut;
    hide EarlyOk;
    hide AnswerOk;
    hide SlugMap;
    var c := w.clients[step.client];
    if step.Get? {
      GetEarly(w.store, c, step.answer, step.now);
    } else {
      if step.CheckUpload? {
        PutOnwards(c, step.now);
      }
      if ReadOnly(w, step) != c {
        assert Onwards(c, ReadOnly(w, step));
        OnwardsEarly(c, ReadOnly(w, step));
      }
    }
  }

  /** The reconciliation read that finds the version the client replaced. */
  lemma SeesPrior(s: Store, c: Client, row: Row)
    requires LateOk(s, c) && OpOk(s, c.op) && c.op.applied && !Saves(c.op) && EarlyOk(c) && !MovesLegacy(c)
    requires row.key in s.rows && s.rows[row.key] == row && row.key.id == IdOf(c) && ValidArticle(row.article)
    requires row.article == c.op.prior.value.article != c.op.desired.value
    ensures Misled(s, c)
  {
    var a, d := row.article, c.op.desired.value;
    assert VersionOk(s, c.op, a);
    Dates(s, c, row);
    hide LateOk;
    hide OpOk;
    SeenKin(s.monotone, c, a);
    assert Kin(c.op, s.monotone, a);
    hide EarlyOk;
    hide DesiredOk;
    hide ValidArticle;
    hide Kin;
    hide MayHide;
    KinMisled(s.monotone, c.op, a);
  }

  lemma KinMisled(monotone: bool, o: Op, a: Article)
    requires o.desired.Some? && !Saves(o) && a != o.desired.value && Kin(o, monotone, a)
    requires monotone ==> o.desired.value.updatedAt == a.updatedAt
    requires o.request.Withdraw? ==> a.status == Published
    requires o.request.Publish? ==>
               && o.desired.value == PublishedFrom(a, o.desired.value.updatedAt)
               && o.desired.value.lastPublishedAt == Some(o.desired.value.updatedAt)
    requires a.lastPublishedAt.Some? ==> a.lastPublishedAt.value <= a.updatedAt
    ensures MayHide(o.request, a, o.desired.value.updatedAt)
    ensures monotone ==> SameInstant(a, o.desired.value.updatedAt)
  {
    hide Settled;
    hide PublishedFrom;
  }

  /** What the client wanted to store has the draft of the version it replaced. */
  lemma SeenKin(monotone: bool, c: Client, a: Article)
    requires EarlyOk(c) && c.op.desired.Some? && c.op.base.Some? && c.op.base.value.article == a && DesiredOk(c.op)
    requires !Saves(c.op) && ValidArticle(a)
    ensures a.draftBody == c.op.desired.value.draftBody
    ensures c.op.request.Withdraw? ==> a.status == Published
    ensures c.op.request.Publish? ==>
              c.op.desired.value == PublishedFrom(a, c.op.desired.value.updatedAt) &&
              c.op.desired.value.lastPublishedAt == Some(c.op.desired.value.updatedAt)
    ensures a.lastPublishedAt.Some? ==> a.lastPublishedAt.value <= a.updatedAt
  {
    assert ValidTimes(a);
    hide ValidArticle;
    hide NextMetadata;
  }

  lemma Dates(s: Store, c: Client, row: Row)
    requires OpOk(s, c.op) && c.op.applied && c.op.prior.Some? && c.op.desired.Some?
    requires row.key in s.rows && s.rows[row.key] == row && row.key.id == IdOf(c)
    requires row.article == c.op.prior.value.article
    ensures s.monotone ==> c.op.desired.value.updatedAt == row.article.updatedAt
    ensures c.op.prior == c.op.base && DesiredOk(c.op)
  {
    assert AppliedOk(s, c.op) && TimeOk(s, c.op) && PriorOk(c.op);
    hide OpOk;
    hide PermanenceError;
    hide Storable;
  }

  lemma LateReconcile(s: Store, c: Client, answer: Answer)
    requires LateOk(s, c) && OpOk(s, c.op) && c.op.applied && !Saves(c.op) && EarlyOk(c) && c.phase.Reconcile?
    requires answer.Saw? ==>
               && answer.row.key in s.rows && s.rows[answer.row.key] == answer.row
               && answer.row.key.id == IdOf(c) && ValidArticle(answer.row.article)
    ensures LateOk(s, AfterReconcile(c, s, answer))
  {
    hide OpOk;
    hide Traced;
    hide ValidArticle;
    hide MayHide;
    hide Holds;
    hide SlugMap;
    if answer.Saw? && !MovesLegacy(c) && answer.row.article == c.op.prior.value.article != c.op.desired.value {
      SeesPrior(s, c, answer.row);
    }
  }

  /** What a client without a fresh body does when it fails. */
  lemma FailsPlainly(s: Store, c: Client, e: Error)
    requires RefOk(s, c.op) && !Saves(c.op)
    ensures Fail(c, e) == c.(phase := Finished(Err(e)))
  {
  }

  /** A phase that says nothing about the replaced version. */
  predicate Neutral(p: Phase) {
    || p.Refresh? || p.Reconcile? || p.DropOld?
    || (p.Verify? && p.goal.IsDesired?)
    || (p.Finished? && (p.outcome.Err? ==> p.outcome.error == CommitUnknown))
  }

  lemma LateNeutral(s: Store, c: Client, c': Client)
    requires LateOk(s, c) && c'.op == c.op && Neutral(c'.phase)
    ensures LateOk(s, c')
  {
    hide Traced;
    hide MayHide;
  }

  lemma LateGet(s: Store, c: Client, answer: Answer, now: Time)
    requires LateOk(s, c) && OpOk(s, c.op) && c.op.applied && !Saves(c.op) && EarlyOk(c) && GetPhase(c.phase)
    requires KeysOk(s.rows) && RowsStorable(s.rows) && AnswerOk(s.rows, IdOf(c), c.phase.again, answer)
    ensures LateOk(s, GetStep(c, s, answer, now))
  {
    hide OpOk;
    LateRead(s, c);
    hide LateOk;
    hide EarlyOk;
    hide GetStep;
    hide KeysOk;
    hide RowsStorable;
    hide AnswerOk;
    hide ValidArticle;
    GetCases(s, c, answer, now);
    if GetStep(c, s, answer, now) == AfterReconcile(c, s, answer) && c.phase.Reconcile? {
      if answer.Saw? {
        AnswerIsValid(s, c, answer);
      }
      hide AfterReconcile;
      LateReconcile(s, c, answer);
    } else {
      LateNeutral(s, c, GetStep(c, s, answer, now));
    }
  }

  lemma AnswerIsValid(s: Store, c: Client, answer: Answer)
    requires KeysOk(s.rows) && RowsStorable(s.rows) && GetPhase(c.phase)
    requires AnswerOk(s.rows, IdOf(c), c.phase.again, answer) && answer.Saw?
    ensures answer.row.key in s.rows && s.rows[answer.row.key] == answer.row
    ensures answer.row.key.id == IdOf(c) && ValidArticle(answer.row.article)
  {
    AnswerIsRow(s.rows, IdOf(c), c.phase.again, answer);
    hide AnswerOk;
    hide KeysOk;
    hide ValidArticle;
  }

  /** What a late read comes to: the second read, the reconciliation, or nothing that concerns the replaced version. */
  lemma GetCases(s: Store, c: Client, answer: Answer, now: Time)
    requires (c.phase.Refresh? || c.phase.Reconcile?) && c.op.desired.Some?
    ensures var c' := GetStep(c, s, answer, now);
            (c.phase.Reconcile? && c' == AfterReconcile(c, s, answer)) || (c'.op == c.op && Neutral(c'.phase))
  {
    hide AfterReconcile;
    hide Holds;
    hide SlugMap;
    hide SlugSet;
  }

  lemma LateRead(s: Store, c: Client)
    requires LateOk(s, c) && GetPhase(c.phase)
    ensures c.op.desired.Some? && (c.phase.Refresh? || c.phase.Reconcile?)
  {
    hide Traced;
    hide MayHide;
  }

  lemma LateQuiet(w: World, step: Step)
    requires Enabled(w, step) && IsReadOnly(step)
    requires KeysOk(w.store.rows) && RowsStorable(w.store.rows)
    requires var s, c := w.store, w.clients[step.client];
             LateOk(s, c) && OpOk(s, c.op) && c.op.applied && !Saves(c.op) && EarlyOk(c)
    ensures LateOk(w.store, ReadOnly(w, step)) && ReadOnly(w, step).op == w.clients[step.client].op
  {
    var s, c := w.store, w.clients[step.client];
    hide OpOk;
    hide LateOk;
    hide EarlyOk;
    hide KeysOk;
    hide RowsStorable;
    hide AnswerOk;
    hide AfterPut;
    hide GetStep;
    hide AfterCheckLegacy;
    hide AfterVerifySlug;
    hide AfterVerified;
    hide AfterReadSlug;
    LatePhase(s, c);
    if step.Get? {
      LateGet(s, c, step.answer, step.now);
      LateGetOp(s, c, step.answer, step.now);
    } else {
      LateOther(w, step);
    }
  }

  lemma LateOther(w: World, step: Step)
    requires Enabled(w, step) && IsReadOnly(step) && !step.Get?
    requires var s, c := w.store, w.clients[step.client];
             LateOk(s, c) && OpOk(s, c.op) && !Saves(c.op) && Late(c.phase) && c.op.desired.Some?
    ensures LateOk(w.store, ReadOnly(w, step)) && ReadOnly(w, step).op == w.clients[step.client].op
  {
    var s, c := w.store, w.clients[step.client];
    LateCheck(s, c);
    hide OpOk;
    hide LateOk;
    hide AfterPut;
    hide AfterCheckLegacy;
    hide AfterVerifySlug;
    hide AfterVerified;
    hide AfterReadSlug;
    if step.CheckLegacy? {
      LateCheckLegacy(s, c, step.fails);
    } else if step.VerifySlug? {
      LateVerifySlug(s, c, step.slug, step.fails);
    } else {
      assert step.Verified?;
      LateVerified(s, c);
    }
  }

  lemma LatePhase(s: Store, c: Client)
    requires LateOk(s, c)
    ensures Late(c.phase) && c.op.desired.Some?
  {
    hide Traced;
    hide MayHide;
  }

  lemma LateCheck(s: Store, c: Client)
    requires OpOk(s, c.op)
    ensures RefOk(s, c.op)
  {
    hide BaseOk;
    hide RefOk;
    hide PriorOk;
    hide TimeOk;
    hide DesiredOk;
    hide AppliedOk;
  }

  lemma LateCheckLegacy(s: Store, c: Client, fails: bool)
    requires LateOk(s, c) && c.op.desired.Some? && c.phase.ReconcileLegacy?
    ensures LateOk(s, AfterCheckLegacy(c, s, fails)) && AfterCheckLegacy(c, s, fails).op == c.op
  {
    hide Traced;
    hide MayHide;
    hide SlugMap;
    LateNeutral(s, c, AfterCheckLegacy(c, s, fails));
  }

  lemma LateVerifySlug(s: Store, c: Client, x: Slug, fails: bool)
    requires LateOk(s, c) && c.op.desired.Some? && c.phase.Verify?
    ensures LateOk(s, AfterVerifySlug(c, s.slugs, x, fails)) && AfterVerifySlug(c, s.slugs, x, fails).op == c.op
  {
    hide Traced;
    hide MayHide;
  }

  lemma LateVerified(s: Store, c: Client)
    requires LateOk(s, c) && RefOk(s, c.op) && !Saves(c.op) && c.op.desired.Some? && c.phase.Verify?
    ensures LateOk(s, AfterVerified(c)) && AfterVerified(c).op == c.op
  {
    hide Traced;
    hide MayHide;
    FailsPlainly(s, c, Storage);
    hide RefOk;
  }

  lemma LateGetOp(s: Store, c: Client, answer: Answer, now: Time)
    requires GetPhase(c.phase) && Late(c.phase) && c.op.desired.Some?
    ensures GetStep(c, s, answer, now).op == c.op
  {
    hide Holds;
    hide SlugMap;
  }

  lemma LateSameTable(s: Store, s': Store, c: Client)
    requires SameTable(s, s') && LateOk(s, c)
    ensures LateOk(s', c)
  {
    hide Traced;
    hide MayHide;
    SameTableTraced(s, s', c.op);
  }

  /** The client's own batch takes effect. */
  lemma LateCommit(s: Store, c: Client, p: Phase)
    requires StoreOk(s) && Committing(s, c) && !Saves(c.op) && (p.Refresh? || p.Reconcile?)
    ensures c.op.desired.Some? && c.phase.Slugs?
    ensures LateOk(Applied(s, c), c.(op := c.op.(applied := true), phase := p))
  {
    StoreParts(s);
    hide StoreOk;
    hide LogOk;
    hide KeysOk;
    hide SlugsPresent;
    hide SlugIndexExact;
    hide RetiredOk;
    hide TimeOk;
    hide RequestOk;
    hide PriorOk;
    hide Storable;
    hide DesiredOk;
    hide Committing;
    hide Applied;
    CommittingShape(s, c);
    CommittingPrior(s, c);
    CommittingReplaces(s, c);
    OwnRow(s, c);
    OwnVersion(Applied(s, c), c);
    hide Replaces;
    hide VersionOk;
  }

  /** After its batch, the client's row is the only one of its article; a legacy row that it moved is gone. */
  lemma OwnRow(s: Store, c: Client)
    requires c.op.desired.Some? && c.phase.Slugs? && c.op.desired.value.id == IdOf(c)
    requires Replaces(s, Applied(s, c), Gone(c), NewRow(c, s.next))
    ensures var s' := Applied(s, c);
            && (MovesLegacy(c) ==> LegacyKey(IdOf(c)) !in s'.rows)
            && (forall k | k in s'.rows && k.id == IdOf(c) :: s'.rows[k].article == c.op.desired.value)
  {
    var s', row := Applied(s, c), NewRow(c, s.next);
    ReplacedRow(s, s', Gone(c), row);
    hide Applied;
    hide Replaces;
  }

  lemma OwnVersion(s: Store, c: Client)
    requires c.op.desired.Some? && c.op.base.Some? && !Saves(c.op) && DesiredOk(c.op)
    ensures VersionOk(s, c.op, c.op.desired.value)
    ensures VersionOk(s, c.op.(applied := true), c.op.desired.value)
  {
    if c.op.request.Publish? {
      PublishSettles(c.op.base.value.article, c.op.desired.value.updatedAt);
    }
    hide Settled;
    hide NextMetadata;
  }

  // ----- Every step -----

  lemma StartHides(w: World, step: Step)
    requires step.Start? && Enabled(w, step)
    ensures HideOk(Next(w, step).store, Next(w, step).clients[step.client])
  {
    hide ReadClock;
    hide LateOk;
    hide FreshId;
    hide ValidArticle;
  }

  lemma QuietHides(w: World, step: Step)
    requires WorldOk(w) && Enabled(w, step) && IsReadOnly(step) && step.client in w.clients && HideOk(w.store, w.clients[step.client])
    ensures HideOk(Next(w, step).store, Next(w, step).clients[step.client])
  {
    hide WorldOk;
    hide Enabled;
    hide KeysOk;
    hide SlugsPresent;
    hide SlugIndexExact;
    hide RetiredOk;
    hide LogOk;
    hide StoreOk;
    hide OpOk;
    hide PhaseOk;
    hide OwnOk;
    hide IdReserved;
    hide EarlyOk;
    hide LateOk;
    hide ReadOnly;
    hide SameTable;
    WorldClient(w, step.client);
    StoreParts(w.store);
    StoreStorable(w.store);
    QuietEarly(w, step);
    NextReadOnly(w, step);
    var c := w.clients[step.client];
    if c.op.applied && !Saves(c.op) {
      LateQuiet(w, step);
      ReadOnlySameTable(w, step);
      hide Next;
      LateSameTable(w.store, Next(w, step).store, ReadOnly(w, step));
    } else {
      SavesStay(w, step);
    }
  }

  /** A step of its own leaves the client's request alone. */
  lemma SavesStay(w: World, step: Step)
    requires WorldOk(w) && Enabled(w, step) && IsReadOnly(step) && step.client in w.clients
    ensures Saves(ReadOnly(w, step).op) <==> Saves(w.clients[step.client].op)
  {
    hide WorldOk;
    hide OpOk;
    hide OwnOk;
    hide IdReserved;
    hide StoreOk;
    hide Enabled;
    WorldClient(w, step.client);
    assert PhaseOk(w.store, w.clients[step.client]);
    hide PhaseOk;
    hide ReadOnly;
    QuietCarries(w, step);
  }

  lemma UploadHides(w: World, step: Step)
    requires Enabled(w, step) && step.Upload? && EarlyOk(w.clients[step.client])
    requires Undecided(w.clients[step.client])
    ensures HideOk(Next(w, step).store, Next(w, step).clients[step.client])
  {
    var c := w.clients[step.client];
    var c1 := c.(op := c.op.(ref := Some(step.newRef)));
    PutOnwards(c1, step.now);
    hide AfterPut;
    UploadResult(w, step);
    hide Next;
    hide Enabled;
    hide LateOk;
  }

  lemma CommitHides(w: World, step: Step)
    requires WorldOk(w) && Enabled(w, step) && step.Commit? && EarlyOk(w.clients[step.client])
    ensures HideOk(Next(w, step).store, Next(w, step).clients[step.client])
  {
    hide WorldOk;
    hide StoreOk;
    hide OpOk;
    hide OwnOk;
    hide IdReserved;
    hide SlugsPhaseOk;
    hide SlugsPresent;
    hide SlugIndexExact;
    hide KeysOk;
    hide LogOk;
    hide RetiredOk;
    hide BatchFits;
    hide SameTable;
    hide LateOk;
    var s, c := w.store, w.clients[step.client];
    WorldClient(w, step.client);
    SlugsClient(s, c);
    CommitEarly(w, step);
    CommitNext(w, step);
    if step.applies && !Saves(c.op) {
      CommitStepCommits(w, step);
      hide Committing;
      var p := AfterCommit(c, step.reply).phase;
      LateCommit(s, c, p);
      LateSameTable(Applied(s, c), Next(w, step).store, c.(op := c.op.(applied := true), phase := p));
    }
    hide Applied;
  }

  lemma CommitEarly(w: World, step: Step)
    requires Enabled(w, step) && step.Commit? && EarlyOk(w.clients[step.client])
    ensures EarlyOk(Next(w, step).clients[step.client])
    ensures var c := w.clients[step.client];
            Next(w, step).clients[step.client] ==
            AfterCommit(c.(op := c.op.(applied := step.applies)), step.reply)
  {
    hide Applied;
    hide BatchFits;
  }

  lemma DeleteHides(w: World, step: Step)
    requires Enabled(w, step) && step.DeleteBody? && HideOk(w.store, w.clients[step.client])
    requires RefOk(w.store, w.clients[step.client].op)
    ensures HideOk(Next(w, step).store, Next(w, step).clients[step.client])
  {
    var c := w.clients[step.client];
    hide MayHide;
    if c.op.applied && !Saves(c.op) {
      assert c.phase.DropOld?;
      OtherSameTable(w, step);
      var c' := Next(w, step).clients[step.client];
      LateNeutral(w.store, c, c');
      hide LateOk;
      LateSameTable(w.store, Next(w, step).store, c');
    }
  }

  /** Whatever step is taken and by whom. */
  lemma StepHides(w: World, step: Step)
    requires WorldOk(w) && Enabled(w, step) && AllHideOk(w)
    ensures AllHideOk(Next(w, step))
  {
    forall i | i in Next(w, step).clients ensures HideOk(Next(w, step).store, Next(w, step).clients[i]) {
      ClientHides(w, step, i);
    }
  }

  lemma ClientHides(w: World, step: Step, i: nat)
    requires WorldOk(w) && Enabled(w, step) && AllHideOk(w) && i in Next(w, step).clients
    ensures HideOk(Next(w, step).store, Next(w, step).clients[i])
  {
    hide WorldOk;
    hide Enabled;
    hide Next;
    hide EarlyOk;
    hide LateOk;
    hide StoreOk;
    hide OwnOk;
    hide IdReserved;
    hide PhaseOk;
    if !Takes(step, i) {
      OthersUntouched(w, step, i);
      WorldClient(w, i);
      StepMonotone(w, step);
      OpFacts(w.store, w.clients[i].op);
      hide OpOk;
      OtherHides(w, step, w.clients[i]);
    } else if i !in w.clients {
      StartsFresh(w, step, i);
      StartHides(w, step);
    } else {
      WorldClient(w, i);
      OpFacts(w.store, w.clients[i].op);
      hide OpOk;
      OwnHides(w, step);
    }
  }

  lemma OpFacts(s: Store, o: Op)
    requires OpOk(s, o)
    ensures AppliedOk(s, o) && RefOk(s, o)
  {
    hide BaseOk;
    hide RefOk;
    hide PriorOk;
    hide TimeOk;
    hide DesiredOk;
    hide AppliedOk;
  }

  lemma OwnHides(w: World, step: Step)
    requires WorldOk(w) && Enabled(w, step) && !step.Migrate? && step.client in w.clients
    requires HideOk(w.store, w.clients[step.client]) && ClientOk(w.store, w.clients[step.client])
    requires RefOk(w.store, w.clients[step.client].op)
    ensures HideOk(Next(w, step).store, Next(w, step).clients[step.client])
  {
    hide WorldOk;
    hide Next;
    hide EarlyOk;
    hide LateOk;
    hide OpOk;
    var c := w.clients[step.client];
    if IsReadOnly(step) {
      QuietHides(w, step);
    } else if step.Upload? {
      assert Undecided(c);
      UploadHides(w, step);
    } else if step.Commit? {
      CommitHides(w, step);
    } else {
      assert step.DeleteBody?;
      DeleteHides(w, step);
    }
  }

  lemma {:induction false} RunHides(w: World, steps: seq<Step>)
    requires WorldOk(w) && AllHideOk(w) && Possible(w, steps)
    ensures AllHideOk(Run(w, steps))
    decreases |steps|
  {
    hide WorldOk;
    hide AllHideOk;
    hide Enabled;
    hide Next;
    if steps != [] {
      StepKept(w, steps[0]);
      StepHides(w, steps[0]);
      RunHides(Next(w, steps[0]), steps[1..]);
    }
  }

  // ----- What a definite failure means -----

  /** The client was told of a failure although its batch took effect. */
  ghost predicate WronglyFails(w: World, steps: seq<Step>, i: nat, e: Error)
    requires Possible(w, steps)
  {
    e != CommitUnknown && Answered(w, steps, i, Err(e)) && Committed(steps, i)
  }

  /**
    A definite failure is wrong only as an unspecified driver error, answered to
    a Publish or Withdraw of a version that others could restore; and on clocks
    that never went back, only if that version was published and updated at the
    very time of the call. No assumption is made on the clocks otherwise.
   */
  lemma WrongFailureIsRestored(w: World, steps: seq<Step>, i: nat, e: Error)
    requires Init(w) && Possible(w, steps) && WronglyFails(w, steps, i, e)
    ensures var c := Run(w, steps).clients[i];
            && e == Storage && c.op.prior.Some? && c.op.desired.Some?
            && Listed(c.op.prior.value, IdOf(c))
            && MayHide(c.op.request, c.op.prior.value.article, c.op.desired.value.updatedAt)
            && (Run(w, steps).store.monotone ==>
                  SameInstant(c.op.prior.value.article, c.op.desired.value.updatedAt))
  {
    hide WorldOk;
    hide StoreOk;
    hide Possible;
    hide Run;
    hide MayHide;
    hide Traced;
    RunInvariant(w, steps);
    assert WorldOk(w) && AllHideOk(w) by { InitHides(w); }
    RunHides(w, steps);
    AppliedMeansCommitted(w, steps, i);
    AnswerKept(Run(w, steps), i);
    assert HideOk(Run(w, steps).store, Run(w, steps).clients[i]);
  }

  lemma InitHides(w: World)
    requires Init(w)
    ensures WorldOk(w) && AllHideOk(w)
  {
    hide StoreOk;
  }

  /** Any error but Storage and ErrCommitUnknown is right, whatever the clocks. */
  lemma NamedErrorHadNoEffect(w: World, steps: seq<Step>, i: nat, e: Error)
    requires Init(w) && Possible(w, steps) && Answered(w, steps, i, Err(e)) && e != CommitUnknown && e != Storage
    ensures !Committed(steps, i)
  {
    if Committed(steps, i) {
      WrongFailureIsRestored(w, steps, i, e);
    }
  }
}
