/** Every step of ArticleProtocol keeps the invariant of ArticleInvariant. */
module ArticleSteps {
  import opened Outcomes
  import opened ArticleModel
  import opened ArticleTable
  import opened ArticleProtocol
  import opened ArticleInvariant

  // ----- Steps that only read -----

  /** c' is a legitimate successor of c when the stored data does not change. */
  ghost predicate Moved(s: Store, c: Client, c': Client) {
    && c'.op.request == c.op.request && c'.op.ref == c.op.ref && c'.op.applied == c.op.applied
    && OpOk(s, c'.op) && PhaseOk(Abandon(s, c'), c')
    && (Owns(c') ==> Owns(c) && (c.phase.PutCheck? && !c'.phase.PutCheck? ==> c.op.ref.value.blobName in s.blobs))
    && (c'.phase.Discard? ==> Owns(c))
  }

  /** Nothing but the clock and the list of given-up bodies changes. */
  ghost predicate SameData(s: Store, s': Store) {
    && s'.rows == s.rows && s'.log == s.log && s'.issued == s.issued && s'.next == s.next
    && s'.retired == s.retired && s.dropped <= s'.dropped && s.clock <= s'.clock
    && (s'.monotone ==> s.monotone)
  }

  lemma SameRowsDates(rows: map<Key, Row>)
    requires KeysOk(rows)
    ensures DatesKept(rows, rows)
  {
  }

  lemma SameDataEvolves(s: Store, s': Store)
    requires KeysOk(s.rows) && SameData(s, s')
    ensures Evolves(s, s')
  {
    SameRowsDates(s.rows);
    assert forall k | k in s.rows :: HasRow(s.rows, k.id);
  }

  lemma FailMoved(s: Store, c: Client, e: Error)
    requires OpOk(s, c.op) && NoEffect(c.op) && e != CommitUnknown
    requires !c.phase.Finished? && !c.phase.Discard?
    ensures Moved(s, c, Fail(c, e))
  {
    assert c.op.ref.Some? ==> Saves(c.op);
  }

  lemma UnknownMoved(s: Store, c: Client)
    requires OpOk(s, c.op)
    ensures Moved(s, c, Unknown(c))
  {
    hide OpOk;
  }

  /** The draft body that a successful save replaced, if not published, is given up. */
  lemma ReplacedBodyDropped(s: Store, o: Op)
    requires AppliedOk(s, o) && PriorOk(o) && o.applied && o.request.SaveDraft? && o.base.Some?
    requires o.base.value.article.draftBody.Some?
    requires o.base.value.article.draftBody != o.base.value.article.publishedBody
    ensures o.base.value.article.draftBody.value.blobName in s.dropped
  {
  }

  lemma SucceedMoved(s: Store, c: Client)
    requires OpOk(s, c.op) && Effect(c) && c.op.desired.Some? && c.phase.Verify?
    ensures Moved(s, c, Succeed(c))
  {
    if Succeed(c).phase.DropOld? {
      ReplacedBodyDropped(s, c.op);
    }
    assert c.op.request.SaveDraft? ==> c.op.applied;
    hide OpOk;
  }

  /** Moving to a phase that claims nothing beyond what is known. */
  lemma PhaseMoved(s: Store, c: Client, c': Client)
    requires OpOk(s, c.op) && c'.op == c.op && PhaseOk(s, c')
    requires !c'.phase.Discard? && !c.phase.Finished? && !c.phase.Discard?
    requires c.phase.PutCheck? <==> c'.phase.PutCheck?
    ensures Moved(s, c, c')
  {
    hide OpOk;
  }

  lemma VerifyDesiredMoved(s: Store, c: Client, row: Row)
    requires SlugsPresent(s.rows, s.slugs) && OpOk(s, c.op) && c.op.desired.Some?
    requires row.key in s.rows && s.rows[row.key] == row && row.article == c.op.desired.value
    requires c.phase.Refresh? || c.phase.Reconcile?
    requires Saves(c.op) ==> c.op.applied
    ensures Moved(s, c, VerifyDesired(c, s))
  {
    hide OpOk;
    HoldsNow(s, row);
  }

  /** The slug index being exact, an article in the table has all its slug records. */
  lemma HoldsNow(s: Store, row: Row)
    requires SlugsPresent(s.rows, s.slugs)
    requires row.key in s.rows && s.rows[row.key] == row
    ensures Holds(s, row.article)
  {
  }

  // ----- Reads, phase by phase -----

  /** A row just read is a sound base for the operation. */
  lemma JustRead(s: Store, o: Op, row: Row)
    requires LogOk(s) && KeysOk(s.rows)
    requires row.key in s.rows && s.rows[row.key] == row && row.article.id == RequestId(o.request)
    ensures BaseOk(s, o.(base := Some(row)))
  {
  }

  /** Setting base and desired of an early operation. */
  lemma OpWithBase(s: Store, o: Op, row: Row, desired: Option<Article>)
    requires OpOk(s, o) && Early(o) && !o.request.CreateDraft?
    requires BaseOk(s, o.(base := Some(row)))
    requires DesiredOk(o.(base := Some(row), desired := desired))
    requires TimeOk(s, o.(base := Some(row), desired := desired))
    ensures OpOk(s, o.(base := Some(row), desired := desired))
  {
  }

  lemma OpWithBaseOnly(s: Store, o: Op, row: Row)
    requires OpOk(s, o) && Early(o) && !o.request.CreateDraft?
    requires BaseOk(s, o.(base := Some(row)))
    ensures OpOk(s, o.(base := Some(row)))
  {
    assert o.(base := Some(row), desired := None) == o.(base := Some(row));
    OpWithBase(s, o, row, None);
  }

  lemma BeginUpdateMoved(s: Store, c: Client, row: Row, desired: Article)
    requires OpOk(s, c.op) && Early(c.op) && !c.op.request.CreateDraft?
    requires c.phase.Read? || c.phase.Putting? || c.phase.PutCheck?
    requires c.phase.PutCheck? ==> c.op.ref.Some? && c.op.ref.value.blobName in s.blobs
    requires BaseOk(s, c.op.(base := Some(row)))
    requires DesiredOk(c.op.(base := Some(row), desired := Some(desired)))
    requires TimeOk(s, c.op.(base := Some(row), desired := Some(desired)))
    ensures Moved(s, c, BeginUpdate(c.(op := c.op.(base := Some(row))), desired))
  {
    hide ValidArticle;
    hide DesiredOk;
    hide TimeOk;
    hide BaseOk;
    hide AppliedOk;
    var c1 := c.(op := c.op.(base := Some(row)));
    OpWithBase(s, c.op, row, Some(desired));
    OpWithBaseOnly(s, c.op, row);
    assert c1.op.ref.Some? ==> Saves(c1.op);
    hide OpOk;
  }

  lemma AfterReadSaveMoved(s: Store, c: Client, row: Row, now: Time)
    requires OpOk(s, c.op) && PhaseOk(s, c) && c.phase.Read? && c.op.request.SaveDraft?
    requires BaseOk(s, c.op.(base := Some(row)))
    ensures Moved(s, c, AfterRead(c, Saw(row), now))
  {
    assert RequestOk(c.op);
    OpWithBaseOnly(s, c.op, row);
    hide OpOk;
    hide BaseOk;
    hide DesiredOk;
    hide TimeOk;
  }

  lemma AfterReadPublishMoved(s: Store, c: Client, row: Row, now: Time)
    requires OpOk(s, c.op) && PhaseOk(s, c) && c.phase.Read? && c.op.request.Publish?
    requires BaseOk(s, c.op.(base := Some(row))) && row.article.updatedAt <= s.clock
    requires now <= s.clock && (s.monotone ==> now == s.clock)
    ensures Moved(s, c, AfterRead(c, Saw(row), now))
  {
    hide OpOk;
    hide BaseOk;
    hide DesiredOk;
    hide TimeOk;
    hide PublishedFrom;
    var stored := row.article;
    if ValidTransition(stored.status, Published) && stored.draftBody.Some? &&
       !(stored.published.Some? && stored.slug in stored.published.value.historical) {
      PublishDesired(s, c.op, row, now);
      BeginUpdateMoved(s, c, row, PublishedFrom(stored, now));
    }
  }

  lemma AfterReadWithdrawMoved(s: Store, c: Client, row: Row, now: Time)
    requires OpOk(s, c.op) && PhaseOk(s, c) && c.phase.Read? && c.op.request.Withdraw?
    requires BaseOk(s, c.op.(base := Some(row))) && row.article.updatedAt <= s.clock
    requires now <= s.clock && (s.monotone ==> now == s.clock)
    ensures Moved(s, c, AfterRead(c, Saw(row), now))
  {
    hide OpOk;
    hide BaseOk;
    hide DesiredOk;
    hide TimeOk;
    hide WithdrawnFrom;
    if row.article.status == Published {
      WithdrawDesired(s, c.op, row, now);
      BeginUpdateMoved(s, c, row, WithdrawnFrom(row.article, now));
    }
  }

  lemma PublishDesired(s: Store, o: Op, row: Row, now: Time)
    requires OpOk(s, o) && o.request.Publish? && row.article.draftBody.Some? && row.article.updatedAt <= s.clock
    requires now <= s.clock && (s.monotone ==> now == s.clock)
    ensures DesiredOk(o.(base := Some(row), desired := Some(PublishedFrom(row.article, now))))
    ensures TimeOk(s, o.(base := Some(row), desired := Some(PublishedFrom(row.article, now))))
  {
  }

  lemma WithdrawDesired(s: Store, o: Op, row: Row, now: Time)
    requires OpOk(s, o) && o.request.Withdraw? && row.article.updatedAt <= s.clock
    requires now <= s.clock && (s.monotone ==> now == s.clock)
    ensures DesiredOk(o.(base := Some(row), desired := Some(WithdrawnFrom(row.article, now))))
    ensures TimeOk(s, o.(base := Some(row), desired := Some(WithdrawnFrom(row.article, now))))
  {
  }

  lemma AfterReadMoved(s: Store, c: Client, answer: Answer, now: Time)
    requires LogOk(s) && KeysOk(s.rows) && OpOk(s, c.op) && PhaseOk(s, c) && c.phase.Read?
    requires answer.Saw? ==> answer.row.key in s.rows && s.rows[answer.row.key] == answer.row
    requires answer.Saw? ==> answer.row.article.id == IdOf(c)
    requires now <= s.clock && (s.monotone ==> now == s.clock)
    ensures Moved(s, c, AfterRead(c, answer, now))
  {
    if answer.Saw? {
      JustRead(s, c.op, answer.row);
      match c.op.request
      case SaveDraft(_, _) => AfterReadSaveMoved(s, c, answer.row, now);
      case Publish(_) => AfterReadPublishMoved(s, c, answer.row, now);
      case Withdraw(_) => AfterReadWithdrawMoved(s, c, answer.row, now);
    } else {
      FailMoved(s, c, if answer.Absent? then NotFound else Storage);
    }
  }

  lemma AfterPutMoved(s: Store, c: Client, now: Time)
    requires OpOk(s, c.op) && c.op.ref.Some? && c.op.ref.value.blobName in s.blobs
    requires Early(c.op) && ReadyToPut(c.op) && (c.phase.Putting? || c.phase.PutCheck?)
    requires now <= s.clock && (s.monotone ==> now == s.clock)
    requires c.op.base.Some? ==> c.op.base.value.article.updatedAt <= s.clock
    ensures Moved(s, c, AfterPut(c, now))
  {
    if c.op.request.CreateDraft? {
      AfterPutCreateMoved(s, c, now);
    } else {
      AfterPutSaveMoved(s, c, now);
    }
  }

  lemma AfterPutCreateMoved(s: Store, c: Client, now: Time)
    requires OpOk(s, c.op) && c.op.ref.Some? && c.op.ref.value.blobName in s.blobs
    requires Early(c.op) && c.op.request.CreateDraft? && (c.phase.Putting? || c.phase.PutCheck?)
    ensures Moved(s, c, AfterPut(c, now))
  {
    hide Storable;
    var desired := c.op.request.article.(draftBody := c.op.ref);
    assert OpOk(s, c.op.(desired := Some(desired)));
    hide OpOk;
  }

  lemma AfterPutSaveMoved(s: Store, c: Client, now: Time)
    requires OpOk(s, c.op) && c.op.ref.Some? && c.op.ref.value.blobName in s.blobs
    requires Early(c.op) && c.op.request.SaveDraft? && ReadyToPut(c.op) && (c.phase.Putting? || c.phase.PutCheck?)
    requires now <= s.clock && (s.monotone ==> now == s.clock)
    requires c.op.base.value.article.updatedAt <= s.clock
    ensures Moved(s, c, AfterPut(c, now))
  {
    var row := c.op.base.value;
    var desired := Saved(row.article, c.op.request.input.value, c.op.ref.value, now);
    SaveDesired(s, c.op, now);
    assert c.op.(base := Some(row)) == c.op;
    assert c.(op := c.op.(base := Some(row))) == c;
    assert c.op.(base := Some(row), desired := Some(desired)) == c.op.(desired := Some(desired));
    hide DesiredOk;
    hide TimeOk;
    hide ValidArticle;
    hide Saved;
    BeginUpdateMoved(s, c, row, desired);
  }

  lemma SaveDesired(s: Store, o: Op, now: Time)
    requires OpOk(s, o) && o.request.SaveDraft? && o.ref.Some? && ReadyToPut(o) && o.desired.None?
    requires now <= s.clock && (s.monotone ==> now == s.clock)
    requires o.base.value.article.updatedAt <= s.clock
    ensures var desired := Saved(o.base.value.article, o.request.input.value, o.ref.value, now);
            DesiredOk(o.(desired := Some(desired))) && TimeOk(s, o.(desired := Some(desired)))
  {
  }

  lemma AfterProbeMoved(s: Store, c: Client, answer: Answer)
    requires OpOk(s, c.op) && PhaseOk(s, c) && c.phase.Probe?
    ensures Moved(s, c, AfterProbe(c, answer))
  {
    hide Storable;
    if answer.Absent? {
      var c' := AfterProbe(c, answer);
      assert SlugsPhaseOk(s, c');
      PhaseMoved(s, c, c');
    } else {
      FailMoved(s, c, if answer.Saw? then Conflict else Storage);
    }
  }

  /** The row with the expected ETag is the one the service read: ETags are not reused. */
  lemma SameVersion(s: Store, o: Op, row: Row)
    requires LogOk(s) && OpOk(s, o) && o.base.Some?
    requires row.key in s.rows && s.rows[row.key] == row && row.key.id == RequestId(o.request)
    requires row.etag == o.expected
    ensures o.base == Some(row)
  {
    assert BaseOk(s, o);
    assert Since(s, o.born, o.base.value);
    assert s.rows[row.key].etag == o.base.value.etag;
    assert InLog(s, o.base.value);
  }

  lemma OpWithPrior(s: Store, o: Op, row: Row)
    requires OpOk(s, o) && !o.request.CreateDraft? && !o.applied && o.desired.Some?
    requires o.base == Some(row) && row.etag == o.expected
    requires PermanenceError(row.article, o.desired.value).None?
    requires Storable(o.desired.value) && KeyFits(row.key, o.desired.value)
    ensures OpOk(s, o.(prior := Some(row)))
  {
    hide Storable;
    hide PermanenceError;
    hide KeyFits;
  }

  lemma AfterRereadMoved(s: Store, c: Client, answer: Answer)
    requires LogOk(s) && KeysOk(s.rows) && OpOk(s, c.op) && PhaseOk(s, c) && c.phase.Reread?
    requires answer.Saw? ==> answer.row.key in s.rows && s.rows[answer.row.key] == answer.row
    requires answer.Saw? ==> answer.row.article.id == IdOf(c)
    ensures Moved(s, c, AfterReread(c, answer))
  {
    hide Storable;
    hide PermanenceError;
    var c' := AfterReread(c, answer);
    if c'.phase.Slugs? {
      assert c.op.base.Some? by { assert DesiredOk(c.op); }
      SameVersion(s, c.op, answer.row);
      OpWithPrior(s, c.op, answer.row);
      StartPlan(s, c');
      hide OpOk;
    } else {
      assert c'.phase.Discard? || c'.phase.Finished?;
      RereadFails(s, c, answer);
    }
  }

  lemma StartPlan(s: Store, c: Client)
    requires c.op.desired.Some? && c.op.prior.Some? && !c.op.applied && !c.op.request.CreateDraft?
    requires c.phase == Slugs(SlugSet(c.op.desired.value),
                              SlugSet(c.op.prior.value.article) - SlugSet(c.op.desired.value), map[])
    ensures SlugsPhaseOk(s, c)
  {
    hide Storable;
  }

  lemma RereadFails(s: Store, c: Client, answer: Answer)
    requires OpOk(s, c.op) && PhaseOk(s, c) && c.phase.Reread?
    requires !AfterReread(c, answer).phase.Slugs?
    ensures Moved(s, c, AfterReread(c, answer))
  {
    hide Storable;
    var e := if answer.Absent? then NotFound else if answer.ReadFailed? then Storage
             else if answer.row.etag != c.op.expected then Conflict
             else if PermanenceError(answer.row.article, c.op.desired.value).Some?
             then PermanenceError(answer.row.article, c.op.desired.value).value else Validation;
    FailMoved(s, c, e);
    hide OpOk;
    hide PermanenceError;
  }

  /** The plan stays sound when one more slug of the desired state has been read. */
  lemma KeepRead(s: Store, prior: Row, desired: Article, keep: set<Slug>, drop: set<Slug>,
                 plan: map<Slug, SlugAction>, x: Slug)
    requires KeysOk(s.rows) && SlugIndexExact(s.rows, s.slugs)
    requires prior.key in s.rows && s.rows[prior.key] == prior && prior.article.id == desired.id
    requires PlanSound(prior.article, desired, keep, drop, plan)
    requires x in keep && Reserves(desired, x)
    ensures x !in s.slugs ==> PlanSound(prior.article, desired, keep - {x}, drop, plan[x := AddSlug(RecordFor(desired, x))])
    ensures x in s.slugs && s.slugs[x].record.articleId == desired.id ==>
              Reserves(prior.article, x) && s.slugs[x].record == RecordFor(prior.article, x)
  {
    if x in s.slugs && s.slugs[x].record.articleId == desired.id {
      OwnSlugRow(s, prior, x);
    }
    if x !in s.slugs {
      FreeSlugUnreserved(s, prior, x);
    }
    hide KeysOk;
    hide SlugIndexExact;
  }

  lemma OwnSlugRow(s: Store, prior: Row, x: Slug)
    requires KeysOk(s.rows) && SlugIndexExact(s.rows, s.slugs) && prior.key in s.rows && s.rows[prior.key] == prior
    requires x in s.slugs && s.slugs[x].record.articleId == prior.article.id
    ensures Reserves(prior.article, x) && s.slugs[x].record == RecordFor(prior.article, x)
  {
    assert SomeoneReserves(s.rows, x);
    var k :| k in s.rows && Reserves(s.rows[k].article, x);
    assert s.slugs[x].record == RecordFor(s.rows[k].article, x);
    assert k == prior.key;
  }

  lemma FreeSlugUnreserved(s: Store, prior: Row, x: Slug)
    requires SlugIndexExact(s.rows, s.slugs) && prior.key in s.rows && s.rows[prior.key] == prior && x !in s.slugs
    ensures !Reserves(prior.article, x)
  {
  }

  lemma KeepReadSound(prior: Article, desired: Article, keep: set<Slug>, drop: set<Slug>,
                      plan: map<Slug, SlugAction>, x: Slug, etag: ETag)
    requires PlanSound(prior, desired, keep, drop, plan)
    requires x in keep && Reserves(desired, x) && Reserves(prior, x)
    ensures RecordFor(prior, x) != RecordFor(desired, x) ==>
              PlanSound(prior, desired, keep - {x}, drop, plan[x := ReplaceSlug(RecordFor(desired, x), etag)])
    ensures RecordFor(prior, x) == RecordFor(desired, x) ==> PlanSound(prior, desired, keep - {x}, drop, plan)
  {
  }

  lemma DropReadSound(prior: Article, desired: Article, keep: set<Slug>, drop: set<Slug>,
                      plan: map<Slug, SlugAction>, x: Slug, etag: ETag)
    requires PlanSound(prior, desired, keep, drop, plan)
    requires x in drop && Reserves(prior, x) && !Reserves(desired, x)
    ensures PlanSound(prior, desired, keep, drop - {x}, plan[x := DeleteSlug(etag)])
  {
  }

  lemma UnchangedPrior(s: Store, o: Op)
    requires LogOk(s) && OpOk(s, o) && o.prior.Some? && Unchanged(s, o.prior.value)
    ensures o.desired.Some?
    ensures s.rows[o.prior.value.key] == o.prior.value
    ensures o.prior.value.article.id == o.desired.value.id == RequestId(o.request) == o.prior.value.key.id
  {
    hide Storable;
    hide PermanenceError;
    assert PriorOk(o) && BaseOk(s, o) && DesiredOk(o);
    assert InLog(s, o.prior.value);
  }

  lemma SlugReadPlan(s: Store, c: Client, x: Slug)
    requires KeysOk(s.rows) && SlugIndexExact(s.rows, s.slugs) && LogOk(s)
    requires OpOk(s, c.op) && c.phase.Slugs? && SlugsPhaseOk(s, c)
    requires x in c.phase.keep || x in c.phase.drop
    requires AfterReadSlug(c, s.slugs, x, false).phase.Slugs?
    ensures SlugsPhaseOk(s, AfterReadSlug(c, s.slugs, x, false))
  {
    hide Storable;
    hide PlanSound;
    hide OpOk;
    hide LogOk;
    hide SlugIndexExact;
    hide KeysOk;
    var prior := c.op.prior.value;
    var a := c.op.desired.value;
    var Slugs(keep, drop, plan) := c.phase;
    if Unchanged(s, prior) {
      UnchangedPrior(s, c.op);
      if x in keep {
        KeepRead(s, prior, a, keep, drop, plan, x);
        if x in s.slugs {
          KeepReadSound(prior.article, a, keep, drop, plan, x, s.slugs[x].etag);
        }
      } else {
        DropReadSound(prior.article, a, keep, drop, plan, x, s.slugs[x].etag);
      }
    }
  }

  lemma AfterReadSlugMoved(s: Store, c: Client, x: Slug, fails: bool)
    requires KeysOk(s.rows) && SlugIndexExact(s.rows, s.slugs) && LogOk(s)
    requires OpOk(s, c.op) && c.phase.Slugs? && c.op.desired.Some? && !c.op.applied && SlugsPhaseOk(s, c)
    requires x in c.phase.keep || x in c.phase.drop
    ensures Moved(s, c, AfterReadSlug(c, s.slugs, x, fails))
  {
    hide KeysOk;
    hide SlugIndexExact;
    hide LogOk;
    hide OpOk;
    hide SlugsPhaseOk;
    var c' := AfterReadSlug(c, s.slugs, x, fails);
    if c'.phase.Slugs? {
      SlugReadPlan(s, c, x);
    } else {
      SlugReadFails(s, c, x, fails);
    }
  }

  lemma SlugReadFails(s: Store, c: Client, x: Slug, fails: bool)
    requires OpOk(s, c.op) && c.phase.Slugs? && c.op.desired.Some? && !c.op.applied
    requires x in c.phase.keep || x in c.phase.drop
    requires !AfterReadSlug(c, s.slugs, x, fails).phase.Slugs?
    ensures Moved(s, c, AfterReadSlug(c, s.slugs, x, fails))
  {
    hide OpOk;
    FailMoved(s, c, Storage);
    FailMoved(s, c, SlugTaken);
    FailMoved(s, c, NotFound);
  }

  // ----- Reconciliation -----

  /** The fresh body reference, or the fresh ID, tells that the observed article is this call's own. */
  lemma SeenMeansApplied(s: Store, c: Client, row: Row)
    requires OpOk(s, c.op) && OwnOk(s, c) && IdReserved(s, c)
    requires c.phase.Reconcile? && c.op.desired.Some?
    requires row.key in s.rows && s.rows[row.key] == row && row.key.id == IdOf(c)
    requires row.article == c.op.desired.value
    ensures Saves(c.op) ==> c.op.applied
  {
    hide BaseOk;
    hide PriorOk;
    hide TimeOk;
    assert c.op.request.SaveDraft? ==> DesiredOk(c.op) && Refers(row.article, c.op.ref.value.blobName);
  }

  /** Seeing the prior version again means that a save had no effect: a replaced draft reference never comes back. */
  lemma PriorMeansNoEffect(s: Store, o: Op, row: Row)
    requires RetiredOk(s) && OpOk(s, o) && o.prior.Some? && o.desired.Some? && !o.request.CreateDraft?
    requires row.key in s.rows && s.rows[row.key] == row && row.key.id == row.article.id == RequestId(o.request)
    requires row.article == o.prior.value.article
    ensures NoEffect(o)
  {
    hide BaseOk;
    hide PriorOk;
    hide DesiredOk;
  }

  /** A missing row means a create had no effect: current rows are never removed. */
  lemma AbsentMeansNoEffect(s: Store, c: Client)
    requires KeysOk(s.rows) && OpOk(s, c.op) && c.op.request.CreateDraft? && c.op.desired.Some?
    requires AnswerOk(s.rows, IdOf(c), false, Absent)
    ensures !c.op.applied
  {
    hide BaseOk;
    hide PriorOk;
    var k := CurrentKeyOf(c.op.desired.value);
    assert DesiredOk(c.op) && k.id == IdOf(c);
    assert k in s.rows ==> Listed(s.rows[k], IdOf(c));
  }

  lemma AfterRefreshMoved(s: Store, c: Client, answer: Answer)
    requires SlugsPresent(s.rows, s.slugs) && OpOk(s, c.op) && PhaseOk(s, c) && c.phase.Refresh? && c.op.desired.Some?
    requires answer.Saw? ==> answer.row.key in s.rows && s.rows[answer.row.key] == answer.row
    ensures Moved(s, c, AfterRefresh(c, s, answer))
  {
    hide OpOk;
    hide SlugsPresent;
    hide VerifyDesired;
    if answer.Saw? && answer.row.article == c.op.desired.value {
      VerifyDesiredMoved(s, c, answer.row);
    } else {
      UnknownMoved(s, c);
    }
  }

  lemma ReconcileCreateMoved(s: Store, c: Client, answer: Answer)
    requires KeysOk(s.rows) && SlugsPresent(s.rows, s.slugs) && OpOk(s, c.op) && OwnOk(s, c) && IdReserved(s, c)
    requires PhaseOk(s, c) && c.phase.Reconcile? && c.op.request.CreateDraft?
    requires AnswerOk(s.rows, IdOf(c), c.phase.again, answer)
    requires answer.Saw? ==> answer.row.key in s.rows && s.rows[answer.row.key] == answer.row && answer.row.key.id == IdOf(c)
    ensures Moved(s, c, AfterReconcile(c, s, answer))
  {
    hide OpOk;
    hide SlugsPresent;
    hide VerifyDesired;
    hide OwnOk;
    if answer.Absent? {
      if !c.phase.again {
        AbsentMeansNoEffect(s, c);
      }
      FailMoved(s, c, Storage);
    } else if answer.Saw? && answer.row.article == c.op.desired.value {
      SeenMeansApplied(s, c, answer.row);
      VerifyDesiredMoved(s, c, answer.row);
    } else {
      UnknownMoved(s, c);
    }
  }

  lemma ReconcileUpdateMoved(s: Store, c: Client, answer: Answer)
    requires SlugsPresent(s.rows, s.slugs) && RetiredOk(s) && OpOk(s, c.op) && OwnOk(s, c) && IdReserved(s, c)
    requires PhaseOk(s, c) && c.phase.Reconcile? && !c.op.request.CreateDraft?
    requires answer.Saw? ==>
               && answer.row.key in s.rows && s.rows[answer.row.key] == answer.row
               && answer.row.key.id == answer.row.article.id == IdOf(c)
    ensures Moved(s, c, AfterReconcile(c, s, answer))
  {
    hide OpOk;
    hide SlugsPresent;
    hide OwnOk;
    hide RetiredOk;
    hide Holds;
    hide SlugMap;
    hide IdReserved;
    if answer.Saw? {
      if answer.row.article == c.op.desired.value {
        SeenMeansApplied(s, c, answer.row);
        VerifyDesiredMoved(s, c, answer.row);
        HoldsNow(s, answer.row);
      }
      if answer.row.article == c.op.prior.value.article {
        PriorMeansNoEffect(s, c.op, answer.row);
      }
      var c' := AfterReconcile(c, s, answer);
      if !(answer.row.article == c.op.desired.value && !MovesLegacy(c)) {
        PhaseMoved(s, c, c');
      }
    } else {
      UnknownMoved(s, c);
    }
  }

  lemma CheckLegacyMoved(s: Store, c: Client, fails: bool)
    requires OpOk(s, c.op) && PhaseOk(s, c) && c.phase.ReconcileLegacy?
    ensures Moved(s, c, AfterCheckLegacy(c, s, fails))
  {
    hide OpOk;
    hide SlugMap;
    var c' := AfterCheckLegacy(c, s, fails);
    if c'.phase.Verify? {
      PhaseMoved(s, c, c');
    } else if !fails && c.phase.isPrior && LegacyKey(IdOf(c)) in s.rows {
      FailMoved(s, c, Storage);
    } else {
      UnknownMoved(s, c);
    }
  }

  lemma VerifySlugMoved(s: Store, c: Client, x: Slug, fails: bool)
    requires OpOk(s, c.op) && PhaseOk(s, c) && c.phase.Verify?
    ensures Moved(s, c, AfterVerifySlug(c, s.slugs, x, fails))
  {
    hide OpOk;
    var c' := AfterVerifySlug(c, s.slugs, x, fails);
    if c'.phase.Verify? {
      PhaseMoved(s, c, c');
    } else {
      UnknownMoved(s, c);
    }
  }

  lemma VerifiedMoved(s: Store, c: Client)
    requires OpOk(s, c.op) && PhaseOk(s, c) && c.phase.Verify?
    ensures Moved(s, c, AfterVerified(c))
  {
    hide OpOk;
    if c.phase.goal.IsDesired? {
      SucceedMoved(s, c);
    } else {
      FailMoved(s, c, Storage);
    }
  }

  lemma ConflictProbeMoved(s: Store, c: Client, answer: Answer)
    requires OpOk(s, c.op) && PhaseOk(s, c) && c.phase.ConflictProbe?
    ensures Moved(s, c, AfterConflictProbe(c, answer))
  {
    hide OpOk;
    FailMoved(s, c, Conflict);
    FailMoved(s, c, SlugTaken);
  }

  lemma AgainMoved(s: Store, c: Client)
    requires KeysOk(s.rows) && OpOk(s, c.op) && PhaseOk(s, c) && GetPhase(c.phase)
    requires AnswerOk(s.rows, IdOf(c), false, Absent)
    ensures Moved(s, c, c.(phase := Again(c.phase)))
  {
    hide OpOk;
    hide Storable;
    if c.phase.Reconcile? && c.op.request.CreateDraft? {
      AbsentMeansNoEffect(s, c);
    }
    PhaseMoved(s, c, c.(phase := Again(c.phase)));
  }

  // ----- Read-only steps keep the invariant -----

  /** s1 is the store after at most some readings of the clock. */
  predicate AtMostClock(s: Store, s1: Store) {
    && s1.rows == s.rows && s1.slugs == s.slugs && s1.next == s.next && s1.blobs == s.blobs
    && s1.log == s.log && s1.issued == s.issued && s1.retired == s.retired && s1.dropped == s.dropped
    && s1.everPublic == s.everPublic && s.clock <= s1.clock && (s1.monotone ==> s.monotone)
  }

  lemma QuietStore(s: Store, s1: Store, c: Client, c': Client)
    requires StoreOk(s) && AtMostClock(s, s1) && OwnOk(s, c) && RefOk(s, c.op)
    requires c'.op.ref == c.op.ref && (c'.phase.Discard? ==> Owns(c))
    ensures SameData(s, Abandon(s1, c')) && StoreOk(Abandon(s1, c'))
  {
    hide SlugIndexExact;
    hide RowsStorable;
    hide NoDanglingBodies;
  }

  lemma SameDataClient(s: Store, s': Store, d: Client)
    requires KeysOk(s.rows) && LogOk(s) && SameData(s, s') && ClientOk(s, d)
    ensures ClientOk(s', d)
  {
    hide ClientOk;
    hide LogOk;
    SameDataEvolves(s, s');
    ClientStable(s, s', d);
  }

  lemma OwnFrame(s: Store, s': Store, d: Client)
    requires s'.rows == s.rows && s'.blobs == s.blobs && s'.retired == s.retired
    requires Owns(d) && d.op.ref.value.blobName in s'.dropped ==> d.op.ref.value.blobName in s.dropped
    requires OwnOk(s, d) && IdReserved(s, d)
    ensures OwnOk(s', d) && IdReserved(s', d)
  {
  }

  lemma QuietOther(s: Store, s1: Store, c: Client, c': Client, d: Client)
    requires AtMostClock(s, s1)
    requires c'.op.ref == c.op.ref && (c'.phase.Discard? ==> Owns(c))
    requires OwnOk(s, d) && IdReserved(s, d) && Apart(c, d)
    ensures OwnOk(Abandon(s1, c'), d) && IdReserved(Abandon(s1, c'), d)
  {
    hide OwnOk;
    hide IdReserved;
    OwnFrame(s, Abandon(s1, c'), d);
  }

  lemma QuietSelf(s: Store, s1: Store, c: Client, c': Client)
    requires KeysOk(s.rows) && AtMostClock(s, s1) && Moved(s1, c, c')
    ensures ClientOk(Abandon(s1, c'), c')
  {
    hide OpOk;
    hide PhaseOk;
    SameDataEvolves(s1, Abandon(s1, c'));
    OpStable(s1, Abandon(s1, c'), c'.op);
  }

  lemma QuietSelfOwn(s: Store, s1: Store, c: Client, c': Client)
    requires AtMostClock(s, s1) && OwnOk(s, c) && IdReserved(s, c) && Moved(s1, c, c')
    ensures OwnOk(Abandon(s1, c'), c') && IdReserved(Abandon(s1, c'), c')
  {
    hide OpOk;
    hide PhaseOk;
  }

  lemma QuietKept(w: World, s1: Store, i: nat, c': Client)
    requires WorldOk(w) && i in w.clients && AtMostClock(w.store, s1)
    requires Moved(s1, w.clients[i], c')
    ensures WorldOk(World(Abandon(s1, c'), w.clients[i := c']))
  {
    var c := w.clients[i];
    assert RefOk(w.store, c.op) by { assert ClientOk(w.store, c); }
    QuietStore(w.store, s1, c, c');
    QuietSelf(w.store, s1, c, c');
    QuietSelfOwn(w.store, s1, c, c');
    forall j | j in w.clients && j != i
      ensures ClientOk(Abandon(s1, c'), w.clients[j])
      ensures OwnOk(Abandon(s1, c'), w.clients[j]) && IdReserved(Abandon(s1, c'), w.clients[j])
      ensures Apart(c', w.clients[j]) && Apart(w.clients[j], c')
    {
      SameDataClient(w.store, Abandon(s1, c'), w.clients[j]);
      QuietOther(w.store, s1, c, c', w.clients[j]);
    }
    hide ClientOk;
    hide StoreOk;
    hide OwnOk;
    hide IdReserved;
    hide Moved;
    hide Apart;
  }

  predicate IsReadOnly(step: Step) {
    step.Get? || step.CheckUpload? || step.ReadSlug? || step.CheckLegacy? || step.VerifySlug? || step.Verified?
  }

  /** An answer to a read of either key is the row of that article. */
  lemma AnswerIsRow(rows: map<Key, Row>, id: Id, again: bool, answer: Answer)
    requires KeysOk(rows) && AnswerOk(rows, id, again, answer) && answer.Saw?
    ensures answer.row.key in rows && rows[answer.row.key] == answer.row
    ensures answer.row.article.id == id == answer.row.key.id
  {
  }

  lemma GetMoved(s: Store, c: Client, answer: Answer, now: Time)
    requires KeysOk(s.rows) && SlugsPresent(s.rows, s.slugs) && RetiredOk(s) && LogOk(s)
    requires OpOk(s, c.op) && PhaseOk(s, c) && OwnOk(s, c) && IdReserved(s, c)
    requires GetPhase(c.phase) && (!c.phase.Read? ==> c.op.desired.Some?)
    requires AnswerOk(s.rows, IdOf(c), c.phase.again, answer)
    requires c.phase.Read? ==> now <= s.clock && (s.monotone ==> now == s.clock)
    ensures Moved(s, c, GetStep(c, s, answer, now))
  {
    hide OpOk;
    hide KeysOk;
    hide SlugsPresent;
    hide RetiredOk;
    hide LogOk;
    hide OwnOk;
    hide IdReserved;
    hide AnswerOk;
    hide Moved;
    hide PhaseOk;
    hide AfterRead;
    hide AfterReread;
    hide AfterReconcile;
    hide AfterRefresh;
    hide AfterProbe;
    hide AfterConflictProbe;
    if answer.Saw? {
      AnswerIsRow(s.rows, IdOf(c), c.phase.again, answer);
    }
    if !c.phase.again && c.op.mode.Compat? && answer.Absent? {
      AgainMoved(s, c);
    } else {
      match c.phase
      case Read(_) => AfterReadMoved(s, c, answer, now);
      case Probe(_) => AfterProbeMoved(s, c, answer);
      case Reread(_) => AfterRereadMoved(s, c, answer);
      case ConflictProbe(_) => ConflictProbeMoved(s, c, answer);
      case Refresh(_) => AfterRefreshMoved(s, c, answer);
      case Reconcile(_) =>
        if c.op.request.CreateDraft? {
          ReconcileCreateMoved(s, c, answer);
        } else {
          ReconcileUpdateMoved(s, c, answer);
        }
    }
  }

  lemma StoreParts(s: Store)
    requires StoreOk(s)
    ensures KeysOk(s.rows) && SlugsPresent(s.rows, s.slugs) && SlugIndexExact(s.rows, s.slugs)
    ensures RetiredOk(s) && LogOk(s)
  {
    hide BodiesOk;
    hide PublicOk;
    hide RowsStorable;
  }

  lemma ClockClient(s: Store, now: Time, c: Client)
    requires KeysOk(s.rows) && LogOk(s) && ClientOk(s, c) && OwnOk(s, c) && IdReserved(s, c)
    ensures ClientOk(ReadClock(s, now), c) && OwnOk(ReadClock(s, now), c) && IdReserved(ReadClock(s, now), c)
  {
    hide ClientOk;
    hide OwnOk;
    hide IdReserved;
    SameDataClient(s, ReadClock(s, now), c);
    OwnFrame(s, ReadClock(s, now), c);
  }

  /** The store whose clock the step reads. */
  function Clocked(w: World, step: Step): Store
    requires step.Get? || step.CheckUpload? ==> step.client in w.clients
  {
    if step.CheckUpload? || (step.Get? && w.clients[step.client].phase.Read?)
    then ReadClock(w.store, step.now) else w.store
  }

  lemma CheckUploadMoved(s: Store, c: Client, now: Time, fails: bool)
    requires now <= s.clock && (s.monotone ==> now == s.clock)
    requires ClientOk(s, c) && c.phase.PutCheck?
    ensures Moved(s, c, if fails then Unknown(c)
                        else if c.op.ref.value.blobName in s.blobs then AfterPut(c, now)
                        else c.(phase := Finished(Err(Storage))))
  {
    if fails {
      UnknownMoved(s, c);
    } else if c.op.ref.value.blobName in s.blobs {
      assert c.op.base.Some? ==> c.op.base.value.article.updatedAt <= s.clock;
      hide OpOk;
      AfterPutMoved(s, c, now);
    } else {
      hide OpOk;
    }
  }

  lemma GetKept(w: World, step: Step)
    requires Enabled(w, step) && step.Get?
    requires var s, c := w.store, w.clients[step.client];
             && KeysOk(s.rows) && SlugsPresent(s.rows, s.slugs) && RetiredOk(s) && LogOk(s)
             && ClientOk(s, c) && OwnOk(s, c) && IdReserved(s, c)
    ensures Moved(Clocked(w, step), w.clients[step.client], ReadOnly(w, step))
  {
    hide OpOk;
    hide PhaseOk;
    hide OwnOk;
    hide IdReserved;
    hide KeysOk;
    hide SlugsPresent;
    hide AnswerOk;
    var c := w.clients[step.client];
    if c.phase.Read? {
      ClockClient(w.store, step.now, c);
      GetMoved(ReadClock(w.store, step.now), c, step.answer, step.now);
    } else {
      GetMoved(w.store, c, step.answer, step.now);
    }
  }

  lemma ReadOnlyMoved(w: World, step: Step)
    requires Enabled(w, step) && IsReadOnly(step)
    requires var s, c := w.store, w.clients[step.client];
             && KeysOk(s.rows) && SlugsPresent(s.rows, s.slugs) && SlugIndexExact(s.rows, s.slugs)
             && RetiredOk(s) && LogOk(s)
             && ClientOk(s, c) && OwnOk(s, c) && IdReserved(s, c)
    ensures Moved(Clocked(w, step), w.clients[step.client], ReadOnly(w, step))
  {
    hide OpOk;
    hide OwnOk;
    hide IdReserved;
    hide KeysOk;
    hide SlugsPresent;
    hide SlugIndexExact;
    hide RetiredOk;
    hide LogOk;
    var c := w.clients[step.client];
    var s := w.store;
    match step
    case Get(_, answer, now) => GetKept(w, step);
    case CheckUpload(_, now, fails) =>
      ClockClient(s, now, c);
      CheckUploadMoved(ReadClock(s, now), c, now, fails);
    case ReadSlug(_, x, fails) => AfterReadSlugMoved(s, c, x, fails);
    case CheckLegacy(_, fails) => CheckLegacyMoved(s, c, fails);
    case VerifySlug(_, x, fails) => VerifySlugMoved(s, c, x, fails);
    case Verified(_) => VerifiedMoved(s, c);
  }

  lemma NextReadOnly(w: World, step: Step)
    requires Enabled(w, step) && IsReadOnly(step)
    ensures Next(w, step) ==
            World(Abandon(Clocked(w, step), ReadOnly(w, step)), w.clients[step.client := ReadOnly(w, step)])
  {
    hide ReadOnly;
    hide Abandon;
    hide ReadClock;
  }

  lemma WorldClient(w: World, i: nat)
    requires WorldOk(w) && i in w.clients
    ensures StoreOk(w.store) && ClientOk(w.store, w.clients[i]) && OwnOk(w.store, w.clients[i]) && IdReserved(w.store, w.clients[i])
  {
    hide StoreOk;
    hide ClientOk;
    hide OwnOk;
    hide IdReserved;
  }

  lemma ReadOnlyKept(w: World, step: Step)
    requires WorldOk(w) && Enabled(w, step) && IsReadOnly(step)
    ensures WorldOk(Next(w, step))
  {
    hide WorldOk;
    hide ClientOk;
    hide OwnOk;
    hide IdReserved;
    hide StoreOk;
    hide Moved;
    hide Next;
    hide ReadOnly;
    hide Abandon;
    WorldClient(w, step.client);
    StoreParts(w.store);
    ReadOnlyMoved(w, step);
    NextReadOnly(w, step);
    QuietKept(w, Clocked(w, step), step.client, ReadOnly(w, step));
  }
}
