/**
  What a client may conclude from the answer it gets: success, a definite
  failure, or CommitUnknown. internal/storage/azure/articles.go, outcome.go.
 */
module ArticleOutcomes {
  import opened Outcomes
  import opened ArticleModel
  import opened ArticleTable
  import opened ArticleProtocol
  import opened ArticleInvariant
  import opened ArticleSteps
  import opened ArticleCommits
  import opened ArticleTheorems

  /** What a step of its own may change of a client, apart from the flag of a commit. */
  ghost predicate Carries(s: Store, c: Client, c': Client) {
    && c'.op.request == c.op.request
    && (c.op.desired.Some? ==> c'.op.desired == c.op.desired)
    && (c.op.applied ==> c'.op.prior == c.op.prior)
    && (c'.held ==> c.held || (c'.op.desired.Some? && Holds(s, c'.op.desired.value)))
    && (c'.phase.Finished? && c'.phase.outcome.Ok? ==> c'.op.desired == Some(c'.phase.outcome.value))
  }

  /** Before the client knows what to store, and before its batch. */
  predicate Undecided(c: Client) { c.op.desired.None? && !c.op.applied }

  lemma PutCarries(s: Store, c: Client, now: Time)
    requires c.op.ref.Some? && Undecided(c) && !c.phase.Finished?
    ensures Carries(s, c, AfterPut(c, now)) && AfterPut(c, now).op.applied == c.op.applied
  {
    hide ValidArticle;
    hide Storable;
    hide Holds;
    hide Saved;
  }

  lemma ReadCarries(s: Store, c: Client, answer: Answer, now: Time)
    requires Undecided(c) && !c.phase.Finished?
    ensures Carries(s, c, AfterRead(c, answer, now)) && AfterRead(c, answer, now).op.applied == c.op.applied
  {
    hide ValidArticle;
    hide ValidTransition;
    hide Holds;
    hide PublishedFrom;
  }

  lemma RereadCarries(s: Store, c: Client, answer: Answer)
    requires c.op.desired.Some? && !c.op.applied && c.phase.Reread?
    ensures Carries(s, c, AfterReread(c, answer)) && AfterReread(c, answer).op.applied == c.op.applied
  {
    hide Storable;
    hide KeyFits;
    hide PermanenceError;
    hide Holds;
  }

  lemma ReconcileCarries(s: Store, c: Client, answer: Answer)
    requires c.op.desired.Some? && c.phase.Reconcile?
    ensures Carries(s, c, AfterReconcile(c, s, answer)) && AfterReconcile(c, s, answer).op.applied == c.op.applied
  {
    hide Holds;
  }

  lemma GetCarries(s: Store, c: Client, answer: Answer, now: Time)
    requires PhaseOk(s, c) && GetPhase(c.phase) && (!c.phase.Read? ==> c.op.desired.Some?)
    ensures Carries(s, c, GetStep(c, s, answer, now)) && GetStep(c, s, answer, now).op.applied == c.op.applied
  {
    assert c.phase.Read? ==> Undecided(c);
    assert c.phase.Reread? ==> !c.op.applied;
    hide PhaseOk;
    hide Holds;
    hide AfterRead;
    hide AfterReread;
    hide AfterReconcile;
    if c.phase.Read? {
      ReadCarries(s, c, answer, now);
    } else if c.phase.Reread? {
      RereadCarries(s, c, answer);
    } else if c.phase.Reconcile? {
      ReconcileCarries(s, c, answer);
    }
  }

  lemma QuietCarries(w: World, step: Step)
    requires Enabled(w, step) && IsReadOnly(step) && PhaseOk(w.store, w.clients[step.client])
    ensures var c := w.clients[step.client];
            Carries(w.store, c, ReadOnly(w, step)) && ReadOnly(w, step).op.applied == c.op.applied
  {
    hide Holds;
    hide AfterPut;
    hide GetStep;
    var c := w.clients[step.client];
    if step.Get? {
      GetCarries(w.store, c, step.answer, step.now);
    } else if step.CheckUpload? {
      assert Undecided(c);
      PutCarries(w.store, c, step.now);
    }
    hide PhaseOk;
  }

  /** The step that client i takes, if it takes one. */
  predicate Takes(step: Step, i: nat) {
    !step.Migrate? && step.client == i
  }

  predicate Commits(step: Step, i: nat) {
    step.Commit? && step.client == i && step.applies
  }

  lemma OthersUntouched(w: World, step: Step, i: nat)
    requires Enabled(w, step) && !Takes(step, i)
    ensures i in Next(w, step).clients <==> i in w.clients
    ensures i in w.clients ==> Next(w, step).clients[i] == w.clients[i]
  {
    hide Enabled;
    hide ReadOnly;
    hide Applied;
    hide AfterCommit;
    hide AfterPut;
  }

  lemma UploadCarries(w: World, step: Step)
    requires Enabled(w, step) && step.Upload? && Undecided(w.clients[step.client])
    ensures var c, c' := w.clients[step.client], UploadStep(w, step).clients[step.client];
            Carries(w.store, c, c') && c'.op.applied == c.op.applied
  {
    hide Holds;
    hide AfterPut;
    var c := w.clients[step.client];
    assert c.phase.Putting?;
    PutCarries(w.store, c.(op := c.op.(ref := Some(step.newRef))), step.now);
    hide Enabled;
  }

  lemma CommitCarries(w: World, step: Step)
    requires Enabled(w, step) && step.Commit? && !w.clients[step.client].op.applied
    ensures var c, c' := w.clients[step.client], Next(w, step).clients[step.client];
            Carries(w.store, c, c') && c'.op.applied == step.applies
  {
    hide Holds;
    hide Applied;
    hide BatchFits;
  }

  /** What a step of the client's own does to it; applied is set by its commit and by nothing else. */
  lemma StepCarries(w: World, step: Step)
    requires WorldOk(w) && Enabled(w, step) && !step.Migrate? && step.client in w.clients
    ensures var c, c' := w.clients[step.client], Next(w, step).clients[step.client];
            Carries(w.store, c, c') && (c'.op.applied <==> c.op.applied || Commits(step, step.client))
  {
    hide WorldOk;
    hide StoreOk;
    hide OpOk;
    hide OwnOk;
    hide IdReserved;
    hide Holds;
    hide ReadOnly;
    hide UploadStep;
    var c := w.clients[step.client];
    WorldClient(w, step.client);
    if IsReadOnly(step) {
      QuietCarries(w, step);
      NextReadOnly(w, step);
    } else if step.Upload? {
      assert Undecided(c);
      UploadCarries(w, step);
      assert Next(w, step) == UploadStep(w, step);
    } else if step.Commit? {
      CommitCarries(w, step);
    } else {
      assert step.DeleteBody?;
    }
    hide PhaseOk;
    hide Applied;
  }

  /** A new client has done nothing yet. */
  lemma StartsFresh(w: World, step: Step, i: nat)
    requires Enabled(w, step) && i !in w.clients && i in Next(w, step).clients
    ensures step.Start? && step.client == i
    ensures var c := Next(w, step).clients[i]; !c.op.applied && !c.held && !c.phase.Finished?
  {
    if !Takes(step, i) {
      OthersUntouched(w, step, i);
    }
    hide Applied;
    hide ReadOnly;
  }

  // ----- When the service goes ahead -----

  predicate InTime(stored: Article, now: Time) {
    && now != ZERO_TIME && stored.createdAt <= now
    && (stored.firstPublishedAt.Some? ==> stored.firstPublishedAt.value <= now)
  }

  /** Publish of a stored article goes on to the repository unless there is no draft, its slug is an alias, or the clock is behind. */
  lemma PublishGoesAhead(c: Client, row: Row, now: Time)
    requires c.op.request.Publish? && c.phase.Read? && ValidArticle(row.article)
    ensures var a, c' := row.article, AfterRead(c, Saw(row), now);
            var alias := a.published.Some? && a.slug in a.published.value.historical;
            if a.draftBody.None? then c' == Fail(c, InvalidTransition)
            else if alias then c' == Fail(c, SlugTaken)
            else if !InTime(a, now) then c'.phase == Fail(c, Validation).phase
            else c'.phase == Reread(false) && c'.op.desired == Some(PublishedFrom(a, now)) && c'.op.base == Some(row)
  {
    hide PublishedFrom;
    if row.article.draftBody.Some? && !(row.article.published.Some? && row.article.slug in row.article.published.value.historical) {
      PublishValid(row.article, now);
    }
    AnyStatusPublishes(row.article);
    hide ValidArticle;
  }

  /** Every valid article may be published: a draft, a published or a withdrawn one. */
  lemma AnyStatusPublishes(a: Article)
    requires ValidArticle(a)
    ensures ValidTransition(a.status, Published)
  {
  }

  /** Withdraw goes on exactly for a published article, with a clock that is not behind its dates. */
  lemma WithdrawGoesAhead(c: Client, row: Row, now: Time)
    requires c.op.request.Withdraw? && c.phase.Read? && ValidArticle(row.article)
    ensures var a, c' := row.article, AfterRead(c, Saw(row), now);
            if a.status != Published then c' == Fail(c, InvalidTransition)
            else if now != ZERO_TIME && a.lastPublishedAt.value <= now
            then c'.phase == Reread(false) && c'.op.desired == Some(WithdrawnFrom(a, now)) && c'.op.base == Some(row)
            else c'.phase == Fail(c, Validation).phase
  {
    hide ValidArticle;
    hide WithdrawnFrom;
    WithdrawValid(row.article, now);
  }

  lemma WithdrawValid(a: Article, now: Time)
    requires ValidArticle(a)
    ensures a.status == Published ==>
              a.lastPublishedAt.Some? &&
              (ValidArticle(WithdrawnFrom(a, now)) <==> now != ZERO_TIME && a.lastPublishedAt.value <= now)
  {
    hide ValidText;
    hide ValidMetadata;
    hide ValidRef;
    hide Blank;
  }

  /** Publish and Withdraw are refused when there is no such article, or its read fails. */
  lemma NothingReads(c: Client, answer: Answer, now: Time)
    requires (c.op.request.Publish? || c.op.request.Withdraw?) && c.phase.Read? && c.op.ref.None? && !answer.Saw?
    ensures AfterRead(c, answer, now).phase == Finished(Err(if answer.Absent? then NotFound else Storage))
  {
  }

  /** A save is refused before its upload for a failed read, texts that do not normalise, or an alias as its slug, in this order. */
  lemma SaveReads(c: Client, answer: Answer, now: Time)
    requires c.op.request.SaveDraft? && c.phase.Read? && c.op.ref.None?
    ensures var input, c' := c.op.request.input, AfterRead(c, answer, now);
            var aliases := if answer.Saw? && answer.row.article.published.Some? then answer.row.article.published.value.historical else [];
            if !answer.Saw? then c'.phase == Finished(Err(if answer.Absent? then NotFound else Storage))
            else if input.Err? then c'.phase == Finished(Err(input.error))
            else if input.value.slug in aliases then c'.phase == Finished(Err(SlugTaken))
            else c'.phase == Putting && c'.op == c.op.(base := Some(answer.row))
  {
  }

  /** A save of a stored article with normalised fields goes on exactly when the new texts are valid and the clock is not behind. */
  lemma SaveGoesAhead(c: Client, row: Row, ref: BodyRef, now: Time)
    requires c.op.request.SaveDraft? && c.op.request.input.Ok? && c.op.base == Some(row) && c.op.ref == Some(ref)
    requires ValidArticle(row.article) && ValidRef(ref)
    ensures var a, f, c' := row.article, c.op.request.input.value, AfterPut(c, now);
            if ValidText(f.slug, f.title, f.summary, f.area, f.coverId) && now != ZERO_TIME && a.createdAt <= now &&
               (a.lastPublishedAt.Some? ==> a.lastPublishedAt.value <= now)
            then c'.phase == Reread(false) && c'.op.desired == Some(Saved(a, f, ref, now))
            else c'.phase == Fail(c, Validation).phase
  {
    hide ValidText;
    hide ValidMetadata;
    hide ValidRef;
    hide Blank;
  }

  /** A creation with an uploaded body goes on exactly for an ID that fits into a row key and a time since 1970. */
  lemma CreateGoesAhead(c: Client, ref: BodyRef, now: Time)
    requires c.op.request.CreateDraft? && ValidArticle(c.op.request.article) && c.op.ref == Some(ref) && ValidRef(ref)
    requires c.op.request.article.status == Draft
    ensures var a, c' := c.op.request.article, AfterPut(c, now);
            if SafeSegment(a.id) && 0 <= a.createdAt
            then c'.phase == Probe(false) && c'.op.desired == Some(a.(draftBody := Some(ref)))
            else c'.phase == Fail(c, Validation).phase
  {
    hide ValidText;
    hide ValidMetadata;
    hide ValidRef;
    hide Blank;
    hide SafeSegment;
  }

  /**
    An update of a stored article is refused by the repository's read exactly if the
    article is gone, the caller's ETag is not its present one, or the permanence check
    refuses it; otherwise every slug of the new version is looked at, and every
    slug that only the old one has.
   */
  lemma UpdateGoesAhead(c: Client, answer: Answer)
    requires c.phase.Reread? && c.op.desired.Some? && ValidArticle(c.op.desired.value)
    requires answer.Saw? ==>
               var row, a := answer.row, c.op.desired.value;
               Storable(row.article) && KeyFits(row.key, row.article) && a.id == row.article.id && a.createdAt == row.article.createdAt
    ensures var a, c' := c.op.desired.value, AfterReread(c, answer);
            if answer.ReadFailed? then c'.phase == Fail(c, Storage).phase
            else if answer.Absent? then c'.phase == Fail(c, NotFound).phase
            else if answer.row.etag != c.op.expected then c'.phase == Fail(c, Conflict).phase
            else
              var refused := PermanenceError(answer.row.article, a);
              if refused.Some? then c'.phase == Fail(c, refused.value).phase
              else
                && c'.op.prior == Some(answer.row) && c'.phase.Slugs? && c'.phase.plan == map[]
                && forall x :: (x in c'.phase.keep <==> Reserves(a, x)) &&
                               (x in c'.phase.drop <==> Reserves(answer.row.article, x) && !Reserves(a, x))
  {
    hide ValidArticle;
    hide PermanenceError;
    hide SafeSegment;
  }

  // ----- Runs -----

  /** The batch of client i took effect in the run. */
  predicate Committed(steps: seq<Step>, i: nat) {
    exists j :: 0 <= j < |steps| && Commits(steps[j], i)
  }

  lemma {:induction false} AppliedMeansCommitted(w: World, steps: seq<Step>, i: nat)
    requires Init(w) && Possible(w, steps) && i in Run(w, steps).clients
    ensures Run(w, steps).clients[i].op.applied <==> Committed(steps, i)
    decreases |steps|
  {
    hide Init;
    hide Enabled;
    hide Next;
    if steps != [] {
      var n := |steps| - 1;
      RunLast(w, steps);
      var prev := Run(w, steps[..n]);
      RunInvariant(w, steps[..n]);
      hide WorldOk;
      hide StoreOk;
      hide Run;
      hide Possible;
      CommittedLast(steps, i);
      if i in prev.clients {
        AppliedMeansCommitted(w, steps[..n], i);
        if Takes(steps[n], i) {
          StepCarries(prev, steps[n]);
        } else {
          OthersUntouched(prev, steps[n], i);
        }
      } else {
        StartsFresh(prev, steps[n], i);
        NeverCommitted(w, steps[..n], i);
      }
    } else {
      NoClients(w);
    }
  }

  lemma NoClients(w: World)
    requires Init(w)
    ensures w.clients == map[]
  {
  }

  lemma CommittedLast(steps: seq<Step>, i: nat)
    requires steps != []
    ensures Committed(steps, i) <==> Committed(steps[..|steps| - 1], i) || Commits(steps[|steps| - 1], i)
  {
    var n := |steps| - 1;
    if Committed(steps, i) && !Commits(steps[n], i) {
      var j :| 0 <= j < |steps| && Commits(steps[j], i);
      assert Commits(steps[..n][j], i);
    }
    if Committed(steps[..n], i) {
      var j :| 0 <= j < n && Commits(steps[..n][j], i);
      assert Commits(steps[j], i);
    }
  }

  /** Clients stay in the world, and only clients in the world commit. */
  lemma {:induction false} NeverCommitted(w: World, steps: seq<Step>, i: nat)
    requires Possible(w, steps) && i !in Run(w, steps).clients
    ensures !Committed(steps, i)
    decreases |steps|
  {
    if steps != [] {
      var n := |steps| - 1;
      RunLast(w, steps);
      var prev := Run(w, steps[..n]);
      CommittedLast(steps, i);
      ClientsStay(prev, steps[n], i);
      NeverCommitted(w, steps[..n], i);
    }
  }

  lemma ClientsStay(w: World, step: Step, i: nat)
    requires Enabled(w, step) && i !in Next(w, step).clients
    ensures i !in w.clients && !Commits(step, i)
  {
    hide Applied;
    hide ReadOnly;
    hide BatchFits;
    hide AfterPut;
    hide GetStep;
  }

  /** At some moment of the run client i was there and the table held the article with all its slug records. */
  ghost predicate HeldDuring(w: World, steps: seq<Step>, i: nat, a: Article)
    requires Possible(w, steps)
  {
    exists n :: 0 <= n <= |steps| && Possible(w, steps[..n]) && HoldsFor(Run(w, steps[..n]), i, a)
  }

  ghost predicate HoldsFor(w: World, i: nat, a: Article) {
    i in w.clients && Holds(w.store, a)
  }

  lemma HeldDuringLonger(w: World, steps: seq<Step>, m: nat, i: nat, a: Article)
    requires Possible(w, steps) && m <= |steps| && Possible(w, steps[..m]) && HeldDuring(w, steps[..m], i, a)
    ensures HeldDuring(w, steps, i, a)
  {
    var n :| 0 <= n <= m && Possible(w, steps[..m][..n]) && HoldsFor(Run(w, steps[..m][..n]), i, a);
    assert steps[..m][..n] == steps[..n];
  }

  ghost predicate OutcomeExplained(w: World, steps: seq<Step>, i: nat)
    requires Possible(w, steps) && i in Run(w, steps).clients
  {
    var c := Run(w, steps).clients[i];
    && (c.held ==> c.op.desired.Some? && HeldDuring(w, steps, i, c.op.desired.value))
    && (c.phase.Finished? && c.phase.outcome.Ok? ==> c.op.desired == Some(c.phase.outcome.value))
  }

  lemma {:induction false} RunExplained(w: World, steps: seq<Step>, i: nat)
    requires Init(w) && Possible(w, steps) && i in Run(w, steps).clients
    ensures OutcomeExplained(w, steps, i)
    decreases |steps|
  {
    hide Init;
    hide Enabled;
    hide Next;
    if steps != [] {
      var n := |steps| - 1;
      RunLast(w, steps);
      var prev := Run(w, steps[..n]);
      RunInvariant(w, steps[..n]);
      hide WorldOk;
      hide StoreOk;
      if i in prev.clients {
        RunExplained(w, steps[..n], i);
        if Takes(steps[n], i) {
          StepCarries(prev, steps[n]);
        } else {
          OthersUntouched(prev, steps[n], i);
        }
        hide Run;
        hide Possible;
        hide Holds;
        ExplainedLonger(w, steps, i);
      } else {
        hide Run;
        hide Possible;
        StartsFresh(prev, steps[n], i);
      }
    } else {
      NoClients(w);
    }
  }

  lemma ExplainedLonger(w: World, steps: seq<Step>, i: nat)
    requires steps != [] && Possible(w, steps) && Possible(w, steps[..|steps| - 1])
    requires i in Run(w, steps).clients && i in Run(w, steps[..|steps| - 1]).clients
    requires OutcomeExplained(w, steps[..|steps| - 1], i)
    requires var prev := Run(w, steps[..|steps| - 1]);
             var c, c' := prev.clients[i], Run(w, steps).clients[i];
             c' == c || Carries(prev.store, c, c')
    ensures OutcomeExplained(w, steps, i)
  {
    hide Run;
    hide Possible;
    hide Holds;
    hide HeldDuring;
    var n := |steps| - 1;
    var c, c' := Run(w, steps[..n]).clients[i], Run(w, steps).clients[i];
    if c.held {
      HeldDuringLonger(w, steps, n, i, c.op.desired.value);
    } else if c'.held {
      HeldNow(w, steps, n, i, c'.op.desired.value);
    }
  }

  lemma HeldNow(w: World, steps: seq<Step>, n: nat, i: nat, a: Article)
    requires Possible(w, steps) && n <= |steps| && Possible(w, steps[..n]) && HoldsFor(Run(w, steps[..n]), i, a)
    ensures HeldDuring(w, steps, i, a)
  {
  }

  /** The answer that client i got, if its operation has ended. */
  ghost predicate Answered(w: World, steps: seq<Step>, i: nat, outcome: Result<Article>)
    requires Possible(w, steps)
  {
    i in Run(w, steps).clients && Run(w, steps).clients[i].phase == Finished(outcome)
  }

  lemma AnswerKept(w: World, i: nat)
    requires WorldOk(w) && i in w.clients && w.clients[i].phase.Finished?
    ensures var c := w.clients[i];
            if c.phase.outcome.Ok? then Effect(c)
            else c.phase.outcome.error == CommitUnknown || NoEffect(c.op)
  {
    hide WorldOk;
    hide StoreOk;
    hide OpOk;
    WorldClient(w, i);
  }

  /**
    Success is sound, for every operation: the article that was answered and
    every slug record it reserves were in the table while the call ran.
   */
  lemma SuccessWasStored(w: World, steps: seq<Step>, i: nat, a: Article)
    requires Init(w) && Possible(w, steps) && Answered(w, steps, i, Ok(a))
    ensures HeldDuring(w, steps, i, a)
  {
    hide HeldDuring;
    hide WorldOk;
    hide StoreOk;
    hide Possible;
    RunInvariant(w, steps);
    RunExplained(w, steps, i);
    AnswerKept(Run(w, steps), i);
  }

  /**
    CreateDraft and SaveDraft: after success the caller's own batch has taken
    effect, and after a definite failure it has taken none.
   */
  lemma SavesAnswerTruthfully(w: World, steps: seq<Step>, i: nat, outcome: Result<Article>)
    requires Init(w) && Possible(w, steps) && Answered(w, steps, i, outcome)
    requires outcome != Err(CommitUnknown) && Saves(Run(w, steps).clients[i].op)
    ensures outcome.Ok? <==> Committed(steps, i)
  {
    hide WorldOk;
    hide StoreOk;
    hide Possible;
    hide Run;
    RunInvariant(w, steps);
    AnswerKept(Run(w, steps), i);
    AppliedMeansCommitted(w, steps, i);
  }

  // ----- Lost updates -----

  lemma StepRowsKept(w: World, step: Step)
    requires WorldOk(w) && Enabled(w, step)
    ensures RowsKept(w.store, Next(w, step).store)
  {
    hide WorldOk;
    hide StoreOk;
    hide Committing;
    hide HistoryKept;
    hide DatesKept;
    if step.Commit? && step.applies {
      CommitStepCommits(w, step);
      CommittingStore(w.store, w.clients[step.client]);
      CommitNext(w, step);
      hide Applied;
    } else if step.Migrate? {
      MigrateEvolves(w, step);
    } else {
      StepSameTable(w, step);
      hide Next;
      SameRowsKept(w.store, Next(w, step).store);
    }
  }

  /**
    Writers in compatibility mode do to the article rows what Migration relies
    on: no legacy row is added or changed, no current row and no article goes.
   */
  lemma CompatWritersAreRelied(w: World, step: Step)
    requires WorldOk(w) && Enabled(w, step)
    requires step.Commit? ==> w.clients[step.client].op.mode.Compat?
    ensures var rows, rows' := w.store.rows, Next(w, step).store.rows;
            && (forall k | k in rows' && k.LegacyKey? :: k in rows && rows'[k] == rows[k])
            && (forall k | k in rows && k.CurrentKey? :: k in rows')
            && (forall k | k in rows :: HasRow(rows', k.id))
  {
    hide WorldOk;
    StepRowsKept(w, step);
    if step.Commit? && step.applies {
      CommitNext(w, step);
      CompatCommit(w.store, w.clients[step.client]);
      hide Applied;
      hide Next;
    } else if step.Migrate? {
    } else {
      StepSameTable(w, step);
      hide Next;
    }
  }

  lemma CompatCommit(s: Store, c: Client)
    requires c.op.desired.Some? && c.phase.Slugs? && c.op.mode.Compat?
    ensures forall k | k in Applied(s, c).rows && k.LegacyKey? :: k in s.rows && Applied(s, c).rows[k] == s.rows[k]
  {
  }

  lemma MigrateEvolves(w: World, step: Step)
    requires WorldOk(w) && Enabled(w, step) && step.Migrate?
    ensures Evolves(w.store, MigrateStep(w.store, step.id, step.createdAt))
  {
    hide Evolves;
    hide StoreOk;
    assert StoreOk(w.store);
    MigrateStore(w.store, step.id, step.createdAt);
  }

  lemma StepSameTable(w: World, step: Step)
    requires Enabled(w, step) && !step.Migrate? && !Commits(step, step.client)
    ensures SameTable(w.store, Next(w, step).store)
  {
    hide Enabled;
    hide Next;
    hide SameTable;
    if IsReadOnly(step) {
      ReadOnlySameTable(w, step);
    } else if step.Upload? {
      UploadSameTable(w, step);
    } else if step.Commit? {
      CommitNext(w, step);
    } else {
      OtherSameTable(w, step);
    }
  }

  lemma SameRowsKept(s: Store, s': Store)
    requires SameTable(s, s')
    ensures RowsKept(s, s')
  {
    assert forall k | k in s.rows :: HasRow(s.rows, k.id);
  }

  /** The version that the client's batch replaced is no longer in the table. */
  ghost predicate Superseded(s: Store, o: Op) {
    o.applied && o.prior.Some? ==> InLog(s, o.prior.value) && !Unchanged(s, o.prior.value)
  }

  lemma SupersededStays(s: Store, s': Store, o: Op)
    requires LogOk(s) && Superseded(s, o) && RowsKept(s, s')
    requires forall e | e in s.log :: e in s'.log && s'.log[e] == s.log[e]
    ensures Superseded(s', o)
  {
    if o.applied && o.prior.Some? && Unchanged(s', o.prior.value) {
      UnchangedBefore(s, s', o.prior.value);
    }
  }

  lemma CommitSupersedes(s: Store, c: Client)
    requires LogOk(s) && KeysOk(s.rows) && Committing(s, c)
    ensures Superseded(Applied(s, c), c.op.(applied := true))
  {
    hide Committing;
    hide DesiredOk;
    hide PriorOk;
    hide TimeOk;
    hide RequestOk;
    hide Storable;
    hide KeysOk;
    hide LogOk;
    CommittingPrior(s, c);
    CommittingReplaces(s, c);
    if c.op.prior.Some? {
      RowInLog(s, c.op.prior.value);
    }
    hide Applied;
  }

  lemma RowInLog(s: Store, row: Row)
    requires LogOk(s) && row.key in s.rows && s.rows[row.key] == row
    ensures row.etag < s.next && InLog(s, row)
  {
  }

  /** What was written stays in the history, and so does the version that is replaced. */
  lemma StepLog(w: World, step: Step)
    requires WorldOk(w) && Enabled(w, step)
    ensures forall e | e in w.store.log :: e in Next(w, step).store.log && Next(w, step).store.log[e] == w.store.log[e]
  {
    hide WorldOk;
    hide StoreOk;
    hide HistoryKept;
    WorldStore(w);
    if step.Commit? && step.applies {
      CommitStepCommits(w, step);
      hide Committing;
      CommittingStore(w.store, w.clients[step.client]);
      CommitNext(w, step);
      hide Next;
      hide Applied;
      HistoryLog(w.store, Applied(w.store, w.clients[step.client]));
    } else if step.Migrate? {
      MigrateEvolves(w, step);
      HistoryLog(w.store, MigrateStep(w.store, step.id, step.createdAt));
    } else {
      StepSameTable(w, step);
      hide Next;
    }
  }

  lemma HistoryLog(s: Store, s': Store)
    requires Evolves(s, s')
    ensures forall e | e in s.log :: e in s'.log && s'.log[e] == s.log[e]
  {
  }

  lemma StepSupersedes(w: World, step: Step, i: nat)
    requires WorldOk(w) && Enabled(w, step) && i in w.clients && Superseded(w.store, w.clients[i].op)
    ensures i in Next(w, step).clients && Superseded(Next(w, step).store, Next(w, step).clients[i].op)
  {
    hide WorldOk;
    hide StoreOk;
    hide Enabled;
    hide Next;
    hide RowsKept;
    hide KeysOk;
    hide SlugsPresent;
    hide SlugIndexExact;
    hide RetiredOk;
    hide LogOk;
    hide Superseded;
    WorldStore(w);
    StoreParts(w.store);
    StepRowsKept(w, step);
    StepLog(w, step);
    SupersededStays(w.store, Next(w, step).store, w.clients[i].op);
    if !Takes(step, i) {
      OthersUntouched(w, step, i);
    } else {
      OwnStepSupersedes(w, step);
    }
  }

  lemma WorldStore(w: World)
    requires WorldOk(w)
    ensures StoreOk(w.store)
  {
    hide StoreOk;
  }

  lemma OwnStepSupersedes(w: World, step: Step)
    requires WorldOk(w) && Enabled(w, step) && !step.Migrate? && step.client in w.clients
    requires LogOk(w.store) && KeysOk(w.store.rows)
    requires Superseded(Next(w, step).store, w.clients[step.client].op)
    ensures step.client in Next(w, step).clients
    ensures Superseded(Next(w, step).store, Next(w, step).clients[step.client].op)
  {
    hide WorldOk;
    hide StoreOk;
    hide LogOk;
    hide KeysOk;
    hide Holds;
    StepCarries(w, step);
    if Commits(step, step.client) {
      CommitStepCommits(w, step);
      CommitSupersedes(w.store, w.clients[step.client]);
      CommitKeepsOp(w, step);
    }
    hide Next;
    hide Enabled;
  }

  lemma CommitKeepsOp(w: World, step: Step)
    requires Enabled(w, step) && step.Commit? && step.applies
    ensures Next(w, step).clients[step.client].op == w.clients[step.client].op.(applied := true)
    ensures Next(w, step).store.rows == Applied(w.store, w.clients[step.client]).rows
    ensures Next(w, step).store.log == Applied(w.store, w.clients[step.client]).log
  {
    hide Applied;
    hide BatchFits;
  }

  lemma {:induction false} RunSuperseded(w: World, steps: seq<Step>, i: nat)
    requires Init(w) && Possible(w, steps) && i in Run(w, steps).clients
    ensures Superseded(Run(w, steps).store, Run(w, steps).clients[i].op)
    decreases |steps|
  {
    hide Init;
    hide Enabled;
    hide Next;
    hide WorldOk;
    hide StoreOk;
    hide InLog;
    hide Unchanged;
    if steps != [] {
      var n := |steps| - 1;
      RunLast(w, steps);
      RunInvariant(w, steps[..n]);
      var prev := Run(w, steps[..n]);
      hide Run;
      hide Possible;
      if i in prev.clients {
        RunSuperseded(w, steps[..n], i);
        StepSupersedes(prev, steps[n], i);
      } else {
        StartsFresh(prev, steps[n], i);
      }
    } else {
      NoClients(w);
    }
  }

  /** The version that a batch replaces has not been replaced before. */
  lemma CommitReplacesOnce(s: Store, c: Client, o: Op)
    requires LogOk(s) && Committing(s, c) && Superseded(s, o)
    requires o.applied && o.prior.Some? && c.op.prior.Some?
    ensures o.prior.value.etag != c.op.prior.value.etag
  {
    hide Committing;
    hide DesiredOk;
    hide PriorOk;
    hide TimeOk;
    hide RequestOk;
    hide Storable;
    CommittingPrior(s, c);
    RowInLog(s, c.op.prior.value);
    hide LogOk;
  }

  ghost predicate ReplacedDifferent(o: Op, o': Op) {
    o.applied && o'.applied && o.prior.Some? && o'.prior.Some? ==> o.prior.value.etag != o'.prior.value.etag
  }

  lemma StepReplacesDifferent(w: World, step: Step, i: nat, j: nat)
    requires WorldOk(w) && Enabled(w, step) && i in w.clients && j in w.clients && i != j
    requires Superseded(w.store, w.clients[i].op) && Superseded(w.store, w.clients[j].op)
    requires ReplacedDifferent(w.clients[i].op, w.clients[j].op)
    ensures var w' := Next(w, step);
            i in w'.clients && j in w'.clients && ReplacedDifferent(w'.clients[i].op, w'.clients[j].op)
  {
    hide WorldOk;
    hide StoreOk;
    hide Enabled;
    hide Next;
    hide KeysOk;
    hide SlugsPresent;
    hide SlugIndexExact;
    hide RetiredOk;
    hide LogOk;
    hide Superseded;
    hide Committing;
    hide Holds;
    WorldStore(w);
    StoreParts(w.store);
    if step.Migrate? {
      OthersUntouched(w, step, i);
      OthersUntouched(w, step, j);
    } else {
      var k := step.client;
      if k != i {
        OthersUntouched(w, step, i);
      }
      if k != j {
        OthersUntouched(w, step, j);
      }
      if k == i || k == j {
        StepCarries(w, step);
        OwnStaysInWorld(w, step);
        if Commits(step, k) {
          var o := w.clients[if k == i then j else i].op;
          CommitStepCommits(w, step);
          CommitKeepsOp(w, step);
          if o.applied && o.prior.Some? && w.clients[k].op.prior.Some? {
            CommitReplacesOnce(w.store, w.clients[k], o);
          }
        }
      }
    }
  }

  lemma OwnStaysInWorld(w: World, step: Step)
    requires Enabled(w, step) && !step.Migrate?
    ensures step.client in Next(w, step).clients
  {
    hide Enabled;
    hide ReadOnly;
    hide Applied;
    hide AfterCommit;
    hide AfterPut;
  }

  lemma {:induction false} RunReplacedDifferent(w: World, steps: seq<Step>, i: nat, j: nat)
    requires Init(w) && Possible(w, steps) && i in Run(w, steps).clients && j in Run(w, steps).clients && i != j
    ensures ReplacedDifferent(Run(w, steps).clients[i].op, Run(w, steps).clients[j].op)
    decreases |steps|
  {
    hide Init;
    hide Enabled;
    hide Next;
    hide WorldOk;
    hide StoreOk;
    hide Superseded;
    if steps != [] {
      var n := |steps| - 1;
      RunLast(w, steps);
      RunInvariant(w, steps[..n]);
      var prev := Run(w, steps[..n]);
      hide Run;
      hide Possible;
      if i !in prev.clients {
        StartsFresh(prev, steps[n], i);
      } else if j !in prev.clients {
        StartsFresh(prev, steps[n], j);
      } else {
        RunReplacedDifferent(w, steps[..n], i, j);
        RunSuperseded(w, steps[..n], i);
        RunSuperseded(w, steps[..n], j);
        StepReplacesDifferent(prev, steps[n], i, j);
      }
    } else {
      NoClients(w);
    }
  }

  /**
    No lost update: in every run, two updates that took effect replaced two
    different versions, so no version is overwritten by two writers.
   */
  lemma NoLostUpdate(w: World, steps: seq<Step>, i: nat, j: nat)
    requires Init(w) && Possible(w, steps) && i in Run(w, steps).clients && j in Run(w, steps).clients && i != j
    requires Committed(steps, i) && Committed(steps, j)
    requires Run(w, steps).clients[i].op.prior.Some? && Run(w, steps).clients[j].op.prior.Some?
    ensures Run(w, steps).clients[i].op.prior.value.etag != Run(w, steps).clients[j].op.prior.value.etag
  {
    hide Run;
    hide Possible;
    RunReplacedDifferent(w, steps, i, j);
    AppliedMeansCommitted(w, steps, i);
    AppliedMeansCommitted(w, steps, j);
  }
}
