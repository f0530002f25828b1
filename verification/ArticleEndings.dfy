/**
  How an operation ends: what a refused mutation is answered with, and which
  body is deleted. internal/articles/service.go, internal/storage/azure/articles.go,
  bodies.go.
 */
module ArticleEndings {
  import opened Outcomes
  import opened ArticleModel
  import opened ArticleTable
  import opened ArticleProtocol
  import opened ArticleInvariant
  import opened ArticleSteps
  import opened ArticleCommits
  import opened ArticleTheorems
  import opened ArticleOutcomes
  import opened ArticleReconcile

  // ----- Refusals -----

  /** Client i reads a row of its article. */
  predicate Finds(step: Step, i: nat) {
    step.Get? && step.client == i && step.answer.Saw?
  }

  predicate FindsOne(steps: seq<Step>, i: nat) {
    exists j :: 0 <= j < |steps| && Finds(steps[j], i)
  }

  /** What a refused batch is answered with; found is that a creation finds a row with its ID. */
  function Refusal(request: Request, e: DriverError, found: bool): Error {
    match e
    case DriverConflict => if request.CreateDraft? && found then Conflict else SlugTaken
    case DriverPrecondition => Conflict
    case DriverNotFound => NotFound
    case DriverBatchInvalid => Validation
    case DriverOther => Storage
  }

  /** A client whose batch was refused, and what it has read since. */
  predicate Turned(c: Client, request: Request, e: DriverError, found: bool) {
    c.op.request == request &&
    match c.phase
    case ConflictProbe(_) => request.CreateDraft? && e.DriverConflict? && !found
    case Discard(error) => error == Refusal(request, e, found)
    case Finished(outcome) => outcome == Err(Refusal(request, e, found))
    case _ => false
  }

  lemma FindsLast(steps: seq<Step>, i: nat)
    requires steps != []
    ensures FindsOne(steps, i) <==> FindsOne(steps[..|steps| - 1], i) || Finds(steps[|steps| - 1], i)
  {
    var n := |steps| - 1;
    if FindsOne(steps, i) && !Finds(steps[n], i) {
      var j :| 0 <= j < |steps| && Finds(steps[j], i);
      assert Finds(steps[..n][j], i);
    }
    if FindsOne(steps[..n], i) {
      var j :| 0 <= j < n && Finds(steps[..n][j], i);
      assert Finds(steps[j], i);
    }
  }

  lemma OwnTurned(w: World, step: Step, i: nat, request: Request, e: DriverError, found: bool)
    requires Enabled(w, step) && Takes(step, i) && i in w.clients && Turned(w.clients[i], request, e, found)
    ensures i in Next(w, step).clients && Turned(Next(w, step).clients[i], request, e, found || Finds(step, i))
  {
    hide AnswerOk;
    hide BatchFits;
    if step.Get? {
      NextReadOnly(w, step);
      hide Next;
    } else {
      assert step.DeleteBody?;
    }
  }

  lemma {:induction false} RunTurned(w: World, steps: seq<Step>, i: nat, request: Request, e: DriverError)
    requires Possible(w, steps) && i in w.clients && Turned(w.clients[i], request, e, false)
    ensures i in Run(w, steps).clients && Turned(Run(w, steps).clients[i], request, e, FindsOne(steps, i))
    decreases |steps|
  {
    hide Enabled;
    hide Next;
    hide Turned;
    hide Finds;
    if steps != [] {
      var n := |steps| - 1;
      RunLast(w, steps);
      var prev := Run(w, steps[..n]);
      FindsLast(steps, i);
      RunTurned(w, steps[..n], i, request, e);
      hide Run;
      hide Possible;
      hide FindsOne;
      if Takes(steps[n], i) {
        OwnTurned(prev, steps[n], i, request, e, FindsOne(steps[..n], i));
      } else {
        OthersUntouched(prev, steps[n], i);
        assert !Finds(steps[n], i) by {
          TakesFinds(steps[n], i);
        }
      }
    }
  }

  lemma TakesFinds(step: Step, i: nat)
    requires !Takes(step, i)
    ensures !Finds(step, i)
  {
  }

  lemma RefusedTurned(w: World, i: nat, e: DriverError)
    requires Enabled(w, Commit(i, false, Refused(e)))
    ensures i in w.clients && i in Next(w, Commit(i, false, Refused(e))).clients
    ensures Turned(Next(w, Commit(i, false, Refused(e))).clients[i], w.clients[i].op.request, e, false)
  {
    hide BatchFits;
    hide Abandon;
  }

  /**
    What a refused batch is answered with, for every operation: a conflict means
    a taken slug unless a creation then finds its ID, a failed precondition
    means a concurrent change.
   */
  lemma RefusedIsNamed(w: World, before: seq<Step>, i: nat, e: DriverError, after: seq<Step>, outcome: Result<Article>)
    requires Sends(w, before, i, false, Refused(e), after)
    requires Answered(Next(Run(w, before), Commit(i, false, Refused(e))), after, i, outcome)
    ensures i in Run(w, before).clients
    ensures var creates := Run(w, before).clients[i].op.request.CreateDraft?;
            outcome == Err(match e
                           case DriverConflict => if creates && FindsOne(after, i) then Conflict else SlugTaken
                           case DriverPrecondition => Conflict
                           case DriverNotFound => NotFound
                           case DriverBatchInvalid => Validation
                           case DriverOther => Storage)
  {
    hide Enabled;
    hide Next;
    hide Run;
    hide Possible;
    RefusedTurned(Run(w, before), i, e);
    RunTurned(Next(Run(w, before), Commit(i, false, Refused(e))), after, i, Run(w, before).clients[i].op.request, e);
    hide FindsOne;
  }

  /** An upload that was refused, or that the check afterwards does not find or cannot look for. */
  lemma UploadFails(w: World, step: Step)
    requires Enabled(w, step) && (step.Upload? || step.CheckUpload?)
    requires step.Upload? ==> step.reply.Refused?
    requires step.CheckUpload? && !step.fails ==> w.clients[step.client].op.ref.value.blobName !in w.store.blobs
    ensures step.client in Next(w, step).clients
    ensures Next(w, step).clients[step.client].phase ==
            Finished(Err(if step.CheckUpload? then if step.fails then CommitUnknown else Storage
                         else if step.reply.error.DriverConflict? || step.reply.error.DriverPrecondition? then Conflict
                         else if step.reply.error.DriverNotFound? then NotFound else Storage))
  {
    hide AfterPut;
    hide Abandon;
    hide ReadClock;
  }

  // ----- Bodies -----

  /** SaveDraft replaces a draft body that is not published. */
  predicate Replaces(o: Op) {
    o.request.SaveDraft? && o.base.Some? && o.base.value.article.draftBody.Some? &&
    o.base.value.article.draftBody != o.base.value.article.publishedBody
  }

  predicate Deletes(step: Step, i: nat) { step.DeleteBody? && step.client == i }

  predicate NoDeletion(steps: seq<Step>, i: nat) {
    forall j | 0 <= j < |steps| :: !Deletes(steps[j], i)
  }

  /** The body store after one deletion that may have failed. */
  predicate Without(blobs: set<string>, step: Step, name: string, after: set<string>)
    requires step.DeleteBody?
  {
    after == if step.applies then blobs - {name} else blobs
  }

  /** The one deletion of client i is the n-th step, and it is of this body. */
  ghost predicate DeletedAt(w: World, steps: seq<Step>, i: nat, name: string, n: nat)
    requires Possible(w, steps)
  {
    && n < |steps| && Deletes(steps[n], i) && (forall j | 0 <= j < |steps| && j != n :: !Deletes(steps[j], i))
    && Possible(w, steps[..n]) && Enabled(Run(w, steps[..n]), steps[n])
    && Without(Run(w, steps[..n]).store.blobs, steps[n], name, Next(Run(w, steps[..n]), steps[n]).store.blobs)
  }

  ghost predicate Deleted(w: World, steps: seq<Step>, i: nat, name: string)
    requires Possible(w, steps)
  {
    exists n: nat :: DeletedAt(w, steps, i, name, n)
  }

  /** The check after an upload did not find the body. */
  ghost predicate LostAt(w: World, steps: seq<Step>, i: nat, name: string, n: nat)
    requires Possible(w, steps)
  {
    && n < |steps| && steps[n].CheckUpload? && steps[n].client == i && !steps[n].fails
    && Possible(w, steps[..n]) && name !in Run(w, steps[..n]).store.blobs
  }

  ghost predicate Lost(w: World, steps: seq<Step>, i: nat, name: string)
    requires Possible(w, steps)
  {
    exists n: nat :: LostAt(w, steps, i, name, n)
  }

  /** What a client has deleted when it ends, and that it has deleted nothing before. */
  ghost predicate CleanedUp(w: World, steps: seq<Step>, i: nat)
    requires Possible(w, steps) && i in Run(w, steps).clients
  {
    var c := Run(w, steps).clients[i];
    if !c.phase.Finished? then NoDeletion(steps, i) && (c.phase.DropOld? ==> Replaces(c.op))
    else if c.phase.outcome.Ok? then
      if Replaces(c.op) then Deleted(w, steps, i, c.op.base.value.article.draftBody.value.blobName) else NoDeletion(steps, i)
    else if c.phase.outcome.error == CommitUnknown || c.op.ref.None? then NoDeletion(steps, i)
    else
      var name := c.op.ref.value.blobName;
      Deleted(w, steps, i, name) || (NoDeletion(steps, i) && Lost(w, steps, i, name))
  }

  /** A client that may have just ended without a deletion. */
  predicate NothingToDelete(c: Client) {
    match c.phase
    case DropOld => Replaces(c.op)
    case Finished(outcome) =>
      if outcome.Ok? then !Replaces(c.op) else outcome.error == CommitUnknown || c.op.ref.None?
    case _ => true
  }

  lemma ReadNothing(c: Client, answer: Answer, now: Time)
    requires c.phase.Read? && c.op.ref.None?
    ensures NothingToDelete(AfterRead(c, answer, now))
  {
    hide PublishedFrom;
    hide WithdrawnFrom;
    hide ValidArticle;
    hide ValidTransition;
  }

  lemma RereadNothing(c: Client, answer: Answer)
    requires c.op.desired.Some? && c.phase.Reread?
    ensures NothingToDelete(AfterReread(c, answer))
  {
    hide PermanenceError;
    hide Storable;
    hide KeyFits;
    hide SlugSet;
  }

  lemma PutNothing(c: Client, now: Time)
    requires c.op.ref.Some? && (c.phase.Putting? || c.phase.PutCheck?)
    ensures NothingToDelete(AfterPut(c, now))
  {
    hide Storable;
    hide ValidArticle;
    hide Saved;
  }

  lemma GetNothing(s: Store, c: Client, answer: Answer, now: Time)
    requires GetPhase(c.phase) && (!c.phase.Read? ==> c.op.desired.Some?) && (c.phase.Read? ==> c.op.ref.None?)
    ensures NothingToDelete(GetStep(c, s, answer, now))
  {
    hide AfterRead;
    hide AfterReread;
    hide Holds;
    hide SlugSet;
    hide SlugMap;
    hide RecordFor;
    if c.phase.Read? {
      ReadNothing(c, answer, now);
    } else if c.phase.Reread? {
      RereadNothing(c, answer);
    }
  }

  /** The check finds that the upload is lost. */
  ghost predicate Loses(w: World, step: Step)
    requires Enabled(w, step)
  {
    step.CheckUpload? && !step.fails && w.clients[step.client].op.ref.value.blobName !in w.store.blobs
  }

  lemma QuietNothing(w: World, step: Step)
    requires Enabled(w, step) && IsReadOnly(step) && !Loses(w, step)
    requires w.clients[step.client].phase.Read? ==> w.clients[step.client].op.ref.None?
    ensures NothingToDelete(ReadOnly(w, step))
  {
    hide GetStep;
    hide AfterPut;
    hide Holds;
    hide RecordFor;
    hide SlugMap;
    hide SlugSet;
    var c := w.clients[step.client];
    if step.Get? {
      GetNothing(w.store, c, step.answer, step.now);
    } else if step.CheckUpload? {
      PutNothing(c, step.now);
    }
    hide AnswerOk;
  }

  lemma UploadNothing(w: World, step: Step)
    requires Enabled(w, step) && step.Upload? && w.clients[step.client].op.ref.None?
    ensures step.client in UploadStep(w, step).clients && NothingToDelete(UploadStep(w, step).clients[step.client])
  {
    hide AfterPut;
    hide Abandon;
    var c := w.clients[step.client];
    PutNothing(c.(op := c.op.(ref := Some(step.newRef))), step.now);
  }

  lemma PlainNothing(w: World, step: Step)
    requires Enabled(w, step) && (step.Start? || step.Commit?)
    ensures step.client in Next(w, step).clients && NothingToDelete(Next(w, step).clients[step.client])
    ensures !Next(w, step).clients[step.client].phase.DropOld?
    ensures step.Start? ==> !Next(w, step).clients[step.client].phase.Finished?
  {
    hide Applied;
    hide BatchFits;
    hide Abandon;
    hide ReadClock;
  }

  /** What the phase says of the uploaded body. */
  lemma NoBodyYet(w: World, i: nat)
    requires WorldOk(w) && i in w.clients
    ensures w.clients[i].phase.Read? || w.clients[i].phase.Putting? ==> w.clients[i].op.ref.None?
  {
    hide StoreOk;
    hide WorldOk;
    WorldClient(w, i);
    hide OpOk;
  }

  lemma OwnNothing(w: World, step: Step)
    requires WorldOk(w) && Enabled(w, step) && !step.Migrate? && !step.DeleteBody? && !Loses(w, step)
    ensures step.client in Next(w, step).clients && NothingToDelete(Next(w, step).clients[step.client])
  {
    hide NothingToDelete;
    hide WorldOk;
    if IsReadOnly(step) {
      NoBodyYet(w, step.client);
      QuietNothing(w, step);
      NextReadOnly(w, step);
      hide Next;
      hide Enabled;
      hide ReadOnly;
    } else if step.Upload? {
      NoBodyYet(w, step.client);
      UploadNothing(w, step);
      assert Next(w, step) == UploadStep(w, step);
      hide Next;
      hide UploadStep;
    } else {
      PlainNothing(w, step);
    }
  }

  /** The deletion is of the uploaded body after a failure, and of the replaced one after a success. */
  lemma DeletesRight(w: World, step: Step)
    requires Enabled(w, step) && step.DeleteBody?
    ensures step.client in w.clients && step.client in Next(w, step).clients
    ensures var c, c' := w.clients[step.client], Next(w, step).clients[step.client];
            && c'.op == c.op && c'.phase.Finished?
            && if c.phase.Discard? then
                 && c'.phase.outcome == Err(c.phase.error) && c.op.ref.Some?
                 && Without(w.store.blobs, step, c.op.ref.value.blobName, Next(w, step).store.blobs)
               else
                 && c.phase.DropOld? && c'.phase.outcome.Ok? && c.op.base.Some? && c.op.base.value.article.draftBody.Some?
                 && Without(w.store.blobs, step, c.op.base.value.article.draftBody.value.blobName, Next(w, step).store.blobs)
  {
  }

  lemma LosesOut(w: World, step: Step)
    requires Enabled(w, step) && Loses(w, step)
    ensures step.client in w.clients && step.client in Next(w, step).clients
    ensures var c, c' := w.clients[step.client], Next(w, step).clients[step.client];
            c'.op == c.op && c.op.ref.Some? && c'.phase == Finished(Err(Storage))
  {
    hide AfterPut;
    hide Abandon;
    hide ReadClock;
  }

  lemma NotDeletedLonger(steps: seq<Step>, i: nat)
    requires steps != [] && NoDeletion(steps[..|steps| - 1], i) && !Deletes(steps[|steps| - 1], i)
    ensures NoDeletion(steps, i)
  {
    var n := |steps| - 1;
    forall j | 0 <= j < |steps| ensures !Deletes(steps[j], i) {
      assert j < n ==> steps[j] == steps[..n][j];
    }
  }

  lemma DeletedLonger(w: World, steps: seq<Step>, i: nat, name: string)
    requires steps != [] && Possible(w, steps) && Possible(w, steps[..|steps| - 1])
    requires Deleted(w, steps[..|steps| - 1], i, name) && !Deletes(steps[|steps| - 1], i)
    ensures Deleted(w, steps, i, name)
  {
    hide Run;
    hide Possible;
    hide Without;
    hide Enabled;
    hide Next;
    var m := |steps| - 1;
    var n: nat :| DeletedAt(w, steps[..m], i, name, n);
    assert steps[..m][..n] == steps[..n];
    forall j | 0 <= j < |steps| && j != n ensures !Deletes(steps[j], i) {
      assert j < m ==> steps[j] == steps[..m][j];
    }
    assert DeletedAt(w, steps, i, name, n);
  }

  lemma LostLonger(w: World, steps: seq<Step>, i: nat, name: string)
    requires steps != [] && Possible(w, steps) && Possible(w, steps[..|steps| - 1]) && Lost(w, steps[..|steps| - 1], i, name)
    ensures Lost(w, steps, i, name)
  {
    hide Run;
    hide Possible;
    var m := |steps| - 1;
    var n: nat :| LostAt(w, steps[..m], i, name, n);
    assert steps[..m][..n] == steps[..n];
    assert LostAt(w, steps, i, name, n);
  }

  /** Steps of others change nothing about it. */
  lemma OthersCleanedUp(w: World, steps: seq<Step>, i: nat)
    requires steps != [] && Possible(w, steps) && Possible(w, steps[..|steps| - 1])
    requires i in Run(w, steps).clients && i in Run(w, steps[..|steps| - 1]).clients
    requires Run(w, steps).clients[i] == Run(w, steps[..|steps| - 1]).clients[i]
    requires CleanedUp(w, steps[..|steps| - 1], i) && !Takes(steps[|steps| - 1], i)
    ensures CleanedUp(w, steps, i)
  {
    hide Run;
    hide Possible;
    hide Deleted;
    hide Lost;
    hide NoDeletion;
    var c := Run(w, steps).clients[i];
    if NoDeletion(steps[..|steps| - 1], i) {
      NotDeletedLonger(steps, i);
    }
    if c.phase.Finished? && c.phase.outcome.Ok? && Replaces(c.op) {
      DeletedLonger(w, steps, i, c.op.base.value.article.draftBody.value.blobName);
    }
    if c.phase.Finished? && c.phase.outcome.Err? && c.op.ref.Some? {
      var name := c.op.ref.value.blobName;
      if Deleted(w, steps[..|steps| - 1], i, name) {
        DeletedLonger(w, steps, i, name);
      }
      if Lost(w, steps[..|steps| - 1], i, name) {
        LostLonger(w, steps, i, name);
      }
    }
    hide Replaces;
  }

  lemma DeletedNow(w: World, steps: seq<Step>, i: nat, name: string)
    requires steps != [] && Possible(w, steps) && Possible(w, steps[..|steps| - 1])
    requires var n := |steps| - 1; var prev := Run(w, steps[..n]);
             && NoDeletion(steps[..n], i) && Deletes(steps[n], i) && Enabled(prev, steps[n])
             && Without(prev.store.blobs, steps[n], name, Next(prev, steps[n]).store.blobs)
    ensures Deleted(w, steps, i, name)
  {
    hide Run;
    hide Possible;
    hide Enabled;
    hide Next;
    hide Without;
    var n := |steps| - 1;
    forall j | 0 <= j < |steps| && j != n ensures !Deletes(steps[j], i) {
      assert steps[j] == steps[..n][j];
    }
    assert DeletedAt(w, steps, i, name, n);
  }

  /** A step of the client's own, other than its start. */
  lemma OwnCleanedUp(w: World, steps: seq<Step>, i: nat)
    requires steps != [] && Possible(w, steps) && Possible(w, steps[..|steps| - 1])
    requires var n := |steps| - 1; var prev := Run(w, steps[..n]);
             && WorldOk(prev) && Enabled(prev, steps[n]) && Run(w, steps) == Next(prev, steps[n])
             && Takes(steps[n], i) && i in prev.clients && CleanedUp(w, steps[..n], i) && !prev.clients[i].phase.Finished?
    ensures i in Run(w, steps).clients && CleanedUp(w, steps, i)
  {
    hide Run;
    hide Possible;
    hide Enabled;
    hide Next;
    hide WorldOk;
    hide Without;
    hide NoDeletion;
    hide Deleted;
    hide Lost;
    var n := |steps| - 1;
    var prev, step := Run(w, steps[..n]), steps[n];
    var c := prev.clients[i];
    if step.DeleteBody? {
      DeletesRight(prev, step);
      WorldDiscards(prev, i);
      var name := if c.phase.Discard? then c.op.ref.value.blobName else c.op.base.value.article.draftBody.value.blobName;
      DeletedNow(w, steps, i, name);
    } else {
      NotDeletedLonger(steps, i);
      if Loses(prev, step) {
        LosesOut(prev, step);
        LostNow(w, steps, i);
      } else {
        OwnNothing(prev, step);
      }
    }
    hide Replaces;
  }

  lemma LostNow(w: World, steps: seq<Step>, i: nat)
    requires steps != [] && Possible(w, steps) && Possible(w, steps[..|steps| - 1])
    requires var n := |steps| - 1; var prev := Run(w, steps[..n]);
             Enabled(prev, steps[n]) && Loses(prev, steps[n]) && steps[n].client == i && i in prev.clients && prev.clients[i].op.ref.Some?
    ensures Lost(w, steps, i, Run(w, steps[..|steps| - 1]).clients[i].op.ref.value.blobName)
  {
    hide Run;
    hide Possible;
    hide Enabled;
    var n := |steps| - 1;
    assert LostAt(w, steps, i, Run(w, steps[..n]).clients[i].op.ref.value.blobName, n);
  }

  lemma PhaseDiscards(s: Store, c: Client)
    requires ClientOk(s, c)
    ensures c.phase.Discard? ==> c.phase.error != CommitUnknown && c.op.ref.Some?
  {
    hide OpOk;
    hide SlugsPhaseOk;
  }

  lemma WorldDiscards(w: World, i: nat)
    requires WorldOk(w) && i in w.clients
    ensures w.clients[i].phase.Discard? ==> w.clients[i].phase.error != CommitUnknown && w.clients[i].op.ref.Some?
  {
    hide StoreOk;
    hide ClientOk;
    WorldClient(w, i);
    hide WorldOk;
    PhaseDiscards(w.store, w.clients[i]);
  }

  /** A client that has ended takes no step any more. */
  lemma EndedTakesNoStep(w: World, step: Step)
    requires Enabled(w, step) && !step.Migrate? && step.client in w.clients
    ensures !w.clients[step.client].phase.Finished?
  {
    hide AnswerOk;
    hide BatchFits;
  }

  lemma {:induction false} NeverDeleted(w: World, steps: seq<Step>, i: nat)
    requires Possible(w, steps) && i !in Run(w, steps).clients
    ensures NoDeletion(steps, i)
    decreases |steps|
  {
    hide Enabled;
    hide Next;
    if steps != [] {
      var n := |steps| - 1;
      RunLast(w, steps);
      var prev := Run(w, steps[..n]);
      hide Run;
      hide Possible;
      ClientsStay(prev, steps[n], i);
      NeverDeleted(w, steps[..n], i);
      if Deletes(steps[n], i) {
        DeletesRight(prev, steps[n]);
        assert false;
      }
      NotDeletedLonger(steps, i);
    }
  }

  lemma {:induction false} RunCleanedUp(w: World, steps: seq<Step>, i: nat)
    requires Init(w) && Possible(w, steps) && i in Run(w, steps).clients
    ensures CleanedUp(w, steps, i)
    decreases |steps|
  {
    hide Init;
    hide Enabled;
    hide Next;
    hide WorldOk;
    hide StoreOk;
    hide CleanedUp;
    if steps != [] {
      var n := |steps| - 1;
      RunLast(w, steps);
      RunInvariant(w, steps[..n]);
      var prev := Run(w, steps[..n]);
      hide Run;
      hide Possible;
      if i in prev.clients {
        RunCleanedUp(w, steps[..n], i);
        if Takes(steps[n], i) {
          EndedTakesNoStep(prev, steps[n]);
          OwnCleanedUp(w, steps, i);
        } else {
          OthersUntouched(prev, steps[n], i);
          OthersCleanedUp(w, steps, i);
        }
      } else {
        StartsFresh(prev, steps[n], i);
        NeverDeleted(w, steps[..n], i);
        StartCleanedUp(w, steps, i);
      }
    } else {
      NoClients(w);
    }
  }

  lemma StartCleanedUp(w: World, steps: seq<Step>, i: nat)
    requires steps != [] && Possible(w, steps) && NoDeletion(steps[..|steps| - 1], i)
    requires Possible(w, steps[..|steps| - 1]) && Enabled(Run(w, steps[..|steps| - 1]), steps[|steps| - 1])
    requires steps[|steps| - 1].Start? && steps[|steps| - 1].client == i
    requires Run(w, steps) == Next(Run(w, steps[..|steps| - 1]), steps[|steps| - 1])
    ensures i in Run(w, steps).clients && CleanedUp(w, steps, i)
  {
    hide Run;
    hide Possible;
    hide NoDeletion;
    hide Deleted;
    hide Lost;
    NotDeletedLonger(steps, i);
    PlainNothing(Run(w, steps[..|steps| - 1]), steps[|steps| - 1]);
    hide Next;
    hide Enabled;
  }

  /**
    Which body an operation deletes, over every run: after a success the draft
    body that a save replaced, unless it is published; after a definite failure
    the body that was uploaded, unless the check after the upload did not find it; and nothing otherwise,
    in particular nothing when the outcome is unknown.
   */
  lemma BodiesAreCleanedUp(w: World, steps: seq<Step>, i: nat, outcome: Result<Article>)
    requires Init(w) && Possible(w, steps) && Answered(w, steps, i, outcome)
    ensures var o := Run(w, steps).clients[i].op;
            if outcome.Ok? then
              if o.request.SaveDraft? && o.base.Some? && o.base.value.article.draftBody.Some? &&
                 o.base.value.article.draftBody != o.base.value.article.publishedBody
              then Deleted(w, steps, i, o.base.value.article.draftBody.value.blobName)
              else NoDeletion(steps, i)
            else if outcome.error == CommitUnknown || o.ref.None? then NoDeletion(steps, i)
            else
              || Deleted(w, steps, i, o.ref.value.blobName)
              || (NoDeletion(steps, i) && Lost(w, steps, i, o.ref.value.blobName))
  {
    hide Init;
    hide Run;
    hide Possible;
    hide Deleted;
    hide Lost;
    hide NoDeletion;
    RunCleanedUp(w, steps, i);
  }

  // ----- What a success has seen -----

  /** The n-th step is the client's look at the slug row, which is as it should be with this version. */
  ghost predicate SeenAt(w: World, steps: seq<Step>, i: nat, a: Article, x: Slug, n: nat)
    requires Possible(w, steps)
  {
    && n < |steps| && steps[n] == VerifySlug(i, x, false) && Possible(w, steps[..n])
    && AsItShould(Run(w, steps[..n]).store.slugs, a, x)
  }

  predicate AsItShould(slugs: map<Slug, SlugRow>, a: Article, x: Slug) {
    if Reserves(a, x) then x in slugs && slugs[x].record == RecordFor(a, x) else x !in slugs
  }

  ghost predicate Seen(w: World, steps: seq<Step>, i: nat, a: Article, x: Slug)
    requires Possible(w, steps)
  {
    exists n: nat :: SeenAt(w, steps, i, a, x, n)
  }

  ghost predicate AllSeen(w: World, steps: seq<Step>, i: nat, o: Op)
    requires Possible(w, steps)
  {
    o.desired.Some? && forall x | Concerns(o, x) :: Seen(w, steps, i, o.desired.value, x)
  }

  predicate Succeeding(c: Client) {
    c.phase.DropOld? || (c.phase.Finished? && c.phase.outcome.Ok?)
  }

  predicate Verifying(c: Client) { c.phase.Verify? && c.phase.goal.IsDesired? }

  predicate Pending(c: Client, x: Slug)
    requires c.phase.Verify?
  {
    x in c.phase.present || x in c.phase.absent
  }

  /** What is still to be looked at is looked at for the right thing. */
  predicate LooksRight(c: Client)
    requires c.phase.Verify? && c.op.desired.Some?
  {
    && (forall x | x in c.phase.present :: Reserves(c.op.desired.value, x) && c.phase.present[x] == RecordFor(c.op.desired.value, x))
    && (forall x | x in c.phase.absent :: !Reserves(c.op.desired.value, x))
  }

  /** Nothing has been looked at yet. */
  ghost predicate LooksAtAll(c: Client) {
    c.phase.Verify? && c.op.desired.Some? && LooksRight(c) && forall x | Concerns(c.op, x) :: Pending(c, x)
  }

  ghost predicate Observed(w: World, steps: seq<Step>, i: nat, c: Client)
    requires Possible(w, steps)
  {
    && (Succeeding(c) ==> AllSeen(w, steps, i, c.op))
    && (Verifying(c) ==> c.op.desired.Some? && LooksRight(c) &&
                         forall x | Concerns(c.op, x) :: Pending(c, x) || Seen(w, steps, i, c.op.desired.value, x))
  }

  lemma DesiredLooksAtAll(c: Client, s: Store)
    requires c.op.desired.Some?
    ensures LooksAtAll(VerifyDesired(c, s)) && VerifyDesired(c, s).op == c.op
  {
    hide Holds;
    SlugMapIs(c.op.desired.value);
    if c.op.prior.Some? {
      SlugMapIs(c.op.prior.value.article);
    }
  }

  /** Where the checks begin. */
  lemma GetLooks(s: Store, c: Client, answer: Answer, now: Time)
    requires GetPhase(c.phase) && (!c.phase.Read? ==> c.op.desired.Some?)
    ensures var c' := GetStep(c, s, answer, now); !Succeeding(c') && (Verifying(c') ==> LooksAtAll(c'))
  {
    if c.op.desired.Some? {
      DesiredLooksAtAll(c, s);
    }
    if c.phase.Read? {
      ReadNoVerify(c, answer, now);
    } else if c.phase.Reread? {
      RereadNoVerify(c, answer);
    }
    hide AfterRead;
    hide AfterReread;
    hide VerifyDesired;
    hide LooksAtAll;
    hide SlugSet;
    hide SlugMap;
    hide RecordFor;
    hide Holds;
  }

  lemma ReadNoVerify(c: Client, answer: Answer, now: Time)
    requires c.phase.Read?
    ensures var c' := AfterRead(c, answer, now); !Succeeding(c') && !Verifying(c')
  {
    hide PublishedFrom;
    hide WithdrawnFrom;
    hide ValidArticle;
    hide ValidTransition;
  }

  lemma RereadNoVerify(c: Client, answer: Answer)
    requires c.op.desired.Some? && c.phase.Reread?
    ensures var c' := AfterReread(c, answer); !Succeeding(c') && !Verifying(c')
  {
    hide PermanenceError;
    hide Storable;
    hide KeyFits;
    hide SlugSet;
  }

  lemma PutNoVerify(c: Client, now: Time)
    requires c.op.ref.Some? && (c.phase.Putting? || c.phase.PutCheck?)
    ensures var c' := AfterPut(c, now); !Succeeding(c') && !Verifying(c')
  {
    hide Storable;
    hide ValidArticle;
    hide Saved;
  }

  lemma LegacyLooks(s: Store, c: Client, fails: bool)
    requires c.phase.ReconcileLegacy? && c.op.desired.Some?
    ensures var c' := AfterCheckLegacy(c, s, fails); !Succeeding(c') && (Verifying(c') ==> LooksAtAll(c'))
  {
    DesiredLooksAtAll(c, s);
    hide SlugSet;
    hide SlugMap;
    hide Holds;
    hide RecordFor;
  }

  lemma QuietLooks(w: World, step: Step)
    requires Enabled(w, step) && IsReadOnly(step) && !step.VerifySlug? && !step.Verified?
    ensures var c' := ReadOnly(w, step); !Succeeding(c') && (Verifying(c') ==> LooksAtAll(c'))
  {
    var c := w.clients[step.client];
    if step.Get? {
      GetLooks(w.store, c, step.answer, step.now);
    } else if step.CheckUpload? {
      PutNoVerify(c, step.now);
    } else if step.CheckLegacy? {
      LegacyLooks(w.store, c, step.fails);
    }
    hide GetStep;
    hide AfterPut;
    hide AfterCheckLegacy;
    hide LooksAtAll;
    hide RecordFor;
    hide SlugSet;
    hide AnswerOk;
  }

  /** Other steps than these reads begin no check and end none, except that a deletion ends a success. */
  lemma PlainLooks(w: World, step: Step)
    requires Enabled(w, step) && (step.Start? || step.Commit? || step.DeleteBody?)
    ensures step.client in Next(w, step).clients
    ensures var c' := Next(w, step).clients[step.client];
            && !Verifying(c')
            && (Succeeding(c') ==> step.DeleteBody? && w.clients[step.client].phase.DropOld? && c'.op == w.clients[step.client].op)
  {
    hide Applied;
    hide BatchFits;
    hide Abandon;
    hide ReadClock;
  }

  lemma UploadLooks(w: World, step: Step)
    requires Enabled(w, step) && step.Upload?
    ensures step.client in UploadStep(w, step).clients
    ensures var c' := UploadStep(w, step).clients[step.client]; !Verifying(c') && !Succeeding(c')
  {
    hide AfterPut;
    hide Abandon;
    var c := w.clients[step.client];
    PutNoVerify(c.(op := c.op.(ref := Some(step.newRef))), step.now);
  }

  /** One look: the slug is no longer pending, and the row was as it should be. */
  lemma LookStep(c: Client, slugs: map<Slug, SlugRow>, x: Slug, fails: bool)
    requires Verifying(c) && c.op.desired.Some? && LooksRight(c) && Pending(c, x)
    ensures var c' := AfterVerifySlug(c, slugs, x, fails);
            && c'.op == c.op && !Succeeding(c')
            && (Verifying(c') ==> !fails && LooksRight(c') && AsItShould(slugs, c.op.desired.value, x) &&
                                  forall y | Pending(c, y) :: Pending(c', y) || y == x)
  {
    hide RecordFor;
  }

  lemma SeenLonger(w: World, steps: seq<Step>, m: nat, i: nat, a: Article, x: Slug)
    requires Possible(w, steps) && m <= |steps| && Possible(w, steps[..m]) && Seen(w, steps[..m], i, a, x)
    ensures Seen(w, steps, i, a, x)
  {
    hide Run;
    hide Possible;
    hide AsItShould;
    var n: nat :| SeenAt(w, steps[..m], i, a, x, n);
    assert steps[..m][..n] == steps[..n];
    assert SeenAt(w, steps, i, a, x, n);
  }

  lemma ObservedLonger(w: World, steps: seq<Step>, i: nat, c: Client)
    requires steps != [] && Possible(w, steps) && Possible(w, steps[..|steps| - 1]) && Observed(w, steps[..|steps| - 1], i, c)
    ensures Observed(w, steps, i, c)
  {
    hide Run;
    hide Possible;
    hide Seen;
    hide Concerns;
    hide Pending;
    hide LooksRight;
    var n := |steps| - 1;
    if c.op.desired.Some? {
      forall x | Seen(w, steps[..n], i, c.op.desired.value, x) ensures Seen(w, steps, i, c.op.desired.value, x) {
        SeenLonger(w, steps, n, i, c.op.desired.value, x);
      }
    }
  }

  lemma LookObserved(w: World, steps: seq<Step>, i: nat, c: Client, c': Client)
    requires steps != [] && Possible(w, steps) && Possible(w, steps[..|steps| - 1])
    requires Observed(w, steps, i, c) && Verifying(c)
    requires var step := steps[|steps| - 1]; var s := Run(w, steps[..|steps| - 1]).store;
             && step.VerifySlug? && step.client == i && Pending(c, step.slug)
             && c' == AfterVerifySlug(c, s.slugs, step.slug, step.fails)
    ensures Observed(w, steps, i, c')
  {
    hide Run;
    hide Possible;
    hide AsItShould;
    hide Concerns;
    hide AfterVerifySlug;
    hide LooksRight;
    hide Pending;
    var n := |steps| - 1;
    var s, x := Run(w, steps[..n]).store, steps[n].slug;
    LookStep(c, s.slugs, x, steps[n].fails);
    if Verifying(c') {
      assert SeenAt(w, steps, i, c.op.desired.value, x, n);
    }
  }

  lemma VerifiedObserved(w: World, steps: seq<Step>, i: nat, c: Client)
    requires Possible(w, steps) && Observed(w, steps, i, c) && c.phase.Verify? && c.op.desired.Some?
    requires c.phase.present == map[] && c.phase.absent == {}
    ensures Observed(w, steps, i, AfterVerified(c))
  {
    hide Run;
    hide Possible;
    hide Concerns;
    hide Seen;
  }

  lemma BegunObserved(w: World, steps: seq<Step>, i: nat, c: Client)
    requires Possible(w, steps) && !Succeeding(c) && (Verifying(c) ==> LooksAtAll(c))
    ensures Observed(w, steps, i, c)
  {
    hide Run;
    hide Possible;
    hide Concerns;
    hide Pending;
    hide LooksRight;
  }

  /** A look for the replaced version leads to no success. */
  lemma PriorLook(c: Client, slugs: map<Slug, SlugRow>, x: Slug, fails: bool)
    requires c.phase.Verify? && c.phase.goal.IsPrior?
    ensures var c' := AfterVerifySlug(c, slugs, x, fails); !Succeeding(c') && !Verifying(c')
  {
  }

  lemma QuietObserved(w: World, steps: seq<Step>, i: nat)
    requires steps != [] && Possible(w, steps) && Possible(w, steps[..|steps| - 1])
    requires var n := |steps| - 1; var prev := Run(w, steps[..n]);
             Enabled(prev, steps[n]) && IsReadOnly(steps[n]) && steps[n].client == i && Observed(w, steps, i, prev.clients[i])
    ensures Observed(w, steps, i, ReadOnly(Run(w, steps[..|steps| - 1]), steps[|steps| - 1]))
  {
    hide Run;
    hide Possible;
    hide Observed;
    hide LooksAtAll;
    hide GetStep;
    hide AfterPut;
    hide AfterCheckLegacy;
    hide AfterVerifySlug;
    hide AfterVerified;
    hide AnswerOk;
    var n := |steps| - 1;
    var prev, step := Run(w, steps[..n]), steps[n];
    var c := prev.clients[i];
    if step.VerifySlug? {
      if c.phase.goal.IsDesired? {
        LookObserved(w, steps, i, c, ReadOnly(prev, step));
      } else {
        PriorLook(c, prev.store.slugs, step.slug, step.fails);
        BegunObserved(w, steps, i, ReadOnly(prev, step));
      }
    } else if step.Verified? {
      VerifiedObserved(w, steps, i, c);
    } else {
      QuietLooks(prev, step);
      BegunObserved(w, steps, i, ReadOnly(prev, step));
    }
  }

  lemma OwnObserved(w: World, steps: seq<Step>, i: nat)
    requires steps != [] && Possible(w, steps) && Possible(w, steps[..|steps| - 1])
    requires var n := |steps| - 1; var prev := Run(w, steps[..n]);
             && Enabled(prev, steps[n]) && Takes(steps[n], i) && Run(w, steps) == Next(prev, steps[n])
             && (i in prev.clients ==> Observed(w, steps, i, prev.clients[i]))
    ensures i in Run(w, steps).clients && Observed(w, steps, i, Run(w, steps).clients[i])
  {
    hide Run;
    hide Possible;
    hide Observed;
    hide LooksAtAll;
    var n := |steps| - 1;
    var prev, step := Run(w, steps[..n]), steps[n];
    if IsReadOnly(step) {
      QuietObserved(w, steps, i);
      NextReadOnly(prev, step);
      hide Next;
      hide Enabled;
      hide ReadOnly;
    } else if step.Upload? {
      UploadLooks(prev, step);
      assert Next(prev, step) == UploadStep(prev, step);
      hide Next;
      hide UploadStep;
      BegunObserved(w, steps, i, Run(w, steps).clients[i]);
    } else {
      PlainLooks(prev, step);
      hide Next;
      hide Enabled;
      var c' := Run(w, steps).clients[i];
      if Succeeding(c') {
        DeletedObserved(w, steps, i, prev.clients[i], c');
      } else {
        BegunObserved(w, steps, i, c');
      }
    }
  }

  lemma DeletedObserved(w: World, steps: seq<Step>, i: nat, c: Client, c': Client)
    requires Possible(w, steps) && Observed(w, steps, i, c) && c.phase.DropOld? && Succeeding(c') && !Verifying(c') && c'.op == c.op
    ensures Observed(w, steps, i, c')
  {
    hide AllSeen;
  }

  lemma {:induction false} RunObserved(w: World, steps: seq<Step>, i: nat)
    requires Init(w) && Possible(w, steps) && i in Run(w, steps).clients
    ensures Observed(w, steps, i, Run(w, steps).clients[i])
    decreases |steps|
  {
    hide Init;
    hide Enabled;
    hide Next;
    hide Observed;
    if steps != [] {
      var n := |steps| - 1;
      RunLast(w, steps);
      var prev := Run(w, steps[..n]);
      hide Run;
      hide Possible;
      if i in prev.clients {
        RunObserved(w, steps[..n], i);
        ObservedLonger(w, steps, i, prev.clients[i]);
      }
      if Takes(steps[n], i) {
        OwnObserved(w, steps, i);
      } else {
        OthersUntouched(prev, steps[n], i);
      }
    } else {
      NoClients(w);
    }
  }

  /**
    Before a success the client has looked at every slug of the new version and of
    the one that it replaced: over every run, each was found reserved exactly as the
    new version needs it, and each that the new version gave up was found free.
   */
  lemma SuccessHasSeenTheSlugs(w: World, steps: seq<Step>, i: nat, a: Article)
    requires Init(w) && Possible(w, steps) && Answered(w, steps, i, Ok(a))
    ensures var o := Run(w, steps).clients[i].op;
            forall x | Reserves(a, x) || (o.prior.Some? && Reserves(o.prior.value.article, x)) :: Seen(w, steps, i, a, x)
  {
    hide Init;
    hide Seen;
    RunObserved(w, steps, i);
    RunExplained(w, steps, i);
    hide Run;
    hide Possible;
    hide HeldDuring;
    hide Reserves;
  }
}
