/**
  A batch whose outcome the driver does not know: what the reads after it come
  to, for a creation, an update in place and the move of a legacy row.
  refreshCommitted, reconcileCreate, reconcileUpdate,
  reconcileCompatLegacyUpdate and slugStateMatches of
  internal/storage/azure/articles.go.
 */
module ArticleReconcile {
  import opened Outcomes
  import opened ArticleModel
  import opened ArticleTable
  import opened ArticleProtocol
  import opened ArticleInvariant
  import opened ArticleSteps
  import opened ArticleCommits
  import opened ArticleTheorems
  import opened ArticleOutcomes

  // ----- Failed reads and interfering writes -----

  /** A read of client i that fails. */
  predicate FailsToRead(step: Step, i: nat) {
    Takes(step, i) &&
    match step
    case Get(_, answer, _) => answer.ReadFailed?
    case CheckUpload(_, _, fails) => fails
    case ReadSlug(_, _, fails) => fails
    case CheckLegacy(_, fails) => fails
    case VerifySlug(_, _, fails) => fails
    case _ => false
  }

  predicate ReadsWell(steps: seq<Step>, i: nat) {
    forall j | 0 <= j < |steps| :: !FailsToRead(steps[j], i)
  }

  /** The slugs of the new version and of the one that it replaces. */
  predicate Concerns(o: Op, x: Slug)
    requires o.desired.Some?
  {
    Reserves(o.desired.value, x) || (o.prior.Some? && Reserves(o.prior.value.article, x))
  }

  ghost predicate SameRowAt(s: Store, s': Store, k: Key) {
    (k in s.rows <==> k in s'.rows) && (k in s.rows ==> s'.rows[k] == s.rows[k])
  }

  ghost predicate SameSlugAt(s: Store, s': Store, x: Slug) {
    (x in s.slugs <==> x in s'.slugs) && (x in s.slugs ==> s'.slugs[x] == s.slugs[x])
  }

  /** The rows of the article and the rows of its slugs are the same. */
  ghost predicate SameSlice(s: Store, s': Store, o: Op)
    requires o.desired.Some?
  {
    && (forall k: Key | k.id == RequestId(o.request) :: SameRowAt(s, s', k))
    && (forall x | Concerns(o, x) :: SameSlugAt(s, s', x))
  }

  /** Nobody else writes a row of the article, or of one of its slugs. */
  ghost predicate Undisturbed(w: World, steps: seq<Step>, i: nat, o: Op)
    requires Possible(w, steps) && o.desired.Some?
    decreases |steps|
  {
    steps == [] ||
    ((Takes(steps[0], i) || SameSlice(w.store, Next(w, steps[0]).store, o)) && Undisturbed(Next(w, steps[0]), steps[1..], i, o))
  }

  /** The replaced version is still there, and the slugs that are new to the article are free. */
  ghost predicate StillAsRead(s: Store, o: Op)
    requires o.desired.Some?
  {
    o.prior.Some? ==>
      && o.prior.value.key in s.rows && s.rows[o.prior.value.key] == o.prior.value
      && forall x | Reserves(o.desired.value, x) && !Reserves(o.prior.value.article, x) :: x !in s.slugs
  }

  predicate Moving(o: Op) { o.prior.Some? && o.mode.Compat? && o.prior.value.key.LegacyKey? }

  /** The update would leave everything of the stored version as it is. */
  predicate ChangesNothing(o: Op)
    requires o.desired.Some?
  {
    o.prior.Some? && o.prior.value.article == o.desired.value && !Moving(o)
  }

  /** The answer that tells the truth about the batch. */
  function TrueAnswer(o: Op, applied: bool): Result<Article>
    requires o.desired.Some?
  {
    if applied || ChangesNothing(o) then Ok(o.desired.value) else Err(Storage)
  }

  // ----- How the replaced version was found -----

  /** The second read is made in compatibility mode only; otherwise the query found the version. */
  predicate FoundWell(c: Client) {
    && (GetPhase(c.phase) && c.phase.again ==> c.op.mode.Compat?)
    && (c.op.prior.Some? && c.op.mode.CurrentOnly? ==> Listed(c.op.prior.value, IdOf(c)))
  }

  lemma ReadFoundWell(c: Client, answer: Answer, now: Time)
    requires FoundWell(c) && c.phase.Read?
    ensures FoundWell(AfterRead(c, answer, now))
  {
    hide PublishedFrom;
    hide WithdrawnFrom;
    hide ValidArticle;
    hide ValidTransition;
  }

  lemma RereadFoundWell(s: Store, c: Client, answer: Answer)
    requires FoundWell(c) && c.phase.Reread? && c.op.desired.Some? && AnswerOk(s.rows, IdOf(c), c.phase.again, answer)
    ensures FoundWell(AfterReread(c, answer))
  {
    hide PermanenceError;
    hide Storable;
    hide KeyFits;
    hide SlugSet;
  }

  lemma GetFoundWell(s: Store, c: Client, answer: Answer, now: Time)
    requires FoundWell(c) && GetPhase(c.phase) && (!c.phase.Read? ==> c.op.desired.Some?)
    requires AnswerOk(s.rows, IdOf(c), c.phase.again, answer)
    ensures FoundWell(GetStep(c, s, answer, now))
  {
    hide AnswerOk;
    hide AfterRead;
    hide AfterReread;
    hide Holds;
    hide SlugSet;
    hide SlugMap;
    hide RecordFor;
    if c.phase.Read? {
      ReadFoundWell(c, answer, now);
    } else if c.phase.Reread? {
      RereadFoundWell(s, c, answer);
    }
  }

  lemma PutFoundWell(c: Client, now: Time)
    requires FoundWell(c) && c.op.ref.Some? && !GetPhase(c.phase)
    ensures FoundWell(AfterPut(c, now))
  {
    hide Storable;
    hide ValidArticle;
    hide Saved;
  }

  lemma QuietFoundWell(w: World, step: Step)
    requires Enabled(w, step) && IsReadOnly(step) && FoundWell(w.clients[step.client])
    ensures FoundWell(ReadOnly(w, step))
  {
    hide GetStep;
    hide AfterPut;
    hide Holds;
    hide RecordFor;
    hide SlugMap;
    hide SlugSet;
    var c := w.clients[step.client];
    if step.Get? {
      GetFoundWell(w.store, c, step.answer, step.now);
    } else if step.CheckUpload? {
      PutFoundWell(c, step.now);
    }
    hide AnswerOk;
  }

  lemma UploadFoundWell(w: World, step: Step)
    requires Enabled(w, step) && step.Upload? && FoundWell(w.clients[step.client])
    ensures step.client in UploadStep(w, step).clients && FoundWell(UploadStep(w, step).clients[step.client])
  {
    hide AfterPut;
    hide Abandon;
    var c := w.clients[step.client];
    PutFoundWell(c.(op := c.op.(ref := Some(step.newRef))), step.now);
  }

  lemma OwnFoundWell(w: World, step: Step)
    requires Enabled(w, step) && !step.Migrate?
    requires step.client in w.clients ==> FoundWell(w.clients[step.client])
    ensures step.client in Next(w, step).clients && FoundWell(Next(w, step).clients[step.client])
  {
    hide FoundWell;
    if IsReadOnly(step) {
      QuietFoundWell(w, step);
      NextReadOnly(w, step);
      hide Next;
      hide Enabled;
      hide ReadOnly;
    } else if step.Upload? {
      UploadFoundWell(w, step);
      assert Next(w, step) == UploadStep(w, step);
      hide Next;
      hide UploadStep;
    } else {
      PlainFoundWell(w, step);
    }
  }

  lemma PlainFoundWell(w: World, step: Step)
    requires Enabled(w, step) && (step.Start? || step.Commit? || step.DeleteBody?)
    requires step.client in w.clients ==> FoundWell(w.clients[step.client])
    ensures step.client in Next(w, step).clients && FoundWell(Next(w, step).clients[step.client])
  {
    hide Applied;
    hide BatchFits;
    hide Abandon;
    hide ReadClock;
  }

  lemma {:induction false} RunFoundWell(w: World, steps: seq<Step>, i: nat)
    requires Init(w) && Possible(w, steps) && i in Run(w, steps).clients
    ensures FoundWell(Run(w, steps).clients[i])
    decreases |steps|
  {
    hide Init;
    hide Enabled;
    hide Next;
    hide FoundWell;
    if steps != [] {
      var n := |steps| - 1;
      RunLast(w, steps);
      var prev := Run(w, steps[..n]);
      hide Run;
      hide Possible;
      if i in prev.clients {
        RunFoundWell(w, steps[..n], i);
      }
      if Takes(steps[n], i) {
        OwnFoundWell(prev, steps[n]);
      } else {
        OthersUntouched(prev, steps[n], i);
      }
    } else {
      NoClients(w);
    }
  }

  // ----- What the table says after the batch -----

  ghost predicate OnlyRow(s: Store, id: Id, k: Key) {
    k in s.rows && k.id == id && forall k' | k' in s.rows && k'.id == id :: k' == k
  }

  ghost predicate SlugsAre(s: Store, present: Article, absent: Article) {
    && (forall x | Reserves(present, x) :: x in s.slugs && s.slugs[x].record == RecordFor(present, x))
    && (forall x | Reserves(absent, x) && !Reserves(present, x) :: x !in s.slugs)
  }

  /** The version is in the only row of its article, where the query finds it. */
  ghost predicate StoredAt(s: Store, id: Id, k: Key, a: Article) {
    OnlyRow(s, id, k) && s.rows[k].article == a && Listed(s.rows[k], id)
  }

  /** The new version is stored, in one row that the query finds, with its slug records and none of the old ones. */
  ghost predicate Stored(s: Store, o: Op)
    requires o.desired.Some?
  {
    && (exists k :: StoredAt(s, RequestId(o.request), k, o.desired.value))
    && SlugsAre(s, o.desired.value, if o.prior.Some? then o.prior.value.article else o.desired.value)
    && (Moving(o) ==> LegacyKey(RequestId(o.request)) !in s.rows)
  }

  /** The old version is stored, or no version for a creation. */
  ghost predicate NotStored(s: Store, o: Op)
    requires o.desired.Some?
  {
    if o.prior.Some? then
      && OnlyRow(s, RequestId(o.request), o.prior.value.key) && s.rows[o.prior.value.key] == o.prior.value
      && o.prior.value.article.id == RequestId(o.request)
      && SlugsAre(s, o.prior.value.article, o.desired.value)
    else forall k | k in s.rows :: k.id != RequestId(o.request)
  }

  ghost predicate Settled(s: Store, o: Op, applied: bool)
    requires o.desired.Some?
  {
    if applied then Stored(s, o) else NotStored(s, o)
  }

  lemma SlugsAreKept(s: Store, s': Store, present: Article, absent: Article)
    requires SlugsAre(s, present, absent)
    requires forall x | Reserves(present, x) || Reserves(absent, x) :: SameSlugAt(s, s', x)
    ensures SlugsAre(s', present, absent)
  {
    hide Reserves;
    hide RecordFor;
  }

  lemma OnlyRowKept(s: Store, s': Store, id: Id, k: Key)
    requires OnlyRow(s, id, k) && forall k': Key | k'.id == id :: SameRowAt(s, s', k')
    ensures OnlyRow(s', id, k) && s'.rows[k] == s.rows[k]
  {
  }

  /** Writes elsewhere change nothing about that. */
  lemma SettledKept(s: Store, s': Store, o: Op, applied: bool)
    requires o.desired.Some? && Settled(s, o, applied) && SameSlice(s, s', o)
    ensures Settled(s', o, applied)
  {
    hide SlugsAre;
    hide OnlyRow;
    hide SameRowAt;
    hide SameSlugAt;
    hide Listed;
    var id := RequestId(o.request);
    if applied {
      SlugsAreKept(s, s', o.desired.value, if o.prior.Some? then o.prior.value.article else o.desired.value);
      var k :| StoredAt(s, id, k, o.desired.value);
      OnlyRowKept(s, s', id, k);
      assert StoredAt(s', id, k, o.desired.value);
      assert SameRowAt(s, s', LegacyKey(id));
      SameAbsent(s, s', LegacyKey(id));
    } else if o.prior.Some? {
      SlugsAreKept(s, s', o.prior.value.article, o.desired.value);
      OnlyRowKept(s, s', id, o.prior.value.key);
    } else {
      forall k | k in s'.rows ensures k.id != id {
        if k.id == id {
          SameAbsent(s, s', k);
        }
      }
    }
  }

  lemma SameAbsent(s: Store, s': Store, k: Key)
    requires SameRowAt(s, s', k)
    ensures k in s.rows <==> k in s'.rows
  {
  }

  // ----- At the batch -----

  lemma AppliedSlugs(s: Store, c: Client)
    requires Committing(s, c) && c.op.prior.Some?
    ensures c.op.desired.Some? && c.phase.Slugs?
    ensures forall x | Reserves(c.op.prior.value.article, x) && !Reserves(c.op.desired.value, x) :: x !in Applied(s, c).slugs
  {
    CommittingPlan(s, c);
    hide Committing;
    hide PlanFits;
    hide RecordFor;
    hide Reserves;
  }

  lemma PresentSlugs(s: Store, k: Key)
    requires SlugsPresent(s.rows, s.slugs) && k in s.rows
    ensures forall x | Reserves(s.rows[k].article, x) :: x in s.slugs && s.slugs[x].record == RecordFor(s.rows[k].article, x)
  {
    hide Reserves;
    hide RecordFor;
  }

  lemma UniqueRow(s: Store, k: Key)
    requires KeysOk(s.rows) && k in s.rows
    ensures OnlyRow(s, k.id, k) && s.rows[k].article.id == k.id && s.rows[k].key == k
  {
  }

  /** The row of an effective batch. */
  lemma AppliedRow(s: Store, c: Client)
    requires StoreOk(s) && Committing(s, c)
    ensures c.op.desired.Some?
    ensures var s', k := Applied(s, c), TargetKey(c);
            && KeysOk(s'.rows) && SlugsPresent(s'.rows, s'.slugs)
            && k in s'.rows && s'.rows[k] == NewRow(c, s.next) && k.id == IdOf(c) == c.op.desired.value.id
  {
    StoreParts(s);
    hide StoreOk;
    hide LogOk;
    hide KeysOk;
    hide SlugsPresent;
    hide SlugsOwned;
    hide RetiredOk;
    hide Committing;
    hide DesiredOk;
    hide PriorOk;
    hide TimeOk;
    hide RequestOk;
    hide Storable;
    hide Applied;
    CommittingPrior(s, c);
    CommittingShape(s, c);
    CommittingIndex(s, c);
    AppliedRows(s, c);
  }

  lemma AppliedStored(s: Store, c: Client)
    requires StoreOk(s) && Committing(s, c)
    ensures c.op.desired.Some? && Stored(Applied(s, c), c.op)
  {
    hide StoreOk;
    hide Committing;
    hide KeysOk;
    hide Applied;
    hide SlugsPresent;
    hide Reserves;
    hide RecordFor;
    hide OnlyRow;
    AppliedRow(s, c);
    CommittingShape(s, c);
    if c.op.prior.Some? {
      AppliedSlugs(s, c);
    }
    var s', k := Applied(s, c), TargetKey(c);
    UniqueRow(s', k);
    PresentSlugs(s', k);
    assert StoredAt(s', IdOf(c), k, c.op.desired.value);
    if Moving(c.op) {
      OtherKeyGone(s', k, LegacyKey(IdOf(c)));
    }
  }

  lemma OtherKeyGone(s: Store, k: Key, k': Key)
    requires OnlyRow(s, k.id, k) && k' != k && k'.id == k.id
    ensures k' !in s.rows
  {
  }

  lemma SlugsClientFacts(s: Store, c: Client)
    requires ClientOk(s, c) && c.phase.Slugs?
    ensures c.op.desired.Some? && !c.op.applied && (c.op.request.CreateDraft? <==> c.op.prior.None?) && PriorOk(c.op) && BaseOk(s, c.op)
  {
    hide PriorOk;
    hide BaseOk;
    hide PlanSound;
  }

  lemma RefusedNotStored(s: Store, c: Client)
    requires StoreOk(s) && ClientOk(s, c) && IdReserved(s, c) && c.phase.Slugs? && c.op.desired.Some? && StillAsRead(s, c.op)
    ensures NotStored(s, c.op)
  {
    hide StoreOk;
    hide ClientOk;
    hide PriorOk;
    hide BaseOk;
    hide KeysOk;
    hide SlugsPresent;
    hide SlugsOwned;
    hide LogOk;
    hide RetiredOk;
    hide Reserves;
    hide RecordFor;
    hide OnlyRow;
    StoreParts(s);
    SlugsClientFacts(s, c);
    if c.op.prior.Some? {
      PriorIsOfId(s, c.op);
      UniqueRow(s, c.op.prior.value.key);
      PresentSlugs(s, c.op.prior.value.key);
    }
  }

  lemma PriorIsOfId(s: Store, o: Op)
    requires PriorOk(o) && BaseOk(s, o) && o.prior.Some? && KeysOk(s.rows)
    requires o.prior.value.key in s.rows && s.rows[o.prior.value.key] == o.prior.value
    ensures o.prior.value.key.id == RequestId(o.request)
  {
    hide PermanenceError;
    hide Storable;
  }

  // ----- After the batch -----

  /** The operation, as it is once its batch was sent. */
  function Sent(o: Op, applied: bool): Op { o.(applied := applied) }

  /** Where the client may be, as long as its reads succeed and nobody interferes. */
  ghost predicate OnCourse(s: Store, c: Client, o: Op, applied: bool)
    requires o.desired.Some?
  {
    && c.op == Sent(o, applied)
    && match c.phase
       case Refresh(again) => applied && !again
       case Reconcile(again) =>
         again ==> o.mode.Compat? && !applied && (o.prior.Some? ==> !Listed(o.prior.value, RequestId(o.request)))
       case ReconcileLegacy(isDesired, isPrior) => Moving(o) && if applied then isDesired else isPrior
       case Verify(present, absent, goal) =>
         && (goal.IsDesired? <==> TrueAnswer(o, applied).Ok?)
         && (forall y | y in present :: Concerns(o, y) && y in s.slugs && s.slugs[y].record == present[y])
         && (forall y | y in absent :: Concerns(o, y) && y !in s.slugs)
       case Discard(e) => TrueAnswer(o, applied) == Err(e)
       case DropOld => TrueAnswer(o, applied).Ok?
       case Finished(outcome) => outcome == TrueAnswer(o, applied)
       case _ => false
  }

  lemma OnCourseKept(s: Store, s': Store, c: Client, o: Op, applied: bool)
    requires o.desired.Some? && OnCourse(s, c, o, applied) && SameSlice(s, s', o)
    ensures OnCourse(s', c, o, applied)
  {
    hide Reserves;
    hide SameRowAt;
    hide Concerns;
    if c.phase.Verify? {
      assert forall y | y in c.phase.present :: SameSlugAt(s, s', y);
      assert forall y | y in c.phase.absent :: SameSlugAt(s, s', y);
    }
  }

  /** What the read of the article sees. */
  lemma Sees(s: Store, o: Op, applied: bool, again: bool, answer: Answer)
    requires o.desired.Some? && Settled(s, o, applied) && AnswerOk(s.rows, RequestId(o.request), again, answer) && !answer.ReadFailed?
    requires KeysOk(s.rows)
    ensures applied && !again ==> answer.Saw? && answer.row.article == o.desired.value
    ensures !applied && o.prior.None? ==> answer.Absent?
    ensures !applied && o.prior.Some? && !again ==>
              if Listed(o.prior.value, RequestId(o.request)) then answer == Saw(o.prior.value) else answer.Absent?
    ensures !applied && o.prior.Some? && again && !Listed(o.prior.value, RequestId(o.request)) ==> answer == Saw(o.prior.value)
  {
    hide SlugsAre;
    hide Reserves;
    var id := RequestId(o.request);
    if answer.Saw? {
      AnswerIsRow(s.rows, id, again, answer);
    }
    if applied {
      var k :| StoredAt(s, id, k, o.desired.value);
      assert !again ==> !answer.Absent?;
    } else if o.prior.Some? {
      assert KeyFits(o.prior.value.key, o.prior.value.article);
    }
  }

  /** A definite failure of an operation that has no fresh body, or of one that has. */
  lemma FailOnCourse(s: Store, c: Client, o: Op, applied: bool)
    requires o.desired.Some? && c.op == Sent(o, applied) && TrueAnswer(o, applied) == Err(Storage)
    ensures OnCourse(s, Fail(c, Storage), o, applied)
  {
  }

  lemma SlugMapIs(a: Article)
    ensures forall y | y in SlugMap(a) :: Reserves(a, y) && SlugMap(a)[y] == RecordFor(a, y)
  {
  }

  /** Going on to check the slugs of the new version. */
  lemma DesiredOnCourse(s: Store, c: Client, o: Op, applied: bool)
    requires o.desired.Some? && c.op == Sent(o, applied) && Settled(s, o, applied) && TrueAnswer(o, applied).Ok?
    ensures OnCourse(s, VerifyDesired(c, s), o, applied)
  {
    SlugMapIs(o.desired.value);
    hide SlugMap;
    hide RecordFor;
    hide Holds;
    hide OnlyRow;
    hide Listed;
    var a := o.desired.value;
    assert SlugsAre(s, a, if o.prior.Some? then o.prior.value.article else a);
    hide Reserves;
    var c' := VerifyDesired(c, s);
    forall y | y in c'.phase.absent ensures y !in s.slugs && Concerns(o, y) {
      assert o.prior.Some? && Reserves(o.prior.value.article, y) && !Reserves(a, y);
    }
  }

  /** Going on to check the slugs of the replaced version. */
  lemma PriorOnCourse(s: Store, c: Client, o: Op)
    requires o.desired.Some? && o.prior.Some? && c.op == Sent(o, false) && Settled(s, o, false) && !ChangesNothing(o)
    ensures OnCourse(s, c.(phase := Verify(SlugMap(o.prior.value.article), SlugSet(o.desired.value) - PriorSlugs(c), IsPrior)), o, false)
  {
    SlugMapIs(o.prior.value.article);
    hide SlugMap;
    hide RecordFor;
    hide OnlyRow;
    assert SlugsAre(s, o.prior.value.article, o.desired.value);
    hide Reserves;
  }

  lemma ReconcileOnCourse(s: Store, c: Client, o: Op, applied: bool, answer: Answer)
    requires o.desired.Some? && OnCourse(s, c, o, applied) && c.phase.Reconcile? && Settled(s, o, applied) && KeysOk(s.rows)
    requires AnswerOk(s.rows, IdOf(c), c.phase.again, answer) && !answer.ReadFailed?
    requires answer.Absent? ==> c.phase.again || o.mode.CurrentOnly?
    requires o.prior.Some? && o.mode.CurrentOnly? ==> Listed(o.prior.value, IdOf(c))
    ensures OnCourse(s, AfterReconcile(c, s, answer), o, applied)
  {
    Sees(s, o, applied, c.phase.again, answer);
    hide AnswerOk;
    hide KeysOk;
    hide Holds;
    hide Listed;
    if o.prior.None? {
      if applied {
        DesiredOnCourse(s, c, o, applied);
      } else {
        FailOnCourse(s, c, o, applied);
      }
      hide OnCourse;
      hide Settled;
    } else if !Moving(o) {
      if answer.row.article == o.desired.value {
        DesiredOnCourse(s, c, o, applied);
      } else {
        PriorOnCourse(s, c, o);
      }
      hide OnCourse;
      hide Settled;
    } else {
      hide Settled;
    }
  }

  lemma RefreshOnCourse(s: Store, c: Client, o: Op, applied: bool, answer: Answer)
    requires o.desired.Some? && OnCourse(s, c, o, applied) && c.phase.Refresh? && Settled(s, o, applied) && KeysOk(s.rows)
    requires AnswerOk(s.rows, IdOf(c), c.phase.again, answer) && !answer.ReadFailed?
    ensures answer.Saw? && OnCourse(s, AfterRefresh(c, s, answer), o, applied)
  {
    Sees(s, o, applied, c.phase.again, answer);
    DesiredOnCourse(s, c, o, applied);
    hide AnswerOk;
    hide KeysOk;
    hide VerifyDesired;
    assert c.op.desired == o.desired;
    hide OnCourse;
    hide Settled;
  }

  lemma AgainOnCourse(s: Store, c: Client, o: Op, applied: bool, answer: Answer)
    requires o.desired.Some? && OnCourse(s, c, o, applied) && c.phase.Reconcile? && Settled(s, o, applied) && KeysOk(s.rows)
    requires AnswerOk(s.rows, IdOf(c), c.phase.again, answer) && answer.Absent? && !c.phase.again && o.mode.Compat?
    ensures OnCourse(s, c.(phase := Again(c.phase)), o, applied)
  {
    Sees(s, o, applied, c.phase.again, answer);
    hide AnswerOk;
    hide KeysOk;
    hide Settled;
  }

  lemma GetOnCourse(s: Store, c: Client, o: Op, applied: bool, answer: Answer, now: Time)
    requires o.desired.Some? && OnCourse(s, c, o, applied) && GetPhase(c.phase) && Settled(s, o, applied) && KeysOk(s.rows)
    requires AnswerOk(s.rows, IdOf(c), c.phase.again, answer) && !answer.ReadFailed?
    requires o.prior.Some? && o.mode.CurrentOnly? ==> Listed(o.prior.value, IdOf(c))
    ensures c.op.desired.Some? && OnCourse(s, GetStep(c, s, answer, now), o, applied)
  {
    assert c.op == Sent(o, applied) && (c.phase.Refresh? || c.phase.Reconcile?);
    hide AnswerOk;
    hide KeysOk;
    hide OnCourse;
    hide Settled;
    hide AfterReconcile;
    hide AfterRefresh;
    hide Listed;
    if c.phase.Refresh? {
      RefreshOnCourse(s, c, o, applied, answer);
    } else if !c.phase.again && o.mode.Compat? && answer.Absent? {
      AgainOnCourse(s, c, o, applied, answer);
    } else {
      ReconcileOnCourse(s, c, o, applied, answer);
    }
  }

  lemma LegacyOnCourse(s: Store, c: Client, o: Op, applied: bool)
    requires o.desired.Some? && OnCourse(s, c, o, applied) && c.phase.ReconcileLegacy? && Settled(s, o, applied)
    ensures c.op.desired.Some? && OnCourse(s, AfterCheckLegacy(c, s, false), o, applied)
  {
    hide SlugsAre;
    hide Holds;
    if applied {
      DesiredOnCourse(s, c, o, applied);
    } else {
      FailOnCourse(s, c, o, applied);
      assert o.prior.value.key == LegacyKey(IdOf(c));
    }
    hide OnCourse;
    hide Settled;
    hide SlugMap;
    hide SlugSet;
  }

  lemma VerifyOnCourse(s: Store, c: Client, o: Op, applied: bool, x: Slug)
    requires o.desired.Some? && OnCourse(s, c, o, applied) && c.phase.Verify? && (x in c.phase.present || x in c.phase.absent)
    ensures OnCourse(s, AfterVerifySlug(c, s.slugs, x, false), o, applied)
  {
    hide Concerns;
  }

  lemma VerifiedOnCourse(s: Store, c: Client, o: Op, applied: bool)
    requires o.desired.Some? && OnCourse(s, c, o, applied) && c.phase.Verify?
    ensures c.op.desired.Some? && OnCourse(s, AfterVerified(c), o, applied)
  {
    hide Concerns;
  }

  // ----- Runs -----

  /** The client's own read or deletion. */
  lemma OwnRead(w: World, step: Step, o: Op, applied: bool)
    requires Enabled(w, step) && IsReadOnly(step) && !FailsToRead(step, step.client) && o.desired.Some?
    requires OnCourse(w.store, w.clients[step.client], o, applied) && Settled(w.store, o, applied) && KeysOk(w.store.rows)
    requires o.prior.Some? && o.mode.CurrentOnly? ==> Listed(o.prior.value, RequestId(o.request))
    ensures OnCourse(w.store, ReadOnly(w, step), o, applied)
  {
    hide KeysOk;
    hide AnswerOk;
    hide Settled;
    hide GetStep;
    hide AfterCheckLegacy;
    hide AfterVerifySlug;
    hide AfterVerified;
    hide Listed;
    hide Concerns;
    var c := w.clients[step.client];
    assert IdOf(c) == RequestId(o.request);
    assert !c.phase.Slugs? && !c.phase.PutCheck?;
    hide OnCourse;
    match step
    case Get(_, answer, now) => GetOnCourse(w.store, c, o, applied, answer, now);
    case CheckLegacy(_, _) => LegacyOnCourse(w.store, c, o, applied);
    case VerifySlug(_, x, _) => VerifyOnCourse(w.store, c, o, applied, x);
    case Verified(_) => VerifiedOnCourse(w.store, c, o, applied);
    case _ =>
  }

  lemma SameSliceOfTable(s: Store, s': Store, o: Op)
    requires s'.rows == s.rows && s'.slugs == s.slugs && o.desired.Some?
    ensures SameSlice(s, s', o)
  {
    hide Concerns;
  }

  lemma OwnStepOnCourse(w: World, step: Step, i: nat, o: Op, applied: bool)
    requires Enabled(w, step) && Takes(step, i) && !FailsToRead(step, i) && i in w.clients && o.desired.Some?
    requires OnCourse(w.store, w.clients[i], o, applied) && Settled(w.store, o, applied) && KeysOk(w.store.rows)
    requires o.prior.Some? && o.mode.CurrentOnly? ==> Listed(o.prior.value, RequestId(o.request))
    ensures var w' := Next(w, step);
            && i in w'.clients && OnCourse(w'.store, w'.clients[i], o, applied) && w'.store.rows == w.store.rows && w'.store.slugs == w.store.slugs
  {
    hide KeysOk;
    hide Settled;
    hide Listed;
    hide Concerns;
    hide ReadOnly;
    if IsReadOnly(step) {
      OwnRead(w, step, o, applied);
      NextReadOnly(w, step);
      ReadOnlySameTable(w, step);
      hide Enabled;
      hide Next;
      SameSliceOfTable(w.store, Next(w, step).store, o);
      hide OnCourse;
      OnCourseKept(w.store, Next(w, step).store, ReadOnly(w, step), o, applied);
    } else {
      assert step.DeleteBody?;
      OtherSameTable(w, step);
    }
  }

  /** Whoever takes a step, the client stays on course. */
  lemma StepOnCourse(w: World, step: Step, i: nat, o: Op, applied: bool)
    requires WorldOk(w) && Enabled(w, step) && i in w.clients && o.desired.Some? && !FailsToRead(step, i)
    requires Takes(step, i) || SameSlice(w.store, Next(w, step).store, o)
    requires OnCourse(w.store, w.clients[i], o, applied) && Settled(w.store, o, applied)
    requires o.prior.Some? && o.mode.CurrentOnly? ==> Listed(o.prior.value, RequestId(o.request))
    ensures var w' := Next(w, step);
            i in w'.clients && OnCourse(w'.store, w'.clients[i], o, applied) && Settled(w'.store, o, applied)
  {
    hide StoreOk;
    WorldStore(w);
    hide WorldOk;
    StoreParts(w.store);
    hide KeysOk;
    hide SlugsPresent;
    hide SlugIndexExact;
    hide RetiredOk;
    hide LogOk;
    hide Enabled;
    hide Next;
    hide OnCourse;
    hide Settled;
    hide Listed;
    hide SameSlice;
    if Takes(step, i) {
      OwnStepOnCourse(w, step, i, o, applied);
      SameSliceOfTable(w.store, Next(w, step).store, o);
    } else {
      OthersUntouched(w, step, i);
      OnCourseKept(w.store, Next(w, step).store, w.clients[i], o, applied);
    }
    SettledKept(w.store, Next(w, step).store, o, applied);
  }

  lemma {:induction false} RunOnCourse(w: World, steps: seq<Step>, i: nat, o: Op, applied: bool)
    requires WorldOk(w) && Possible(w, steps) && i in w.clients && o.desired.Some?
    requires ReadsWell(steps, i) && Undisturbed(w, steps, i, o)
    requires OnCourse(w.store, w.clients[i], o, applied) && Settled(w.store, o, applied)
    requires o.prior.Some? && o.mode.CurrentOnly? ==> Listed(o.prior.value, RequestId(o.request))
    ensures var w' := Run(w, steps); i in w'.clients && OnCourse(w'.store, w'.clients[i], o, applied)
    decreases |steps|
  {
    hide WorldOk;
    hide Enabled;
    hide Next;
    hide OnCourse;
    hide Settled;
    hide Listed;
    hide SameSlice;
    hide FailsToRead;
    if steps != [] {
      StepOnCourse(w, steps[0], i, o, applied);
      StepKept(w, steps[0]);
      assert ReadsWell(steps[1..], i);
      RunOnCourse(Next(w, steps[0]), steps[1..], i, o, applied);
    }
  }

  /** What the table says right after the batch. */
  lemma CommitSettles(w: World, step: Step)
    requires WorldOk(w) && Enabled(w, step) && step.Commit?
    requires w.clients[step.client].op.desired.Some? && (step.applies || StillAsRead(w.store, w.clients[step.client].op))
    ensures Settled(Next(w, step).store, w.clients[step.client].op, step.applies)
  {
    hide WorldOk;
    hide StoreOk;
    hide ClientOk;
    hide Committing;
    hide Next;
    hide Applied;
    hide Stored;
    hide NotStored;
    hide StillAsRead;
    hide SameSlice;
    hide BatchFits;
    var c := w.clients[step.client];
    WorldStore(w);
    WorldClient(w, step.client);
    CommitNext(w, step);
    if step.applies {
      CommitStepCommits(w, step);
      AppliedStored(w.store, c);
      SameSliceOfTable(Applied(w.store, c), Next(w, step).store, c.op);
      SettledKept(Applied(w.store, c), Next(w, step).store, c.op, true);
    } else {
      RefusedNotStored(w.store, c);
      SameSliceOfTable(w.store, Next(w, step).store, c.op);
      SettledKept(w.store, Next(w, step).store, c.op, false);
    }
  }

  lemma SentOnCourse(s: Store, c: Client, applies: bool, accepted: bool)
    requires c.op.desired.Some? && (accepted ==> applies)
    ensures OnCourse(s, c.(op := Sent(c.op, applies), phase := if accepted then Refresh(false) else Reconcile(false)), c.op, applies)
  {
    hide Concerns;
    hide Listed;
  }

  /** Right after the batch, with a reply that makes the client look. */
  lemma CommitOnCourse(w: World, i: nat, applies: bool, reply: Reply)
    requires WorldOk(w) && Enabled(w, Commit(i, applies, reply)) && !reply.Refused?
    requires w.clients[i].op.desired.Some? && (applies || StillAsRead(w.store, w.clients[i].op))
    ensures var o, w' := w.clients[i].op, Next(w, Commit(i, applies, reply));
            i in w'.clients && OnCourse(w'.store, w'.clients[i], o, applies) && Settled(w'.store, o, applies)
  {
    hide WorldOk;
    hide Enabled;
    hide Next;
    hide Settled;
    hide OnCourse;
    hide StillAsRead;
    var step := Commit(i, applies, reply);
    CommitClientThere(w, step);
    CommitClient(w, step);
    CommitSettles(w, step);
    SentOnCourse(Next(w, step).store, w.clients[i], applies, reply.Accepted?);
  }

  /** What the commit makes of the client. */
  lemma CommitClient(w: World, step: Step)
    requires Enabled(w, step) && step.Commit? && !step.reply.Refused?
    ensures var c := w.clients[step.client];
            && c.phase.Slugs? && c.op.desired.Some? && step.client in Next(w, step).clients
            && Next(w, step).clients[step.client] ==
               c.(op := Sent(c.op, step.applies), phase := if step.reply.Accepted? then Refresh(false) else Reconcile(false))
            && (step.reply.Accepted? ==> step.applies)
  {
    hide Applied;
    hide BatchFits;
  }

  /** Client i's batch is sent after the first part of the run, and its answer comes after the second. */
  ghost predicate Sends(w: World, before: seq<Step>, i: nat, applies: bool, reply: Reply, after: seq<Step>) {
    && Possible(w, before) && Enabled(Run(w, before), Commit(i, applies, reply))
    && Possible(Next(Run(w, before), Commit(i, applies, reply)), after)
  }

  /**
    A batch that the service did not refuse, whatever became of it: if the reads
    after it succeed, and nobody else has written or writes the article or its
    slugs, the answer is the truth about the batch, and never ErrCommitUnknown.
   */
  lemma UncertainIsReconciled(w: World, before: seq<Step>, i: nat, applies: bool, reply: Reply, after: seq<Step>,
                              outcome: Result<Article>)
    requires Init(w) && Sends(w, before, i, applies, reply, after) && !reply.Refused?
    requires var o := Run(w, before).clients[i].op;
             o.desired.Some? && (applies || StillAsRead(Run(w, before).store, o)) &&
             ReadsWell(after, i) && Undisturbed(Next(Run(w, before), Commit(i, applies, reply)), after, i, o)
    requires Answered(Next(Run(w, before), Commit(i, applies, reply)), after, i, outcome)
    ensures var o := Run(w, before).clients[i].op;
            outcome == if applies || ChangesNothing(o) then Ok(o.desired.value) else Err(Storage)
  {
    hide Init;
    hide Run;
    hide Possible;
    hide Enabled;
    hide Next;
    hide WorldOk;
    hide StoreOk;
    hide Settled;
    hide StillAsRead;
    hide Undisturbed;
    hide ReadsWell;
    hide Listed;
    var w1, step := Run(w, before), Commit(i, applies, reply);
    RunInvariant(w, before);
    CommitClientThere(w1, step);
    RunFoundWell(w, before, i);
    CommitOnCourse(w1, i, applies, reply);
    StepKept(w1, step);
    RunOnCourse(Next(w1, step), after, i, w1.clients[i].op, applies);
  }

  lemma CommitClientThere(w: World, step: Step)
    requires Enabled(w, step) && step.Commit?
    ensures step.client in w.clients
  {
    hide BatchFits;
  }

  // ----- When the outcome stays unknown -----

  /** A client whose batch has not been sent, or was refused. */
  predicate NotSent(c: Client) {
    match c.phase
    case Refresh(_) => false
    case Reconcile(_) => false
    case ReconcileLegacy(_, _) => false
    case Verify(_, _, _) => false
    case DropOld => false
    case Discard(e) => e != CommitUnknown
    case Finished(outcome) => outcome != Err(CommitUnknown)
    case _ => true
  }

  lemma ReadNotSent(c: Client, answer: Answer, now: Time)
    requires c.phase.Read? && (c.op.request.SaveDraft? && c.op.request.input.Err? ==> c.op.request.input.error == Validation)
    ensures NotSent(AfterRead(c, answer, now))
  {
    hide PublishedFrom;
    hide WithdrawnFrom;
    hide ValidArticle;
    hide ValidTransition;
  }

  lemma RereadNotSent(c: Client, answer: Answer)
    requires c.phase.Reread? && c.op.desired.Some?
    ensures NotSent(AfterReread(c, answer))
  {
    hide Storable;
    hide KeyFits;
    hide SlugSet;
  }

  lemma GetNotSent(s: Store, c: Client, answer: Answer, now: Time)
    requires NotSent(c) && GetPhase(c.phase) && (!c.phase.Read? ==> c.op.desired.Some?)
    requires c.op.request.SaveDraft? && c.op.request.input.Err? ==> c.op.request.input.error == Validation
    ensures NotSent(GetStep(c, s, answer, now))
  {
    hide AfterRead;
    hide AfterReread;
    hide SlugSet;
    hide RecordFor;
    if c.phase.Read? {
      ReadNotSent(c, answer, now);
    } else if c.phase.Reread? {
      RereadNotSent(c, answer);
    }
  }

  lemma PutNotSent(c: Client, now: Time)
    requires c.op.ref.Some? && NotSent(c)
    ensures NotSent(AfterPut(c, now))
  {
    hide Storable;
    hide ValidArticle;
    hide Saved;
  }

  lemma SlugNotSent(c: Client, slugs: map<Slug, SlugRow>, x: Slug, fails: bool)
    requires c.phase.Slugs? && c.op.desired.Some? && (x in c.phase.keep || x in c.phase.drop)
    ensures NotSent(AfterReadSlug(c, slugs, x, fails))
  {
    hide RecordFor;
  }

  lemma QuietNotSent(w: World, step: Step)
    requires Enabled(w, step) && IsReadOnly(step) && NotSent(w.clients[step.client]) && !FailsToRead(step, step.client)
    requires RequestOk(w.clients[step.client].op)
    ensures NotSent(ReadOnly(w, step))
  {
    hide GetStep;
    hide AfterPut;
    hide AfterReadSlug;
    var c := w.clients[step.client];
    if step.Get? {
      GetNotSent(w.store, c, step.answer, step.now);
    } else if step.CheckUpload? {
      PutNotSent(c, step.now);
      NotSentStill(c);
    } else if step.ReadSlug? {
      SlugNotSent(c, w.store.slugs, step.slug, step.fails);
    }
    hide AnswerOk;
    hide RequestOk;
  }

  lemma NotSentStill(c: Client)
    requires c.phase.PutCheck?
    ensures NotSent(c.(phase := Finished(Err(Storage))))
  {
  }

  lemma UploadNotSent(w: World, step: Step)
    requires Enabled(w, step) && step.Upload?
    ensures step.client in UploadStep(w, step).clients && NotSent(UploadStep(w, step).clients[step.client])
  {
    hide AfterPut;
    hide Abandon;
    var c := w.clients[step.client];
    PutNotSent(c.(op := c.op.(ref := Some(step.newRef))), step.now);
  }

  lemma PlainNotSent(w: World, step: Step)
    requires Enabled(w, step) && (step.Start? || step.DeleteBody? || (step.Commit? && step.reply.Refused?))
    requires step.client in w.clients ==> NotSent(w.clients[step.client])
    ensures step.client in Next(w, step).clients && NotSent(Next(w, step).clients[step.client])
  {
    hide BatchFits;
    hide Abandon;
    hide ReadClock;
  }

  lemma OwnNotSent(w: World, step: Step)
    requires Enabled(w, step) && !step.Migrate? && !FailsToRead(step, step.client) && (step.Commit? ==> step.reply.Refused?)
    requires step.client in w.clients ==> NotSent(w.clients[step.client]) && RequestOk(w.clients[step.client].op)
    ensures step.client in Next(w, step).clients && NotSent(Next(w, step).clients[step.client])
  {
    hide NotSent;
    hide RequestOk;
    hide FailsToRead;
    if IsReadOnly(step) {
      QuietNotSent(w, step);
      NextReadOnly(w, step);
      hide Next;
      hide Enabled;
      hide ReadOnly;
    } else if step.Upload? {
      UploadNotSent(w, step);
      assert Next(w, step) == UploadStep(w, step);
      hide Next;
      hide UploadStep;
    } else {
      PlainNotSent(w, step);
    }
  }

  lemma ClientRequest(w: World, i: nat)
    requires WorldOk(w) && i in w.clients
    ensures RequestOk(w.clients[i].op)
  {
    hide StoreOk;
    hide WorldOk;
    WorldClient(w, i);
    hide RequestOk;
    hide PhaseOk;
  }

  /** Some batch of client i was sent and not refused. */
  predicate SentAt(steps: seq<Step>, i: nat, n: nat) {
    n < |steps| && steps[n].Commit? && steps[n].client == i && !steps[n].reply.Refused?
  }

  lemma {:induction false} RunNotSent(w: World, steps: seq<Step>, i: nat)
    requires Init(w) && Possible(w, steps) && i in Run(w, steps).clients && ReadsWell(steps, i)
    requires forall n: nat :: !SentAt(steps, i, n)
    ensures NotSent(Run(w, steps).clients[i])
    decreases |steps|
  {
    hide Init;
    hide Enabled;
    hide Next;
    hide NotSent;
    hide FailsToRead;
    hide WorldOk;
    hide StoreOk;
    hide RequestOk;
    if steps != [] {
      var n := |steps| - 1;
      RunLast(w, steps);
      RunInvariant(w, steps[..n]);
      var prev := Run(w, steps[..n]);
      hide Run;
      hide Possible;
      if i in prev.clients {
        assert ReadsWell(steps[..n], i);
        forall m: nat ensures !SentAt(steps[..n], i, m) {
          assert !SentAt(steps, i, m);
        }
        RunNotSent(w, steps[..n], i);
        ClientRequest(prev, i);
      }
      assert !SentAt(steps, i, n);
      if Takes(steps[n], i) {
        OwnNotSent(prev, steps[n]);
      } else {
        OthersUntouched(prev, steps[n], i);
      }
    } else {
      NoClients(w);
    }
  }

  /** Somebody else wrote the article or its slugs, between the client's reads before its n-th step or after it. */
  ghost predicate InterferedAt(w: World, steps: seq<Step>, i: nat, n: nat)
    requires Possible(w, steps)
  {
    && SentAt(steps, i, n) && Possible(w, steps[..n]) && Enabled(Run(w, steps[..n]), steps[n])
    && Possible(Next(Run(w, steps[..n]), steps[n]), steps[n + 1..])
    && i in Run(w, steps[..n]).clients
    && var o := Run(w, steps[..n]).clients[i].op;
       o.desired.Some? &&
         ((!steps[n].applies && !StillAsRead(Run(w, steps[..n]).store, o)) ||
         !Undisturbed(Next(Run(w, steps[..n]), steps[n]), steps[n + 1..], i, o))
  }

  lemma SplitAt(w: World, steps: seq<Step>, n: nat)
    requires Possible(w, steps) && n < |steps|
    ensures Possible(w, steps[..n]) && Enabled(Run(w, steps[..n]), steps[n])
    ensures Possible(Next(Run(w, steps[..n]), steps[n]), steps[n + 1..])
    ensures Run(w, steps) == Run(Next(Run(w, steps[..n]), steps[n]), steps[n + 1..])
  {
    hide Enabled;
    hide Next;
    RunSplit(w, steps, n);
    assert steps[n..][0] == steps[n] && steps[n..][1..] == steps[n + 1..];
  }

  /** ErrCommitUnknown is answered only after a failed read or an interfering write. */
  lemma UnknownNeedsTrouble(w: World, steps: seq<Step>, i: nat)
    requires Init(w) && Possible(w, steps) && Answered(w, steps, i, Err(CommitUnknown)) && ReadsWell(steps, i)
    ensures exists n :: InterferedAt(w, steps, i, n)
  {
    hide Init;
    hide Enabled;
    hide Next;
    hide FailsToRead;
    hide StillAsRead;
    hide Undisturbed;
    hide Run;
    hide Possible;
    if n: nat :| SentAt(steps, i, n) {
      SplitAt(w, steps, n);
      var w1 := Run(w, steps[..n]);
      CommitClientThere(w1, steps[n]);
      CommitClient(w1, steps[n]);
      if !InterferedAt(w, steps, i, n) {
        var Commit(_, applies, reply) := steps[n];
        assert ReadsWell(steps[n + 1..], i);
        UncertainIsReconciled(w, steps[..n], i, applies, reply, steps[n + 1..], Err(CommitUnknown));
        assert false;
      }
    } else {
      RunNotSent(w, steps, i);
      assert false;
    }
  }

  // ----- Such a client gets its answer -----

  /** How far the end is: the stage, and the slugs still to be read or checked. */
  function Stage(p: Phase): nat {
    match p
    case Probe(again) => if again then 7 else 8
    case Reread(again) => if again then 7 else 8
    case Slugs(_, _, _) => 6
    case ConflictProbe(again) => if again then 4 else 5
    case Refresh(again) => if again then 4 else 5
    case Reconcile(again) => if again then 4 else 5
    case ReconcileLegacy(_, _) => 3
    case Verify(_, _, _) => 2
    case Discard(_) => 1
    case DropOld => 1
    case _ => 0
  }

  function Left(p: Phase): nat {
    match p
    case Slugs(keep, drop, _) => |keep| + |drop|
    case Verify(present, absent, _) => |present| + |absent|
    case _ => 0
  }

  predicate Nearer(p: Phase, q: Phase) {
    Stage(q) < Stage(p) || (Stage(q) == Stage(p) && Left(q) < Left(p))
  }

  /** What a read that does not fail answers. */
  ghost function AnswerOf(rows: map<Key, Row>, id: Id, again: bool): (answer: Answer)
    requires KeysOk(rows)
    ensures AnswerOk(rows, id, again, answer) && !answer.ReadFailed?
  {
    if again then
      if LegacyKey(id) in rows then Saw(rows[LegacyKey(id)]) else Absent
    else if exists k :: k in rows && Listed(rows[k], id) then
      var k :| k in rows && Listed(rows[k], id);
      Saw(rows[k])
    else Absent
  }

  /** A step that the client can take next. */
  ghost function NextStep(w: World, i: nat): Step
    requires i in w.clients && KeysOk(w.store.rows)
  {
    var c := w.clients[i];
    if GetPhase(c.phase) then Get(i, AnswerOf(w.store.rows, IdOf(c), c.phase.again), 0)
    else if c.phase.ReconcileLegacy? then CheckLegacy(i, false)
    else if c.phase.Verify? then
      if c.phase.present.Keys + c.phase.absent == {} then Verified(i)
      else
        var y :| y in c.phase.present.Keys + c.phase.absent;
        VerifySlug(i, y, false)
    else DeleteBody(i, false)
  }

  /** A client that is to delete a body knows which. */
  predicate CanDelete(c: Client) {
    && (c.phase.Discard? ==> c.op.ref.Some?)
    && (c.phase.DropOld? ==> c.op.base.Some? && c.op.base.value.article.draftBody.Some?)
  }

  lemma ClientDeletes(s: Store, c: Client)
    requires ClientOk(s, c)
    ensures CanDelete(c)
  {
    hide OpOk;
  }

  lemma NextStepEnabled(w: World, i: nat, o: Op, applied: bool)
    requires i in w.clients && KeysOk(w.store.rows) && o.desired.Some? && CanDelete(w.clients[i])
    requires OnCourse(w.store, w.clients[i], o, applied) && !w.clients[i].phase.Finished?
    ensures Enabled(w, NextStep(w, i)) && Takes(NextStep(w, i), i) && !FailsToRead(NextStep(w, i), i)
  {
    hide KeysOk;
    hide AnswerOk;
    hide Concerns;
    hide Listed;
    var c := w.clients[i];
    if c.phase.Verify? {
      assert c.phase.present.Keys + c.phase.absent == {} ==> c.phase.present.Keys == {} && c.phase.present == map[] && c.phase.absent == {};
    }
  }

  lemma VerifyNearer(c: Client, slugs: map<Slug, SlugRow>, y: Slug)
    requires c.phase.Verify? && (y in c.phase.present || y in c.phase.absent)
    ensures Nearer(c.phase, AfterVerifySlug(c, slugs, y, false).phase)
  {
    var Verify(present, absent, goal) := c.phase;
    if y in present {
      assert (present - {y}).Keys == present.Keys - {y};
      assert |present - {y}| == |(present - {y}).Keys| && |present| == |present.Keys|;
    } else {
      assert |absent - {y}| == |absent| - 1;
    }
  }

  lemma GetNearer(s: Store, c: Client, answer: Answer, now: Time)
    requires (c.phase.Reconcile? || c.phase.Refresh?) && c.op.desired.Some?
    ensures Nearer(c.phase, GetStep(c, s, answer, now).phase)
  {
    hide SlugSet;
    hide SlugMap;
    hide Holds;
  }

  lemma OwnReadNearer(w: World, step: Step, o: Op, applied: bool)
    requires Enabled(w, step) && IsReadOnly(step) && !FailsToRead(step, step.client) && o.desired.Some?
    requires OnCourse(w.store, w.clients[step.client], o, applied)
    ensures Nearer(w.clients[step.client].phase, ReadOnly(w, step).phase)
  {
    hide GetStep;
    hide AfterVerifySlug;
    hide AnswerOk;
    hide Concerns;
    hide Listed;
    hide Nearer;
    var c := w.clients[step.client];
    assert c.op.desired.Some?;
    match step
    case Get(_, answer, now) => GetNearer(w.store, c, answer, now);
    case CheckLegacy(_, _) => LegacyNearer(c, w.store);
    case VerifySlug(_, x, _) => VerifyNearer(c, w.store.slugs, x);
    case Verified(_) => VerifiedNearer(c);
    case _ =>
  }

  lemma LegacyNearer(c: Client, s: Store)
    requires c.phase.ReconcileLegacy? && c.op.desired.Some?
    ensures Nearer(c.phase, AfterCheckLegacy(c, s, false).phase)
  {
    hide SlugSet;
    hide SlugMap;
  }

  lemma VerifiedNearer(c: Client)
    requires c.phase.Verify? && c.op.desired.Some?
    ensures Nearer(c.phase, AfterVerified(c).phase)
  {
  }

  lemma OwnStepNearer(w: World, step: Step, o: Op, applied: bool)
    requires Enabled(w, step) && !step.Migrate? && !FailsToRead(step, step.client) && o.desired.Some? && step.client in w.clients
    requires OnCourse(w.store, w.clients[step.client], o, applied) && !w.clients[step.client].phase.Finished?
    ensures step.client in Next(w, step).clients && Nearer(w.clients[step.client].phase, Next(w, step).clients[step.client].phase)
  {
    hide OnCourse;
    hide FailsToRead;
    if IsReadOnly(step) {
      OwnReadNearer(w, step, o, applied);
      NextReadOnly(w, step);
      hide Next;
      hide Enabled;
      hide ReadOnly;
    } else {
      DeleteNearer(w, step, o, applied);
    }
  }

  lemma DeleteNearer(w: World, step: Step, o: Op, applied: bool)
    requires Enabled(w, step) && !step.Migrate? && !IsReadOnly(step) && o.desired.Some? && step.client in w.clients
    requires OnCourse(w.store, w.clients[step.client], o, applied) && !w.clients[step.client].phase.Finished?
    ensures step.client in Next(w, step).clients && Nearer(w.clients[step.client].phase, Next(w, step).clients[step.client].phase)
  {
    hide Concerns;
    hide Listed;
    assert step.DeleteBody?;
  }

  lemma SettledNext(w: World, step: Step, i: nat, o: Op, applied: bool)
    requires WorldOk(w) && Enabled(w, step) && Takes(step, i) && i in w.clients && o.desired.Some? && !FailsToRead(step, i)
    requires OnCourse(w.store, w.clients[i], o, applied) && Settled(w.store, o, applied)
    requires o.prior.Some? && o.mode.CurrentOnly? ==> Listed(o.prior.value, RequestId(o.request))
    requires !w.clients[i].phase.Finished?
    ensures var w' := Next(w, step);
            && WorldOk(w') && i in w'.clients && OnCourse(w'.store, w'.clients[i], o, applied) && Settled(w'.store, o, applied)
            && Nearer(w.clients[i].phase, w'.clients[i].phase)
  {
    hide WorldOk;
    hide Enabled;
    hide Next;
    hide OnCourse;
    hide Settled;
    hide Listed;
    hide FailsToRead;
    StepOnCourse(w, step, i, o, applied);
    StepKept(w, step);
    OwnStepNearer(w, step, o, applied);
  }

  lemma WorldDeletes(w: World, i: nat)
    requires WorldOk(w) && i in w.clients
    ensures KeysOk(w.store.rows) && CanDelete(w.clients[i])
  {
    hide StoreOk;
    hide ClientOk;
    WorldClient(w, i);
    StoreParts(w.store);
    hide WorldOk;
    hide KeysOk;
    ClientDeletes(w.store, w.clients[i]);
  }

  /** From there, the client can always go on to its answer. */
  lemma {:induction false} ReadsToTheEnd(w: World, i: nat, o: Op, applied: bool) returns (steps: seq<Step>)
    requires WorldOk(w) && i in w.clients && o.desired.Some?
    requires OnCourse(w.store, w.clients[i], o, applied) && Settled(w.store, o, applied)
    requires o.prior.Some? && o.mode.CurrentOnly? ==> Listed(o.prior.value, RequestId(o.request))
    ensures Possible(w, steps) && ReadsWell(steps, i) && Undisturbed(w, steps, i, o)
    ensures var w' := Run(w, steps); i in w'.clients && w'.clients[i].phase.Finished?
    decreases Stage(w.clients[i].phase), Left(w.clients[i].phase)
  {
    hide WorldOk;
    hide KeysOk;
    hide Enabled;
    hide Next;
    hide OnCourse;
    hide Settled;
    hide Listed;
    hide SameSlice;
    hide FailsToRead;
    hide NextStep;
    hide CanDelete;
    if w.clients[i].phase.Finished? {
      steps := [];
    } else {
      WorldDeletes(w, i);
      NextStepEnabled(w, i, o, applied);
      var step := NextStep(w, i);
      SettledNext(w, step, i, o, applied);
      var rest := ReadsToTheEnd(Next(w, step), i, o, applied);
      steps := [step] + rest;
      assert steps[1..] == rest;
      forall j | 0 <= j < |steps| ensures !FailsToRead(steps[j], i) {
        assert j > 0 ==> steps[j] == rest[j - 1];
      }
    }
  }

  /** After a batch that was not refused there is such a run, and it ends with the true answer. */
  lemma UncertainGetsAnswer(w: World, before: seq<Step>, i: nat, applies: bool, reply: Reply) returns (after: seq<Step>)
    requires Init(w) && Sends(w, before, i, applies, reply, []) && !reply.Refused?
    requires var o := Run(w, before).clients[i].op; o.desired.Some? && (applies || StillAsRead(Run(w, before).store, o))
    ensures Sends(w, before, i, applies, reply, after) && ReadsWell(after, i)
    ensures Answered(Next(Run(w, before), Commit(i, applies, reply)), after, i, TrueAnswer(Run(w, before).clients[i].op, applies))
  {
    hide Init;
    hide Run;
    hide Possible;
    hide Enabled;
    hide Next;
    hide WorldOk;
    hide StoreOk;
    hide Settled;
    hide StillAsRead;
    hide Undisturbed;
    hide ReadsWell;
    hide Listed;
    var w1, step := Run(w, before), Commit(i, applies, reply);
    RunInvariant(w, before);
    CommitClientThere(w1, step);
    RunFoundWell(w, before, i);
    CommitOnCourse(w1, i, applies, reply);
    StepKept(w1, step);
    after := ReadsToTheEnd(Next(w1, step), i, w1.clients[i].op, applies);
    RunOnCourse(Next(w1, step), after, i, w1.clients[i].op, applies);
  }
}
