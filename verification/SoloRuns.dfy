/**
  One Create or Update of the Azure repository alone and without failures: every
  run of its client in ArticleProtocol ends with the answer of the memory
  repository, and it can always go on to its end.
  internal/storage/azure/articles.go.
 */
module SoloRuns {
  import opened Outcomes
  import opened ArticleModel
  import opened ArticleTable
  import opened ArticleProtocol
  import opened ArticleSteps
  import opened ArticleCommits
  import opened ArticleTheorems
  import opened Refinement
  import M = MemoryArticles
  import R = ArticleReconcile

  // ----- The call -----

  /** creates: Create, otherwise Update with the caller's ETag. */
  datatype Write = Write(creates: bool, article: Article, expected: ETag)

  /** The repository begins by validating; a creation is marshalled too. */
  function Begun(x: Write, mode: Mode, born: ETag): Client {
    if x.creates then
      var c := Client(Op(CreateDraft(x.article), mode, x.expected, born, None, None, Some(x.article), None, false), Probe(false), false);
      if Storable(x.article) then c else Fail(c, Validation)
    else
      BeginUpdate(Client(Op(Publish(x.article.id), mode, x.expected, born, None, None, None, None, false), Read(false), false), x.article)
  }

  function Alone(s: Store, x: Write, mode: Mode): World {
    World(s, map[0 := Begun(x, mode, s.next)])
  }

  /** No driver call fails, and a batch is refused only where an addition meets a row. */
  ghost predicate Smooth(w: World, step: Step)
    requires Enabled(w, step)
  {
    match step
    case Get(_, answer, _) => !answer.ReadFailed?
    case ReadSlug(_, _, fails) => !fails
    case VerifySlug(_, _, fails) => !fails
    case Verified(_) => true
    case Commit(i, applies, reply) =>
      if BatchFits(w.store, w.clients[i]) then applies && reply.Accepted? else !applies && reply == Refused(DriverConflict)
    case _ => false
  }

  ghost predicate SmoothRun(w: World, steps: seq<Step>)
    requires Possible(w, steps)
    decreases |steps|
  {
    steps == [] || (Smooth(w, steps[0]) && SmoothRun(Next(w, steps[0]), steps[1..]))
  }

  // ----- What holds along the way -----

  /** The call: the store and the memory it begins with, and the memory's counterpart of the expected ETag. */
  datatype Context = Context(s: Store, m: M.Shelf, mode: Mode, x: Write, expected: nat)

  ghost predicate ContextOk(t: Context) {
    var a := t.x.article;
    && Same(t.s, t.m) && RowsStorable(t.s.rows) && Served(t.s.rows, t.mode)
    && (t.x.creates ==> SafeSegment(a.id) && a.createdAt >= 0)
    && (!t.x.creates ==> forall k | k in t.s.rows && k.id == a.id :: UpdatesRow(t, t.s.rows[k]))
  }

  ghost predicate UpdatesRow(t: Context, row: Row) {
    && (row.etag == t.x.expected ==> Produced(row.article, t.x.article))
    && t.x.article.id in t.m && (row.etag == t.x.expected <==> t.m[t.x.article.id].etag == t.expected)
  }

  /** What the memory repository answers. */
  ghost function Goal(t: Context): Option<Error> {
    if t.x.creates then M.CreateError(t.m, t.x.article) else M.UpdateError(t.m, t.x.article, t.expected)
  }

  ghost predicate Quiet(t: Context, s: Store) {
    s.rows == t.s.rows && s.slugs == t.s.slugs && s.next == t.s.next
  }

  /** The query by ID found nothing. */
  ghost predicate NotListed(t: Context) {
    t.mode.Compat? && !SomeListed(t.s.rows, t.x.article.id)
  }

  ghost predicate Desires(t: Context, c: Client) {
    c.op.desired == Some(t.x.article)
  }

  /** The rows once the client's batch has taken effect. */
  ghost function RowsAfter(t: Context, c: Client): map<Key, Row>
    requires c.op.desired.Some?
  {
    (t.s.rows - {Gone(c)})[NewRow(c, t.s.next).key := NewRow(c, t.s.next)]
  }

  ghost predicate OnlyGoes(t: Context, c: Client)
    requires c.op.desired.Some?
  {
    NewRow(c, t.s.next).key.id == t.x.article.id && forall k | k in t.s.rows && k.id == t.x.article.id :: k == Gone(c)
  }

  ghost predicate Consistent(mode: Mode, rows: map<Key, Row>, slugs: map<Slug, SlugRow>) {
    KeysOk(rows) && SlugIndexExact(rows, slugs) && RowsStorable(rows) && Served(rows, mode)
  }

  /** The version is stored: the row, the exact slug index, and nothing else changed. */
  ghost predicate Wrote(t: Context, s: Store, c: Client) {
    && Desires(t, c) && Goal(t).None?
    && s.rows == RowsAfter(t, c) && s.next == t.s.next + 1 && OnlyGoes(t, c)
    && Consistent(t.mode, s.rows, s.slugs) && PriorThere(t, c)
  }

  ghost predicate PriorThere(t: Context, c: Client) {
    && (t.x.creates <==> c.op.prior.None?)
    && (c.op.prior.Some? ==>
          var row := c.op.prior.value;
          row.key in t.s.rows && t.s.rows[row.key] == row && row.key.id == t.x.article.id && row.etag == t.x.expected)
  }

  ghost predicate SlugsOk(t: Context, c: Client)
    requires c.phase.Slugs?
  {
    var a := t.x.article;
    && Desires(t, c) && Storable(a) && c.op.expected == t.x.expected && PlanFitsOrTaken(t, c)
    && if t.x.creates then
         c.op.prior.None? && c.phase == Slugs({}, {}, CreatePlan(a)) && a.id !in t.m
       else
         c.op.prior.Some? && PriorRow(t, c.op.prior.value) && UpdatePlan(t, c, c.op.prior.value)
  }

  /** The row that is replaced, after all checks but those of the slugs. */
  ghost predicate PriorRow(t: Context, row: Row) {
    && row.key in t.s.rows && t.s.rows[row.key] == row && row.key.id == t.x.article.id && KeyFits(row.key, t.x.article)
    && row.etag == t.x.expected && PermanenceError(row.article, t.x.article).None?
  }

  /** The slugs that are still to be read decide. */
  ghost predicate UpdatePlan(t: Context, c: Client, row: Row)
    requires c.phase.Slugs?
  {
    var a := t.x.article;
    && c.phase.keep <= SlugSet(a) && c.phase.drop <= SlugSet(row.article) - SlugSet(a)
    && PlanSound(row.article, a, c.phase.keep, c.phase.drop, c.phase.plan)
    && Goal(t) == if (exists y :: y in c.phase.keep && Stops(a, t.s.slugs, y)) then Some(SlugTaken) else None
  }

  ghost predicate PlanFitsOrTaken(t: Context, c: Client)
    requires c.phase.Slugs?
  {
    !t.x.creates ==> PlanFits(t.s.slugs, c.phase.plan)
  }

  ghost predicate Answered(t: Context, s: Store, c: Client, outcome: Result<Article>) {
    match outcome
    case Ok(b) => b == t.x.article && Wrote(t, s, c)
    case Err(e) => Goal(t) == Some(e) && Quiet(t, s)
  }

  ghost predicate PhaseSolo(t: Context, s: Store, c: Client) {
    match c.phase
    case Probe(again) =>
      t.x.creates && Quiet(t, s) && Desires(t, c) && Storable(t.x.article) && c.op.prior.None? && (again ==> NotListed(t))
    case Reread(again) =>
      !t.x.creates && Quiet(t, s) && Desires(t, c) && ValidArticle(t.x.article) && c.op.prior.None? && (again ==> NotListed(t))
    case Slugs(_, _, _) => Quiet(t, s) && SlugsOk(t, c)
    case ConflictProbe(again) =>
      t.x.creates && Quiet(t, s) && Desires(t, c) && Goal(t) == Some(SlugTaken) && (again ==> NotListed(t))
    case Refresh(again) => !again && Wrote(t, s, c)
    case Verify(present, absent, goal) =>
      && goal.IsDesired? && Wrote(t, s, c)
      && (forall y | y in present :: y in s.slugs && s.slugs[y].record == present[y])
      && (forall y | y in absent :: y !in s.slugs)
    case Finished(outcome) => Answered(t, s, c, outcome)
    case _ => false
  }

  ghost predicate SoloOk(t: Context, w: World) {
    && w.clients.Keys == {0}
    && var c := w.clients[0];
       && c.op.request == (if t.x.creates then CreateDraft(t.x.article) else Publish(t.x.article.id))
       && c.op.mode == t.mode && c.op.expected == t.x.expected && c.op.ref.None? && c.op.base.None?
       && PhaseSolo(t, w.store, c)
  }

  /** An error that the client has met: it has no uploaded body to delete. */
  lemma FailSolo(t: Context, s: Store, c: Client, e: Error)
    requires c.op.ref.None? && Goal(t) == Some(e) && Quiet(t, s)
    ensures PhaseSolo(t, s, Fail(c, e)) && Fail(c, e).op == c.op
  {
    hide Goal;
  }

  // ----- Reads before the batch -----

  /** A read that finds nothing has looked wherever the mode has rows. */
  lemma AbsentMeansNone(t: Context, id: Id, again: bool)
    requires KeysOk(t.s.rows) && Served(t.s.rows, t.mode)
    requires AnswerOk(t.s.rows, id, again, Absent)
    requires again ==> !SomeListed(t.s.rows, id)
    requires again || t.mode.CurrentOnly?
    ensures !HasRowFor(t.s.rows, id)
  {
    forall k | k in t.s.rows ensures k.id != id {
      assert KeyFits(k, t.s.rows[k].article);
      assert again ==> !Listed(t.s.rows[k], id);
    }
  }

  lemma AbsentIsNotListed(rows: map<Key, Row>, id: Id)
    requires AnswerOk(rows, id, false, Absent)
    ensures !SomeListed(rows, id)
  {
  }

  lemma SawIsRow(t: Context, id: Id, again: bool, answer: Answer)
    requires KeysOk(t.s.rows) && AnswerOk(t.s.rows, id, again, answer) && answer.Saw?
    ensures answer.row.key in t.s.rows && t.s.rows[answer.row.key] == answer.row && answer.row.key.id == id == answer.row.article.id
  {
    AnswerIsRow(t.s.rows, id, again, answer);
  }

  lemma ProbeSolo(t: Context, s: Store, c: Client, answer: Answer)
    requires ContextOk(t) && c.phase.Probe? && PhaseSolo(t, s, c) && c.op.ref.None? && c.op.expected == t.x.expected
    requires AnswerOk(t.s.rows, t.x.article.id, c.phase.again, answer) && !answer.ReadFailed?
    requires answer.Absent? ==> c.phase.again || t.mode.CurrentOnly?
    ensures PhaseSolo(t, s, AfterProbe(c, answer)) && AfterProbe(c, answer).op == c.op
  {
    var a := t.x.article;
    assert Storable(a) && ValidArticle(a) by { hide ValidArticle; }
    hide Storable;
    hide ValidArticle;
    hide AnswerOk;
    if answer.Saw? {
      SawIsRow(t, a.id, c.phase.again, answer);
      assert Goal(t) == Some(Conflict);
      FailSolo(t, s, c, Conflict);
    } else {
      AbsentMeansNone(t, a.id, c.phase.again);
      assert a.id !in t.m;
    }
    hide SlugIndexExact;
  }

  lemma RereadSolo(t: Context, s: Store, c: Client, answer: Answer)
    requires ContextOk(t) && c.phase.Reread? && PhaseSolo(t, s, c) && c.op.ref.None? && c.op.expected == t.x.expected
    requires AnswerOk(t.s.rows, t.x.article.id, c.phase.again, answer) && !answer.ReadFailed?
    requires answer.Absent? ==> c.phase.again || t.mode.CurrentOnly?
    ensures PhaseSolo(t, s, AfterReread(c, answer))
    ensures AfterReread(c, answer).op == c.op.(prior := AfterReread(c, answer).op.prior)
  {
    var a := t.x.article;
    hide Storable;
    hide ValidArticle;
    hide AnswerOk;
    hide PermanenceError;
    hide SlugIndexExact;
    hide SlugsOk;
    if answer.Absent? {
      AbsentMeansNone(t, a.id, c.phase.again);
      assert Goal(t) == Some(NotFound);
      FailSolo(t, s, c, NotFound);
    } else {
      SawIsRow(t, a.id, c.phase.again, answer);
      var row := answer.row;
      assert UpdatesRow(t, row);
      if row.etag != t.x.expected {
        FailSolo(t, s, c, Conflict);
      } else if PermanenceError(row.article, a).Some? {
        FailSolo(t, s, c, PermanenceError(row.article, a).value);
      } else {
        BatchBegins(t, c, row);
      }
    }
  }

  /** Of a stored article, what the service makes can be stored under the same row. */
  lemma StillFits(rows: map<Key, Row>, row: Row, a: Article)
    requires KeysOk(rows) && RowsStorable(rows) && row.key in rows && rows[row.key] == row
    requires Produced(row.article, a) && ValidArticle(a)
    ensures Storable(a) && KeyFits(row.key, a)
  {
    assert Storable(row.article) && KeyFits(row.key, row.article);
    hide ValidArticle;
  }

  lemma BatchBegins(t: Context, c: Client, row: Row)
    requires ContextOk(t) && !t.x.creates && c.phase.Reread? && Desires(t, c) && c.op.expected == t.x.expected
    requires row.key in t.s.rows && t.s.rows[row.key] == row && row.key.id == t.x.article.id
    requires ValidArticle(t.x.article) && row.etag == t.x.expected && PermanenceError(row.article, t.x.article).None?
    requires UpdatesRow(t, row)
    ensures var c' := AfterReread(c, Saw(row)); c'.phase.Slugs? && SlugsOk(t, c') && c'.op == c.op.(prior := Some(row))
  {
    var a := t.x.article;
    StillFits(t.s.rows, row, a);
    SomeStopsIffTaken(t.s, t.m, row, a);
    DropsPresent(t.s, row, a);
    hide ValidArticle;
    hide Storable;
    hide SlugIndexExact;
    hide M.TakenByOther;
    hide Stops;
    hide KeysOk;
    hide Produced;
    NothingPlanned(row.article, a, t.s.slugs);
    hide PlanSound;
    hide SlugSet;
    hide PlanFits;
  }

  lemma NothingPlanned(prior: Article, a: Article, slugs: map<Slug, SlugRow>)
    ensures PlanSound(prior, a, SlugSet(a), SlugSet(prior) - SlugSet(a), map[]) && PlanFits(slugs, map[])
  {
  }

  // ----- Slug reads -----

  /** What a slug read that stops nothing makes of the plan. */
  function Planned(a: Article, slugs: map<Slug, SlugRow>, keep: set<Slug>, plan: map<Slug, SlugAction>, y: Slug): map<Slug, SlugAction> {
    if y in keep then
      if y !in slugs then plan[y := AddSlug(RecordFor(a, y))]
      else if slugs[y].record.target != RecordFor(a, y).target then plan[y := ReplaceSlug(RecordFor(a, y), slugs[y].etag)]
      else plan
    else if y in slugs then plan[y := DeleteSlug(slugs[y].etag)] else plan
  }

  lemma ReadResult(c: Client, a: Article, slugs: map<Slug, SlugRow>, y: Slug)
    requires c.phase.Slugs? && c.op.desired == Some(a)
    requires if y in c.phase.keep then !Stops(a, slugs, y) else y in c.phase.drop && y in slugs
    ensures var Slugs(keep, drop, plan) := c.phase;
            AfterReadSlug(c, slugs, y, false) ==
            c.(phase := Slugs(keep - {y}, if y in keep then drop else drop - {y}, Planned(a, slugs, keep, plan, y)))
  {
    hide RecordFor;
    var Slugs(keep, drop, plan) := c.phase;
    if y !in keep {
      assert keep - {y} == keep;
    }
  }

  lemma PlannedFits(a: Article, slugs: map<Slug, SlugRow>, keep: set<Slug>, plan: map<Slug, SlugAction>, y: Slug)
    requires PlanFits(slugs, plan)
    ensures PlanFits(slugs, Planned(a, slugs, keep, plan, y))
  {
    hide RecordFor;
  }

  lemma PlannedSound(t: Context, row: Row, keep: set<Slug>, drop: set<Slug>, plan: map<Slug, SlugAction>, y: Slug)
    requires KeysOk(t.s.rows) && SlugIndexExact(t.s.rows, t.s.slugs) && PriorRow(t, row)
    requires keep <= SlugSet(t.x.article) && drop <= SlugSet(row.article) - SlugSet(t.x.article)
    requires PlanSound(row.article, t.x.article, keep, drop, plan)
    requires if y in keep then !Stops(t.x.article, t.s.slugs, y) else y in drop && y in t.s.slugs
    ensures PlanSound(row.article, t.x.article, keep - {y}, if y in keep then drop else drop - {y},
                      Planned(t.x.article, t.s.slugs, keep, plan, y))
  {
    var a := t.x.article;
    assert t.s.rows[row.key] == row && row.article.id == a.id by { assert KeyFits(row.key, row.article); }
    hide KeysOk;
    hide SlugIndexExact;
    hide PermanenceError;
    if y in keep {
      KeepRead(t.s, row, a, keep, drop, plan, y);
      if y in t.s.slugs {
        KeepReadSound(row.article, a, keep, drop, plan, y, t.s.slugs[y].etag);
        hide PlanSound;
        SameTarget(row.article, a, y);
      }
    } else {
      assert keep - {y} == keep;
      DropReadSound(row.article, a, keep, drop, plan, y, t.s.slugs[y].etag);
    }
    hide PlanSound;
    hide RecordFor;
    hide SlugSet;
  }

  lemma SameTarget(a: Article, b: Article, y: Slug)
    requires a.id == b.id
    ensures RecordFor(a, y) == RecordFor(b, y) <==> RecordFor(a, y).target == RecordFor(b, y).target
  {
  }

  lemma ReadOnSolo(t: Context, c: Client, row: Row, y: Slug)
    requires KeysOk(t.s.rows) && SlugIndexExact(t.s.rows, t.s.slugs) && c.phase.Slugs? && Desires(t, c)
    requires PriorRow(t, row) && UpdatePlan(t, c, row) && PlanFits(t.s.slugs, c.phase.plan)
    requires if y in c.phase.keep then !Stops(t.x.article, t.s.slugs, y) else y in c.phase.drop
    ensures var c' := AfterReadSlug(c, t.s.slugs, y, false);
            c'.phase.Slugs? && UpdatePlan(t, c', row) && PlanFits(t.s.slugs, c'.phase.plan) && c'.op == c.op
  {
    hide SlugIndexExact;
    hide KeysOk;
    hide PlanSound;
    hide PlanFits;
    hide Goal;
    hide Stops;
    hide Planned;
    hide AfterReadSlug;
    hide SlugSet;
    assert row.key in t.s.rows && t.s.rows[row.key] == row;
    hide PriorRow;
    var a := t.x.article;
    var Slugs(keep, drop, plan) := c.phase;
    DropsPresent(t.s, row, a);
    assert y in keep || y in t.s.slugs;
    ReadResult(c, a, t.s.slugs, y);
    PlannedFits(a, t.s.slugs, keep, plan, y);
    PlannedSound(t, row, keep, drop, plan, y);
    assert forall z | z in keep && Stops(a, t.s.slugs, z) :: z in keep - {y};
  }

  lemma StopSolo(t: Context, c: Client, y: Slug)
    requires c.phase.Slugs? && Desires(t, c) && y in c.phase.keep && Stops(t.x.article, t.s.slugs, y)
    ensures AfterReadSlug(c, t.s.slugs, y, false) == Fail(c, SlugTaken)
  {
  }

  lemma ReadSlugSolo(t: Context, s: Store, c: Client, y: Slug)
    requires ContextOk(t) && c.phase.Slugs? && PhaseSolo(t, s, c) && c.op.ref.None? && c.op.desired.Some?
    requires y in c.phase.keep || y in c.phase.drop
    ensures PhaseSolo(t, s, AfterReadSlug(c, t.s.slugs, y, false)) && AfterReadSlug(c, t.s.slugs, y, false).op == c.op
  {
    hide Storable;
    hide SlugIndexExact;
    hide KeysOk;
    hide RowsStorable;
    hide Served;
    hide AfterReadSlug;
    hide Goal;
    assert !t.x.creates;
    var row := c.op.prior.value;
    assert PriorRow(t, row) && UpdatePlan(t, c, row);
    if y in c.phase.keep && Stops(t.x.article, t.s.slugs, y) {
      StopSolo(t, c, y);
      assert Goal(t) == Some(SlugTaken);
      FailSolo(t, s, c, SlugTaken);
    } else {
      ReadOnSolo(t, c, row, y);
    }
    hide PriorRow;
    hide UpdatePlan;
    hide PlanFits;
    hide Stops;
  }

  // ----- The batch -----

  /** An update that has read all its slugs: nothing stops it, and its batch fits. */
  lemma UpdateFits(t: Context, c: Client)
    requires ContextOk(t) && !t.x.creates && c.phase.Slugs? && SlugsOk(t, c) && c.phase.keep == {} == c.phase.drop
    requires c.op.mode == t.mode
    ensures Goal(t) == None && c.op.desired.Some? && PlanFits(t.s.slugs, c.phase.plan)
    ensures PlanSound(c.op.prior.value.article, t.x.article, {}, {}, c.phase.plan)
    ensures MovesLegacy(c) ==> TargetKey(c) !in t.s.rows
  {
    hide PlanSound;
    hide PlanFits;
    hide Storable;
    hide SlugIndexExact;
    hide Goal;
    hide PermanenceError;
    assert PriorRow(t, c.op.prior.value) && UpdatePlan(t, c, c.op.prior.value);
  }

  /** The row that the batch leaves, at a key that fits. */
  lemma UpdateRow(t: Context, c: Client)
    requires ContextOk(t) && !t.x.creates && c.phase.Slugs? && SlugsOk(t, c) && c.op.mode == t.mode
    ensures var row := NewRow(c, t.s.next);
            && c.op.prior.Some? && Gone(c) in t.s.rows && t.s.rows[Gone(c)] == c.op.prior.value && Gone(c).id == t.x.article.id
            && KeyFits(row.key, row.article) && row.article == t.x.article && row.key.id == t.x.article.id
            && (forall k | k in t.s.rows && k.id == row.key.id :: k == Gone(c))
            && (t.mode.CurrentOnly? ==> row.key.CurrentKey?)
  {
    hide PlanSound;
    hide PlanFits;
    hide Storable;
    hide SlugIndexExact;
    hide Goal;
    hide PermanenceError;
    assert PriorRow(t, c.op.prior.value);
    hide UpdatePlan;
  }

  /** Replacing the row and applying the plan leave a consistent table. */
  lemma UpdateWrites(t: Context, c: Client)
    requires ContextOk(t) && !t.x.creates && c.phase.Slugs? && SlugsOk(t, c) && c.phase.keep == {} == c.phase.drop
    requires c.op.mode == t.mode
    ensures c.op.desired.Some? && OnlyGoes(t, c)
    ensures Consistent(t.mode, RowsAfter(t, c), ApplyPlan(t.s.slugs, c.phase.plan, t.s.next))
  {
    ContextParts(t);
    assert Storable(t.x.article);
    UpdateFits(t, c);
    UpdateRow(t, c);
    var row := NewRow(c, t.s.next);
    hide ContextOk;
    hide SlugsOk;
    hide KeysOk;
    hide RowsStorable;
    hide Served;
    hide PlanSound;
    hide PlanFits;
    hide SlugIndexExact;
    hide Storable;
    hide NewRow;
    hide Gone;
    hide ApplyPlan;
    hide Goal;
    ReplaceKeys(t.s.rows, Gone(c), row);
    UpdateKeepsIndex(t.s.rows, t.s.slugs, Gone(c), row, c.phase.plan, t.s.next);
    StillServed(t.s.rows, t.mode, Gone(c), row);
  }

  lemma ContextParts(t: Context)
    requires ContextOk(t)
    ensures Consistent(t.mode, t.s.rows, t.s.slugs)
  {
    hide KeysOk;
    hide RowsStorable;
    hide Served;
    hide SlugIndexExact;
  }

  lemma StillServed(rows: map<Key, Row>, mode: Mode, gone: Key, row: Row)
    requires RowsStorable(rows) && Served(rows, mode) && Storable(row.article) && (mode.CurrentOnly? ==> row.key.CurrentKey?)
    ensures RowsStorable((rows - {gone})[row.key := row]) && Served((rows - {gone})[row.key := row], mode)
  {
    hide Storable;
  }

  lemma CreateFacts(t: Context, c: Client)
    requires ContextOk(t) && t.x.creates && c.phase.Slugs? && SlugsOk(t, c)
    ensures Storable(t.x.article) && c.op.desired == Some(t.x.article) && c.op.prior.None? && c.phase.plan == CreatePlan(t.x.article)
    ensures forall k | k in t.s.rows :: k.id != t.x.article.id
  {
    hide Storable;
    hide KeysOk;
    hide SlugIndexExact;
    hide RowsStorable;
    hide Served;
    hide CreatePlan;
  }

  lemma CreateWrites(t: Context, c: Client)
    requires ContextOk(t) && t.x.creates && c.phase.Slugs? && SlugsOk(t, c) && PlanFits(t.s.slugs, c.phase.plan)
    ensures c.op.desired.Some? && OnlyGoes(t, c)
    ensures Consistent(t.mode, RowsAfter(t, c), ApplyPlan(t.s.slugs, c.phase.plan, t.s.next))
  {
    hide ContextOk;
    hide SlugsOk;
    hide KeysOk;
    hide RowsStorable;
    hide Served;
    hide SlugIndexExact;
    hide Storable;
    hide PlanFits;
    hide ApplyPlan;
    hide RecordFor;
    hide Goal;
    CreateFacts(t, c);
    ContextParts(t);
    var row := NewRow(c, t.s.next);
    assert row.key == CurrentKeyOf(t.x.article) == Gone(c) && row.article == t.x.article;
    assert t.s.rows - {Gone(c)} == t.s.rows;
    hide NewRow;
    hide Gone;
    CreateKeepsIndex(t.s.rows, t.s.slugs, row, c.phase.plan, t.s.next);
    ReplaceKeys(t.s.rows, row.key, row);
    StillServed(t.s.rows, t.mode, row.key, row);
  }

  lemma CreateGoal(t: Context, c: Client)
    requires ContextOk(t) && t.x.creates && c.phase.Slugs? && SlugsOk(t, c)
    ensures Goal(t) == if PlanFits(t.s.slugs, c.phase.plan) then None else Some(SlugTaken)
    ensures c.op.desired.Some? && c.op.prior.None? && TargetKey(c) !in t.s.rows
  {
    assert ValidArticle(t.x.article) && t.x.article.id !in t.m;
    FreeIffNotTaken(t.s, t.m, t.x.article);
    assert forall k | k in t.s.rows :: k.id != t.x.article.id;
    hide ValidArticle;
    hide SlugIndexExact;
    hide PlanFits;
    hide M.TakenByOther;
  }

  function Committed(c: Client): Client { c.(op := c.op.(applied := true), phase := Refresh(false)) }

  lemma SameRow(c: Client, etag: ETag)
    requires c.op.desired.Some?
    ensures NewRow(Committed(c), etag) == NewRow(c, etag) && Gone(Committed(c)) == Gone(c)
  {
  }

  lemma AppliedFields(t: Context, s: Store, c: Client)
    requires Quiet(t, s) && c.op.desired.Some? && c.phase.Slugs? && (c.op.prior.None? ==> TargetKey(c) !in t.s.rows)
    ensures var s' := Applied(s, c);
            && s'.rows == RowsAfter(t, c) && s'.next == t.s.next + 1
            && s'.slugs == ApplyPlan(t.s.slugs, c.phase.plan, t.s.next)
  {
    AppliedRows(s, c);
    hide ApplyPlan;
    hide TargetKey;
    hide Gone;
    hide PublicOf;
  }

  lemma UpdateBatchFits(t: Context, s: Store, c: Client)
    requires ContextOk(t) && !t.x.creates && c.phase.Slugs? && SlugsOk(t, c) && c.phase.keep == {} == c.phase.drop
    requires c.op.mode == t.mode && Quiet(t, s)
    ensures c.op.desired.Some? && BatchFits(s, c)
  {
    UpdateFits(t, c);
    assert PriorRow(t, c.op.prior.value) && c.op.expected == t.x.expected;
    hide ContextOk;
    hide SlugsOk;
    hide PlanSound;
    hide PlanFits;
    hide Goal;
    hide TargetKey;
    hide MovesLegacy;
    hide PermanenceError;
  }

  /** The client's view of the batch does not depend on the flag and the phase. */
  lemma WroteCommitted(t: Context, s: Store, c: Client)
    requires Desires(t, c) && Goal(t).None? && s.rows == RowsAfter(t, c) && s.next == t.s.next + 1 && OnlyGoes(t, c)
    requires Consistent(t.mode, s.rows, s.slugs) && PriorThere(t, c)
    ensures Wrote(t, s, Committed(c))
  {
    hide Goal;
    hide Consistent;
    SameRow(c, t.s.next);
    hide NewRow;
    hide Gone;
  }

  lemma UpdateCommitted(t: Context, s: Store, c: Client)
    requires ContextOk(t) && !t.x.creates && c.phase.Slugs? && SlugsOk(t, c) && c.phase.keep == {} == c.phase.drop
    requires c.op.mode == t.mode && Quiet(t, s)
    ensures c.op.desired.Some? && BatchFits(s, c) && Wrote(t, Applied(s, c), Committed(c))
  {
    UpdateBatchFits(t, s, c);
    UpdateWrites(t, c);
    UpdateRow(t, c);
    assert Desires(t, c) && c.op.prior.Some? && PriorThere(t, c);
    hide SlugsOk;
    hide Applied;
    hide RowsAfter;
    hide OnlyGoes;
    hide Consistent;
    hide ContextOk;
    hide Goal;
    UpdateFits(t, c);
    AppliedFields(t, s, c);
    WroteCommitted(t, Applied(s, c), c);
    hide Wrote;
    hide BatchFits;
    hide ApplyPlan;
    hide PlanSound;
    hide PlanFits;
  }

  lemma CreateBatchFits(t: Context, s: Store, c: Client)
    requires ContextOk(t) && t.x.creates && c.phase.Slugs? && SlugsOk(t, c) && Quiet(t, s)
    ensures c.op.desired.Some? && (BatchFits(s, c) <==> Goal(t).None?)
    ensures Goal(t).Some? ==> Goal(t) == Some(SlugTaken)
  {
    CreateGoal(t, c);
    hide ContextOk;
    hide SlugsOk;
    hide PlanFits;
    hide Goal;
    hide TargetKey;
  }

  lemma CreateCommitted(t: Context, s: Store, c: Client)
    requires ContextOk(t) && t.x.creates && c.phase.Slugs? && SlugsOk(t, c) && Quiet(t, s) && Goal(t).None?
    ensures c.op.desired.Some? && Wrote(t, Applied(s, c), Committed(c))
  {
    CreateGoal(t, c);
    CreateWrites(t, c);
    assert Desires(t, c);
    hide SlugsOk;
    hide Applied;
    hide RowsAfter;
    hide OnlyGoes;
    hide Consistent;
    hide ContextOk;
    hide Goal;
    AppliedFields(t, s, c);
    WroteCommitted(t, Applied(s, c), c);
    hide Wrote;
    hide ApplyPlan;
    hide PlanFits;
  }

  /** The acting client and the store changed; what holds of the call's own values stays. */
  lemma Resolo(t: Context, w: World, s: Store, c: Client)
    requires SoloOk(t, w) && PhaseSolo(t, s, c)
    requires var o := w.clients[0].op;
             c.op.request == o.request && c.op.mode == o.mode && c.op.expected == o.expected && c.op.ref == o.ref && c.op.base == o.base
    ensures SoloOk(t, World(s, w.clients[0 := c]))
  {
    hide PhaseSolo;
  }

  /** The commit of a solo run, whatever the call is. */
  lemma CommitSolo(t: Context, w: World, step: Step)
    requires ContextOk(t) && SoloOk(t, w) && step.Commit? && step.client == 0 && Enabled(w, step) && Smooth(w, step)
    ensures SoloOk(t, Next(w, step))
  {
    hide ContextOk;
    hide SoloOk;
    hide SlugsOk;
    hide Goal;
    hide BatchFits;
    hide Applied;
    hide Next;
    hide Enabled;
    hide Smooth;
    hide Wrote;
    hide AfterCommit;
    SoloClient(t, w);
    var c := w.clients[0];
    CommitPhase(t, w, step);
    CommitResult(w, step);
    if t.x.creates {
      CreateBatchFits(t, w.store, c);
      if Goal(t).None? {
        CreateCommitted(t, w.store, c);
        Resolo(t, w, Applied(w.store, c), Committed(c));
      } else {
        CreateRefused(t, w, c);
      }
    } else {
      UpdateCommitted(t, w.store, c);
      Resolo(t, w, Applied(w.store, c), Committed(c));
    }
  }

  lemma SoloClient(t: Context, w: World)
    requires SoloOk(t, w)
    ensures 0 in w.clients
  {
    hide PhaseSolo;
  }

  lemma CreateRefused(t: Context, w: World, c: Client)
    requires SoloOk(t, w) && c == w.clients[0] && t.x.creates && Quiet(t, w.store) && Desires(t, c) && Goal(t) == Some(SlugTaken)
    ensures var c' := AfterCommit(c.(op := c.op.(applied := false)), Refused(DriverConflict));
            SoloOk(t, World(Abandon(w.store, c'), w.clients[0 := c']))
  {
    var c' := AfterCommit(c.(op := c.op.(applied := false)), Refused(DriverConflict));
    assert c'.phase == ConflictProbe(false) by { assert c.op.request.CreateDraft?; }
    assert PhaseSolo(t, w.store, c') by { hide Goal; }
    hide PhaseSolo;
    hide Goal;
    Resolo(t, w, w.store, c');
  }

  lemma CommitPhase(t: Context, w: World, step: Step)
    requires SoloOk(t, w) && step.Commit? && step.client == 0 && Enabled(w, step)
    ensures var c := w.clients[0];
            && c.phase.Slugs? && SlugsOk(t, c) && Quiet(t, w.store) && c.phase.keep == {} == c.phase.drop
            && c.op.mode == t.mode && c.op.desired.Some? && Desires(t, c)
  {
    hide BatchFits;
    hide Goal;
    hide Wrote;
    hide UpdatePlan;
    hide PriorRow;
    hide PlanFits;
  }

  lemma CommitResult(w: World, step: Step)
    requires Enabled(w, step) && step.Commit? && Smooth(w, step) && w.clients[step.client].op.desired.Some?
    ensures var c := w.clients[step.client];
            Next(w, step) ==
            if BatchFits(w.store, c) then World(Applied(w.store, c), w.clients[step.client := Committed(c)])
            else
              var c' := AfterCommit(c.(op := c.op.(applied := false)), Refused(DriverConflict));
              World(Abandon(w.store, c'), w.clients[step.client := c'])
  {
    hide Applied;
    hide BatchFits;
  }

  // ----- After the batch -----

  lemma WroteRow(t: Context, s: Store, c: Client)
    requires Wrote(t, s, c)
    ensures var row := NewRow(c, t.s.next);
            row.key in s.rows && s.rows[row.key] == row && row.article == t.x.article && Listed(row, t.x.article.id)
    ensures forall k | k in s.rows && k.id == t.x.article.id :: s.rows[k] == NewRow(c, t.s.next)
  {
    hide Goal;
    hide SlugIndexExact;
    hide RowsStorable;
    hide Served;
    assert KeyFits(NewRow(c, t.s.next).key, t.x.article);
  }

  lemma WroteSlugs(t: Context, s: Store, c: Client)
    requires ContextOk(t) && Wrote(t, s, c)
    ensures forall y | y in SlugMap(t.x.article) :: y in s.slugs && s.slugs[y].record == SlugMap(t.x.article)[y]
    ensures forall y | y in PriorSlugs(c) - SlugSet(t.x.article) :: y !in s.slugs
  {
    hide ContextOk;
    hide Wrote;
    hide SlugMap;
    hide PriorSlugs;
    hide SlugSet;
    forall y | y in SlugMap(t.x.article) ensures y in s.slugs && s.slugs[y].record == SlugMap(t.x.article)[y] {
      NewSlugThere(t, s, c, y);
    }
    forall y | y in PriorSlugs(c) - SlugSet(t.x.article) ensures y !in s.slugs {
      PriorSlug(c, y);
      OldSlugGone(t, s, c, y);
    }
  }

  lemma PriorSlug(c: Client, y: Slug)
    requires y in PriorSlugs(c)
    ensures c.op.prior.Some? && Reserves(c.op.prior.value.article, y)
  {
    hide SlugSet;
    hide Reserves;
  }

  lemma NewSlugThere(t: Context, s: Store, c: Client, y: Slug)
    requires Wrote(t, s, c) && Reserves(t.x.article, y)
    ensures y in s.slugs && s.slugs[y].record == SlugMap(t.x.article)[y]
  {
    hide Wrote;
    hide NewRow;
    hide Reserves;
    hide RecordFor;
    hide KeysOk;
    hide SlugsOwned;
    WroteRow(t, s, c);
    WroteIndex(t, s, c);
    MapRecord(t.x.article, y);
    hide SlugMap;
  }

  lemma MapRecord(a: Article, y: Slug)
    requires Reserves(a, y)
    ensures y in SlugMap(a) && SlugMap(a)[y] == RecordFor(a, y)
  {
  }

  lemma WroteIndex(t: Context, s: Store, c: Client)
    requires Wrote(t, s, c)
    ensures SlugsPresent(s.rows, s.slugs) && SlugsOwned(s.rows, s.slugs) && KeysOk(s.rows)
  {
    hide KeysOk;
    hide SlugsPresent;
    hide SlugsOwned;
    hide RowsStorable;
    hide Served;
    hide Goal;
    hide RowsAfter;
    hide OnlyGoes;
  }

  lemma OldSlugGone(t: Context, s: Store, c: Client, y: Slug)
    requires ContextOk(t) && Wrote(t, s, c) && c.op.prior.Some?
    requires Reserves(c.op.prior.value.article, y) && !Reserves(t.x.article, y)
    ensures y !in s.slugs
  {
    hide Wrote;
    hide ContextOk;
    hide Reserves;
    hide NewRow;
    hide KeysOk;
    hide SlugsPresent;
    WroteDesires(t, s, c);
    WroteRow(t, s, c);
    WroteIndex(t, s, c);
    forall k | k in s.rows ensures !Reserves(s.rows[k].article, y) {
      if k != NewRow(c, t.s.next).key {
        OthersReserve(t, s, c, k, y);
      }
    }
  }

  /** The other rows are as before, and none of them had a slug of the replaced version. */
  lemma OthersReserve(t: Context, s: Store, c: Client, k: Key, y: Slug)
    requires ContextOk(t) && Wrote(t, s, c) && c.op.prior.Some?
    requires Reserves(c.op.prior.value.article, y) && k in s.rows && k != NewRow(c, t.s.next).key
    ensures !Reserves(s.rows[k].article, y)
  {
    assert KeysOk(t.s.rows) && SlugsPresent(t.s.rows, t.s.slugs);
    assert k in t.s.rows && t.s.rows[k] == s.rows[k] && k != c.op.prior.value.key;
    hide Reserves;
    hide ContextOk;
    hide Wrote;
    hide KeysOk;
    hide SlugsPresent;
    if Reserves(s.rows[k].article, y) {
      SlugsDisjoint(t.s.rows, t.s.slugs, k, c.op.prior.value.key, y);
    }
  }

  lemma RefreshSolo(t: Context, s: Store, c: Client, answer: Answer)
    requires ContextOk(t) && c.phase == Refresh(false) && PhaseSolo(t, s, c) && c.op.desired.Some?
    requires AnswerOk(s.rows, t.x.article.id, false, answer) && !answer.ReadFailed?
    ensures !answer.Absent? && PhaseSolo(t, s, AfterRefresh(c, s, answer)) && AfterRefresh(c, s, answer).op == c.op
  {
    assert Wrote(t, s, c);
    WroteRow(t, s, c);
    WroteSlugs(t, s, c);
    assert KeysOk(s.rows);
    if answer.Saw? {
      AnswerIsRow(s.rows, t.x.article.id, false, answer);
    }
    assert Desires(t, c);
    WroteVerifies(t, s, c);
    hide ContextOk;
    hide Wrote;
    hide KeysOk;
    hide Holds;
    hide SlugMap;
    hide SlugSet;
    hide NewRow;
    hide PhaseSolo;
  }

  lemma WroteVerifies(t: Context, s: Store, c: Client)
    requires ContextOk(t) && Wrote(t, s, c) && c.op.desired.Some?
    ensures PhaseSolo(t, s, VerifyDesired(c, s)) && VerifyDesired(c, s).op == c.op
  {
    hide ContextOk;
    hide Wrote;
    hide PhaseSolo;
    hide Ending;
    hide VerifyDesired;
    WroteSlugs(t, s, c);
    WroteDesires(t, s, c);
    BeginsVerifying(t, s, c);
    WroteMoves(t, s, c, VerifyDesired(c, s));
    EndingSolo(t, s, VerifyDesired(c, s));
  }

  lemma BeginsVerifying(t: Context, s: Store, c: Client)
    requires Desires(t, c) && c.op.desired.Some?
    requires forall y | y in SlugMap(t.x.article) :: y in s.slugs && s.slugs[y].record == SlugMap(t.x.article)[y]
    requires forall y | y in PriorSlugs(c) - SlugSet(t.x.article) :: y !in s.slugs
    ensures VerifyDesired(c, s).op == c.op && Ending(t, s, VerifyDesired(c, s).phase)
  {
    hide SlugMap;
    hide SlugSet;
    hide PriorSlugs;
    hide Holds;
  }

  /** What the batch wrote stays while the client goes on. */
  lemma WroteMoves(t: Context, s: Store, c: Client, c': Client)
    requires Wrote(t, s, c) && c'.op == c.op
    ensures Wrote(t, s, c')
  {
    hide Goal;
    hide Consistent;
    assert c.op.desired.Some? ==> NewRow(c', t.s.next) == NewRow(c, t.s.next) && Gone(c') == Gone(c);
    hide NewRow;
    hide Gone;
  }

  /** The phase of a client that has written, and checks or ends. */
  predicate Ending(t: Context, s: Store, p: Phase) {
    match p
    case Verify(present, absent, goal) =>
      && goal.IsDesired?
      && (forall y | y in present :: y in s.slugs && s.slugs[y].record == present[y])
      && (forall y | y in absent :: y !in s.slugs)
    case Finished(outcome) => outcome == Ok(t.x.article)
    case _ => false
  }

  lemma EndingSolo(t: Context, s: Store, c: Client)
    requires Wrote(t, s, c) && Ending(t, s, c.phase)
    ensures PhaseSolo(t, s, c)
  {
    hide Wrote;
    hide SlugsOk;
    hide Goal;
    hide Storable;
    hide ValidArticle;
    hide NotListed;
  }

  lemma VerifyEnding(t: Context, s: Store, c: Client)
    requires c.phase.Verify? && PhaseSolo(t, s, c)
    ensures Wrote(t, s, c) && Ending(t, s, c.phase)
  {
    hide Wrote;
    hide SlugsOk;
    hide Goal;
    hide Storable;
    hide ValidArticle;
    hide NotListed;
  }

  lemma VerifySlugSolo(t: Context, s: Store, c: Client, y: Slug)
    requires c.phase.Verify? && PhaseSolo(t, s, c) && (y in c.phase.present || y in c.phase.absent)
    ensures PhaseSolo(t, s, AfterVerifySlug(c, s.slugs, y, false)) && AfterVerifySlug(c, s.slugs, y, false).op == c.op
  {
    hide PhaseSolo;
    hide Wrote;
    hide Ending;
    hide AfterVerifySlug;
    VerifyEnding(t, s, c);
    var c' := AfterVerifySlug(c, s.slugs, y, false);
    SlugVerified(t, s, c, y);
    WroteMoves(t, s, c, c');
    EndingSolo(t, s, c');
  }

  lemma SlugVerified(t: Context, s: Store, c: Client, y: Slug)
    requires c.phase.Verify? && Ending(t, s, c.phase) && (y in c.phase.present || y in c.phase.absent)
    ensures var c' := AfterVerifySlug(c, s.slugs, y, false); c'.op == c.op && Ending(t, s, c'.phase)
  {
  }

  lemma VerifiedSolo(t: Context, s: Store, c: Client)
    requires c.phase.Verify? && PhaseSolo(t, s, c) && c.op.desired.Some? && !c.op.request.SaveDraft?
    ensures PhaseSolo(t, s, AfterVerified(c)) && AfterVerified(c).op == c.op
  {
    hide PhaseSolo;
    hide Wrote;
    hide Ending;
    hide AfterVerified;
    VerifyEnding(t, s, c);
    WroteDesires(t, s, c);
    AllVerified(t, s, c);
    WroteMoves(t, s, c, AfterVerified(c));
    EndingSolo(t, s, AfterVerified(c));
  }

  lemma WroteDesires(t: Context, s: Store, c: Client)
    requires Wrote(t, s, c)
    ensures Desires(t, c) && c.op.desired.Some?
  {
    hide Consistent;
    hide Goal;
    hide RowsAfter;
    hide OnlyGoes;
    hide PriorThere;
  }

  lemma AllVerified(t: Context, s: Store, c: Client)
    requires c.phase.Verify? && Ending(t, s, c.phase) && Desires(t, c) && c.op.desired.Some? && !c.op.request.SaveDraft?
    ensures AfterVerified(c).op == c.op && Ending(t, s, AfterVerified(c).phase)
  {
  }

  lemma ConflictProbeSolo(t: Context, s: Store, c: Client, answer: Answer)
    requires ContextOk(t) && c.phase.ConflictProbe? && PhaseSolo(t, s, c) && c.op.ref.None?
    requires AnswerOk(t.s.rows, t.x.article.id, c.phase.again, answer) && !answer.ReadFailed?
    ensures PhaseSolo(t, s, AfterConflictProbe(c, answer)) && AfterConflictProbe(c, answer).op == c.op
  {
    assert t.x.article.id !in t.m;
    if answer.Saw? {
      SawIsRow(t, t.x.article.id, c.phase.again, answer);
    }
    assert !answer.Saw?;
    hide ContextOk;
    hide Goal;
    FailSolo(t, s, c, SlugTaken);
  }

  // ----- Every step -----

  /** A read whose query by ID found nothing goes on to the legacy row. */
  lemma AgainSolo(t: Context, s: Store, c: Client)
    requires GetPhase(c.phase) && !c.phase.again && c.op.mode == t.mode == Compat && PhaseSolo(t, s, c) && !c.phase.Refresh?
    requires AnswerOk(t.s.rows, t.x.article.id, false, Absent)
    ensures PhaseSolo(t, s, c.(phase := Again(c.phase)))
  {
    AbsentIsNotListed(t.s.rows, t.x.article.id);
    hide Goal;
    hide Wrote;
    hide Storable;
    hide ValidArticle;
  }

  /** What a read comes to, by phase. */
  lemma GetGoes(s: Store, c: Client, answer: Answer, now: Time)
    requires GetPhase(c.phase) && !c.phase.Read? && c.op.desired.Some?
    ensures var c' := GetStep(c, s, answer, now);
            if !c.phase.again && c.op.mode.Compat? && answer.Absent? then c' == c.(phase := Again(c.phase))
            else
              && (c.phase.Probe? ==> c' == AfterProbe(c, answer)) && (c.phase.Reread? ==> c' == AfterReread(c, answer))
              && (c.phase.ConflictProbe? ==> c' == AfterConflictProbe(c, answer))
              && (c.phase.Refresh? ==> c' == AfterRefresh(c, s, answer))
  {
    hide AfterProbe;
    hide AfterReread;
    hide AfterRefresh;
    hide AfterReconcile;
    hide AfterConflictProbe;
  }

  /** Where a read may be, and what it reads. */
  lemma GetFrom(t: Context, s: Store, c: Client)
    requires PhaseSolo(t, s, c) && GetPhase(c.phase)
    ensures !c.phase.Refresh? ==> s.rows == t.s.rows
    ensures c.phase.Refresh? ==> !c.phase.again
    ensures !c.phase.Read? && !c.phase.Reconcile?
  {
    hide Wrote;
    hide SlugsOk;
    hide Goal;
    hide Storable;
    hide ValidArticle;
  }

  lemma GetSolo(t: Context, s: Store, c: Client, answer: Answer, now: Time)
    requires ContextOk(t) && PhaseSolo(t, s, c) && GetPhase(c.phase) && (!c.phase.Read? ==> c.op.desired.Some?)
    requires c.op.ref.None? && c.op.expected == t.x.expected && c.op.mode == t.mode
    requires AnswerOk(s.rows, t.x.article.id, c.phase.again, answer) && !answer.ReadFailed?
    ensures PhaseSolo(t, s, GetStep(c, s, answer, now))
    ensures GetStep(c, s, answer, now).op == c.op.(prior := GetStep(c, s, answer, now).op.prior)
  {
    hide ContextOk;
    hide PhaseSolo;
    hide AnswerOk;
    hide GetStep;
    hide AfterProbe;
    hide AfterReread;
    hide AfterRefresh;
    hide AfterConflictProbe;
    GetFrom(t, s, c);
    GetGoes(s, c, answer, now);
    if c.phase.Refresh? {
      RefreshSolo(t, s, c, answer);
    } else if !c.phase.again && c.op.mode.Compat? && answer.Absent? {
      AgainSolo(t, s, c);
    } else if c.phase.Probe? {
      ProbeSolo(t, s, c, answer);
    } else if c.phase.Reread? {
      RereadSolo(t, s, c, answer);
    } else {
      ConflictProbeSolo(t, s, c, answer);
    }
  }

  /** The only client takes all the steps. */
  lemma OnlyClient(t: Context, w: World, step: Step)
    requires SoloOk(t, w) && Enabled(w, step) && Smooth(w, step)
    ensures step.Get? || step.ReadSlug? || step.VerifySlug? || step.Verified? || step.Commit?
    ensures step.client == 0 && 0 in w.clients
  {
    hide PhaseSolo;
    hide BatchFits;
    hide AnswerOk;
  }

  /** What a read-only step makes of the client; the store stays, as no body is given up and no clock is read. */
  lemma QuietSolo(t: Context, w: World, step: Step)
    requires ContextOk(t) && SoloOk(t, w) && Enabled(w, step) && Smooth(w, step) && IsReadOnly(step) && step.client == 0
    ensures var c, c' := w.clients[0], ReadOnly(w, step);
            PhaseSolo(t, w.store, c') && c'.op == c.op.(prior := c'.op.prior)
    ensures !w.clients[0].phase.Read?
  {
    var s, c := w.store, w.clients[0];
    assert !c.phase.Read? && !c.phase.PutCheck? && !c.phase.ReconcileLegacy?;
    assert c.phase.Slugs? ==> w.store.slugs == t.s.slugs;
    assert IdOf(c) == t.x.article.id;
    hide ContextOk;
    hide PhaseSolo;
    hide AnswerOk;
    hide GetStep;
    hide AfterReadSlug;
    hide AfterVerifySlug;
    hide AfterVerified;
    match step
    case Get(_, answer, now) => GetSolo(t, s, c, answer, now);
    case ReadSlug(_, y, _) => ReadSlugSolo(t, s, c, y);
    case VerifySlug(_, y, _) => VerifySlugSolo(t, s, c, y);
    case Verified(_) => VerifiedSolo(t, s, c);
    case _ =>
  }

  lemma NoDiscard(t: Context, s: Store, c: Client)
    requires PhaseSolo(t, s, c)
    ensures !c.phase.Discard?
  {
    hide Wrote;
    hide Goal;
  }

  /** Every smooth step keeps what holds of the solo run. */
  lemma StepSolo(t: Context, w: World, step: Step)
    requires ContextOk(t) && SoloOk(t, w) && Enabled(w, step) && Smooth(w, step)
    ensures SoloOk(t, Next(w, step))
  {
    OnlyClient(t, w, step);
    hide ContextOk;
    hide PhaseSolo;
    if step.Commit? {
      CommitSolo(t, w, step);
    } else {
      QuietSolo(t, w, step);
      NextReadOnly(w, step);
      NoDiscard(t, w.store, ReadOnly(w, step));
      hide Next;
      hide Enabled;
      hide Smooth;
      hide ReadOnly;
      Resolo(t, w, w.store, ReadOnly(w, step));
    }
  }

  lemma {:induction false} RunSolo(t: Context, w: World, steps: seq<Step>)
    requires ContextOk(t) && SoloOk(t, w) && Possible(w, steps) && SmoothRun(w, steps)
    ensures SoloOk(t, Run(w, steps))
    decreases |steps|
  {
    hide ContextOk;
    hide SoloOk;
    hide Enabled;
    hide Next;
    hide Smooth;
    if steps != [] {
      StepSolo(t, w, steps[0]);
      RunSolo(t, Next(w, steps[0]), steps[1..]);
    }
  }

  lemma BeginGoal(t: Context)
    requires ContextOk(t)
    ensures t.x.creates ==> (Storable(t.x.article) <==> ValidArticle(t.x.article))
    ensures !ValidArticle(t.x.article) ==> Goal(t) == Some(Validation)
  {
    hide ValidArticle;
    hide KeysOk;
    hide SlugIndexExact;
  }

  lemma BeginPhase(t: Context)
    requires ContextOk(t)
    ensures PhaseSolo(t, t.s, Begun(t.x, t.mode, t.s.next))
  {
    hide ContextOk;
    hide Goal;
    hide Storable;
    hide ValidArticle;
    hide Wrote;
    hide SlugsOk;
    hide NotListed;
    BeginGoal(t);
  }

  lemma BeginSolo(t: Context)
    requires ContextOk(t)
    ensures SoloOk(t, Alone(t.s, t.x, t.mode))
  {
    hide ContextOk;
    hide PhaseSolo;
    hide Storable;
    hide ValidArticle;
    BeginPhase(t);
  }

  /**
    Alone and without failures, whatever the order of the slug reads: when the
    call ends, its answer is that of the memory repository, and its batch took
    effect exactly if that is a success.
   */
  lemma WriteAnswers(t: Context, steps: seq<Step>, outcome: Result<Article>)
    requires ContextOk(t) && Possible(Alone(t.s, t.x, t.mode), steps) && SmoothRun(Alone(t.s, t.x, t.mode), steps)
    requires var w := Run(Alone(t.s, t.x, t.mode), steps); 0 in w.clients && w.clients[0].phase == Finished(outcome)
    ensures var w := Run(Alone(t.s, t.x, t.mode), steps); Answered(t, w.store, w.clients[0], outcome)
  {
    hide ContextOk;
    hide Possible;
    hide Run;
    hide SmoothRun;
    hide Alone;
    hide Answered;
    BeginSolo(t);
    RunSolo(t, Alone(t.s, t.x, t.mode), steps);
  }

  // ----- Such runs come to their end -----

  /** A step that the client can take next. */
  ghost function NextStep(w: World): Step
    requires 0 in w.clients && KeysOk(w.store.rows)
  {
    var c := w.clients[0];
    if GetPhase(c.phase) then Get(0, R.AnswerOf(w.store.rows, IdOf(c), c.phase.again), 0)
    else if c.phase.Slugs? then
      if c.phase.keep + c.phase.drop == {} then
        if c.op.desired.Some? && BatchFits(w.store, c) then Commit(0, true, Accepted) else Commit(0, false, Refused(DriverConflict))
      else
        var y :| y in c.phase.keep + c.phase.drop;
        ReadSlug(0, y, false)
    else if c.phase.Verify? then
      if c.phase.present.Keys + c.phase.absent == {} then Verified(0)
      else
        var y :| y in c.phase.present.Keys + c.phase.absent;
        VerifySlug(0, y, false)
    else Verified(0)
  }

  lemma NextStepEnabled(t: Context, w: World)
    requires SoloOk(t, w) && !w.clients[0].phase.Finished? && KeysOk(w.store.rows)
    ensures Enabled(w, NextStep(w)) && Smooth(w, NextStep(w))
  {
    hide KeysOk;
    hide Goal;
    hide BatchFits;
    hide Storable;
    hide ValidArticle;
    hide PriorRow;
    hide UpdatePlan;
    hide PlanFits;
    PhaseDesires(t, w.store, w.clients[0]);
    var c := w.clients[0];
    if c.phase.Slugs? {
      assert c.phase.keep + c.phase.drop == {} ==> c.phase.keep == {} && c.phase.drop == {};
    } else if c.phase.Verify? {
      assert c.phase.present.Keys + c.phase.absent == {} ==> c.phase.present.Keys == {} && c.phase.present == map[] && c.phase.absent == {};
    }
    hide Wrote;
    hide SlugsOk;
    hide AnswerOk;
  }

  lemma PhaseDesires(t: Context, s: Store, c: Client)
    requires PhaseSolo(t, s, c) && !c.phase.Finished?
    ensures c.op.desired.Some? && !c.phase.Read? && (GetPhase(c.phase) || c.phase.Slugs? || c.phase.Verify?)
  {
    hide Goal;
    hide Consistent;
    hide RowsAfter;
    hide OnlyGoes;
    hide PriorThere;
    hide Storable;
    hide ValidArticle;
    hide PriorRow;
    hide UpdatePlan;
    hide PlanFits;
  }

  lemma SlugNearer(c: Client, slugs: map<Slug, SlugRow>, y: Slug)
    requires c.phase.Slugs? && c.op.desired.Some? && (y in c.phase.keep || y in c.phase.drop)
    ensures R.Nearer(c.phase, AfterReadSlug(c, slugs, y, false).phase)
  {
    hide RecordFor;
    var Slugs(keep, drop, plan) := c.phase;
    if y in keep {
      assert |keep - {y}| == |keep| - 1;
    } else {
      assert |drop - {y}| == |drop| - 1;
    }
  }

  lemma GetNearer(s: Store, c: Client, answer: Answer, now: Time)
    requires GetPhase(c.phase) && !c.phase.Read? && !c.phase.Reconcile? && c.op.desired.Some?
    requires c.phase.Refresh? ==> !c.phase.again && !answer.Absent?
    ensures R.Nearer(c.phase, GetStep(c, s, answer, now).phase)
  {
    hide Storable;
    hide PermanenceError;
    hide SlugSet;
    hide SlugMap;
    hide Holds;
  }

  lemma QuietNearer(t: Context, w: World, step: Step)
    requires ContextOk(t) && SoloOk(t, w) && Enabled(w, step) && Smooth(w, step) && IsReadOnly(step) && step.client == 0
    requires var c := w.clients[0]; c.op.desired.Some? && !c.phase.Read?
    ensures R.Nearer(w.clients[0].phase, ReadOnly(w, step).phase)
  {
    hide ContextOk;
    hide AnswerOk;
    hide GetStep;
    hide AfterReadSlug;
    hide AfterVerifySlug;
    hide R.Nearer;
    var c := w.clients[0];
    match step
    case Get(_, answer, now) =>
      GetFrom(t, w.store, c);
      assert IdOf(c) == t.x.article.id;
      if c.phase.Refresh? {
        assert c.phase == Refresh(false);
        RefreshSolo(t, w.store, c, answer);
      }
      GetNearer(w.store, c, answer, now);
    case ReadSlug(_, y, _) => SlugNearer(c, w.store.slugs, y);
    case VerifySlug(_, y, _) => R.VerifyNearer(c, w.store.slugs, y);
    case Verified(_) => EndNearer(c);
    case _ =>
  }

  lemma EndNearer(c: Client)
    requires c.phase.Verify? && c.op.desired.Some?
    ensures R.Nearer(c.phase, AfterVerified(c).phase)
  {
  }

  /** The accepted batch and the refused one both bring the end nearer. */
  lemma CommitNearer(t: Context, w: World, step: Step)
    requires SoloOk(t, w) && Enabled(w, step) && Smooth(w, step) && step.Commit? && step.client == 0
    requires var c := w.clients[0]; c.op.desired.Some? && c.phase.Slugs?
    ensures 0 in Next(w, step).clients && R.Nearer(w.clients[0].phase, Next(w, step).clients[0].phase)
  {
    hide PhaseSolo;
    hide Next;
    hide Enabled;
    hide Smooth;
    hide Applied;
    hide BatchFits;
    CommitResult(w, step);
  }

  lemma ReadNearer(t: Context, w: World, step: Step)
    requires ContextOk(t) && SoloOk(t, w) && Enabled(w, step) && Smooth(w, step) && IsReadOnly(step) && step.client == 0
    requires var c := w.clients[0]; c.op.desired.Some? && !c.phase.Read?
    ensures 0 in Next(w, step).clients && R.Nearer(w.clients[0].phase, Next(w, step).clients[0].phase)
  {
    hide ContextOk;
    hide SoloOk;
    hide Next;
    hide Enabled;
    hide Smooth;
    hide ReadOnly;
    NextReadOnly(w, step);
    QuietNearer(t, w, step);
  }

  lemma CommitPhaseIs(w: World, step: Step)
    requires Enabled(w, step) && step.Commit?
    ensures w.clients[step.client].phase.Slugs?
  {
  }

  lemma NextNearer(t: Context, w: World)
    requires ContextOk(t) && SoloOk(t, w) && !w.clients[0].phase.Finished? && KeysOk(w.store.rows)
    requires Enabled(w, NextStep(w)) && Smooth(w, NextStep(w))
    ensures 0 in Next(w, NextStep(w)).clients && R.Nearer(w.clients[0].phase, Next(w, NextStep(w)).clients[0].phase)
  {
    hide ContextOk;
    hide PhaseSolo;
    hide KeysOk;
    hide Enabled;
    hide Smooth;
    hide Next;
    hide R.Nearer;
    hide NextStep;
    var step := NextStep(w);
    PhaseDesires(t, w.store, w.clients[0]);
    OnlyClient(t, w, step);
    if step.Commit? {
      CommitPhaseIs(w, step);
      CommitNearer(t, w, step);
    } else {
      ReadNearer(t, w, step);
    }
  }

  lemma SoloKeys(t: Context, w: World)
    requires ContextOk(t) && SoloOk(t, w) && !w.clients[0].phase.Finished?
    ensures KeysOk(w.store.rows)
  {
    hide KeysOk;
    hide SlugIndexExact;
    hide RowsStorable;
    hide Served;
    hide Goal;
    hide RowsAfter;
    hide OnlyGoes;
    hide PriorThere;
    hide SlugsOk;
    hide Storable;
    hide ValidArticle;
    hide NotListed;
  }

  /** From every moment of a solo run there is a smooth way to its end. */
  lemma {:induction false} Finishes(t: Context, w: World) returns (steps: seq<Step>)
    requires ContextOk(t) && SoloOk(t, w)
    ensures Possible(w, steps) && SmoothRun(w, steps)
    ensures var w' := Run(w, steps); 0 in w'.clients && w'.clients[0].phase.Finished?
    decreases R.Stage(w.clients[0].phase), R.Left(w.clients[0].phase)
  {
    hide ContextOk;
    hide PhaseSolo;
    hide Enabled;
    hide Next;
    hide Smooth;
    hide KeysOk;
    hide NextStep;
    if w.clients[0].phase.Finished? {
      steps := [];
    } else {
      SoloKeys(t, w);
      NextStepEnabled(t, w);
      NextNearer(t, w);
      var step := NextStep(w);
      StepSolo(t, w, step);
      var rest := Finishes(t, Next(w, step));
      steps := [step] + rest;
      assert steps[1..] == rest;
    }
  }
}
