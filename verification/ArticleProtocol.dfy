/**
  Any number of clients running CreateDraft, SaveDraft, Publish and Withdraw
  against one table and one body store. Every driver call is one atomic step;
  a mutation may fail before or after it took effect.
  internal/articles/service.go driving internal/storage/azure/articles.go,
  bodies.go and outcome.go.

  Assumptions, as the design states them: reads are linearizable and answer
  "not found" only when nothing is there; ETags and body versions are never
  reused; article IDs are fresh; an error outside transient, cancelled and
  deadline means no effect; the outcome of a failed mutation is settled when
  the call returns; and the ETag a caller expects was issued before its call.
 */
module ArticleProtocol {
  import opened Outcomes
  import opened ArticleModel
  import opened ArticleTable

  /** CreateDraft carries the validated article without its body; SaveDraft the outcome of normalizeDraftInput. */
  datatype Request =
    | CreateDraft(article: Article)
    | SaveDraft(id: Id, input: Result<DraftFields>)
    | Publish(id: Id)
    | Withdraw(id: Id)

  datatype Goal = IsDesired | IsPrior

  /** Where a client is; again marks the second, legacy read of getWithRowKey. */
  datatype Phase =
    | Read(again: bool)
    | Putting
    | PutCheck
    | Probe(again: bool)
    | Reread(again: bool)
    | Slugs(keep: set<Slug>, drop: set<Slug>, plan: map<Slug, SlugAction>)
    | ConflictProbe(again: bool)
    | Refresh(again: bool)
    | Reconcile(again: bool)
    | ReconcileLegacy(isDesired: bool, isPrior: bool)
    | Verify(present: map<Slug, SlugRecord>, absent: set<Slug>, goal: Goal)
    | Discard(error: Error)
    | DropOld
    | Finished(outcome: Result<Article>)

  /**
    The operation and its local values: base is what the service read, prior
    what the repository read, ref the body just uploaded, desired the article
    to store. expected is the caller's ETag, and born the next ETag when the
    call began. applied is history: the batch took effect.
   */
  datatype Op = Op(
    request: Request, mode: Mode, expected: ETag, born: ETag,
    base: Option<Row>, ref: Option<BodyRef>, desired: Option<Article>, prior: Option<Row>, applied: bool)

  /** held is history: the desired article and its slug records were in the table. */
  datatype Client = Client(op: Op, phase: Phase, held: bool)

  datatype World = World(store: Store, clients: map<nat, Client>)

  // ----- Steps -----

  datatype Answer = Saw(row: Row) | Absent | ReadFailed

  datatype DriverError = DriverConflict | DriverPrecondition | DriverNotFound | DriverBatchInvalid | DriverOther

  /** Uncertain is transient, cancelled or deadline exceeded. */
  datatype Reply = Accepted | Refused(error: DriverError) | Uncertain

  datatype Step =
    | Start(client: nat, request: Request, mode: Mode, expected: ETag)
    | Get(client: nat, answer: Answer, now: Time)
    | Upload(client: nat, newRef: BodyRef, now: Time, applies: bool, reply: Reply)
    | CheckUpload(client: nat, now: Time, fails: bool)
    | ReadSlug(client: nat, slug: Slug, fails: bool)
    | Commit(client: nat, applies: bool, reply: Reply)
    | CheckLegacy(client: nat, fails: bool)
    | VerifySlug(client: nat, slug: Slug, fails: bool)
    | Verified(client: nat)
    | DeleteBody(client: nat, applies: bool)
    | Migrate(id: Id, createdAt: Time)

  function RequestId(request: Request): Id {
    if request.CreateDraft? then request.article.id else request.id
  }

  function IdOf(c: Client): Id { RequestId(c.op.request) }

  predicate GetPhase(p: Phase) {
    p.Read? || p.Probe? || p.Reread? || p.ConflictProbe? || p.Refresh? || p.Reconcile?
  }

  function Again(p: Phase): Phase
    requires GetPhase(p)
  {
    match p
    case Read(_) => Read(true)
    case Probe(_) => Probe(true)
    case Reread(_) => Reread(true)
    case ConflictProbe(_) => ConflictProbe(true)
    case Refresh(_) => Refresh(true)
    case Reconcile(_) => Reconcile(true)
  }

  /** The point query by id property, or the point read of the legacy key. */
  predicate Listed(row: Row, id: Id) {
    row.article.id == id && (row.key.CurrentKey? || row.hasId)
  }

  ghost predicate AnswerOk(rows: map<Key, Row>, id: Id, again: bool, answer: Answer) {
    if again then
      match answer
      case Saw(row) => LegacyKey(id) in rows && rows[LegacyKey(id)] == row
      case Absent => LegacyKey(id) !in rows
      case ReadFailed => true
    else
      match answer
      case Saw(row) => row.key in rows && rows[row.key] == row && Listed(row, id)
      case Absent => forall k | k in rows :: !Listed(rows[k], id)
      case ReadFailed => true
  }

  // ----- Ends of an operation -----

  /** A definite failure of the repository: the service deletes the body it uploaded. */
  function Fail(c: Client, e: Error): Client {
    if c.op.ref.Some? then c.(phase := Discard(e)) else c.(phase := Finished(Err(e)))
  }

  function Unknown(c: Client): Client { c.(phase := Finished(Err(CommitUnknown))) }

  /** After success, SaveDraft deletes the draft body it replaced, unless it is published. */
  function Succeed(c: Client): Client
    requires c.op.desired.Some?
  {
    if c.op.request.SaveDraft? && c.op.base.Some? && c.op.base.value.article.draftBody.Some? &&
       c.op.base.value.article.draftBody != c.op.base.value.article.publishedBody
    then c.(phase := DropOld)
    else c.(phase := Finished(Ok(c.op.desired.value)))
  }

  // ----- Client transitions -----

  /** service.repository.Get answered: the checks up to bodies.Put or repository.Update. */
  function AfterRead(c: Client, answer: Answer, now: Time): Client {
    match answer
    case Absent => Fail(c, NotFound)
    case ReadFailed => Fail(c, Storage)
    case Saw(row) =>
      var stored := row.article;
      match c.op.request
      case CreateDraft(_) => c
      case SaveDraft(_, input) =>
        if input.Err? then Fail(c, input.error)
        else if stored.published.Some? && input.value.slug in stored.published.value.historical then Fail(c, SlugTaken)
        else Client(c.op.(base := Some(row)), Putting, c.held)
      case Publish(_) =>
        if !ValidTransition(stored.status, Published) then Fail(c, InvalidTransition)
        else if stored.draftBody.None? then Fail(c, InvalidTransition)
        else if stored.published.Some? && stored.slug in stored.published.value.historical then Fail(c, SlugTaken)
        else BeginUpdate(c.(op := c.op.(base := Some(row))), PublishedFrom(stored, now))
      case Withdraw(_) =>
        if stored.status != Published then Fail(c, InvalidTransition)
        else BeginUpdate(c.(op := c.op.(base := Some(row))), WithdrawnFrom(stored, now))
  }

  /** repository.Update starts by validating the article. */
  function BeginUpdate(c: Client, desired: Article): Client {
    if ValidArticle(desired) then Client(c.op.(desired := Some(desired)), Reread(false), c.held) else Fail(c, Validation)
  }

  /** bodies.Put succeeded with this reference. */
  function AfterPut(c: Client, now: Time): Client
    requires c.op.ref.Some?
  {
    match c.op.request
    case CreateDraft(article) =>
      var desired := article.(draftBody := c.op.ref);
      if Storable(desired) then Client(c.op.(desired := Some(desired)), Probe(false), c.held) else Fail(c, Validation)
    case SaveDraft(_, input) =>
      if c.op.base.Some? && input.Ok? then BeginUpdate(c, Saved(c.op.base.value.article, input.value, c.op.ref.value, now))
      else c
    case Publish(_) => c
    case Withdraw(_) => c
  }

  /** The slugs of an article, as a set. */
  function SlugSet(a: Article): (r: set<Slug>)
    ensures forall s :: s in r <==> Reserves(a, s)
  {
    SlugMap(a).Keys
  }

  /** repository.Create's existence check. */
  function AfterProbe(c: Client, answer: Answer): Client
    requires c.op.desired.Some?
  {
    match answer
    case Saw(_) => Fail(c, Conflict)
    case ReadFailed => Fail(c, Storage)
    case Absent =>
      var a := c.op.desired.value;
      c.(phase := Slugs({}, {}, map s | s in SlugSet(a) :: AddSlug(RecordFor(a, s))))
  }

  /** repository.Update's read: the expected ETag, permanence and the row key. */
  function AfterReread(c: Client, answer: Answer): Client
    requires c.op.desired.Some?
  {
    match answer
    case Absent => Fail(c, NotFound)
    case ReadFailed => Fail(c, Storage)
    case Saw(row) =>
      var a := c.op.desired.value;
      if row.etag != c.op.expected then Fail(c, Conflict)
      else if PermanenceError(row.article, a).Some? then Fail(c, PermanenceError(row.article, a).value)
      else if !Storable(a) || !KeyFits(row.key, a) then Fail(c, Validation)
      else Client(c.op.(prior := Some(row)), Slugs(SlugSet(a), SlugSet(row.article) - SlugSet(a), map[]), c.held)
  }

  /** Update reads one slug row and decides its action. */
  function AfterReadSlug(c: Client, slugs: map<Slug, SlugRow>, s: Slug, fails: bool): Client
    requires c.phase.Slugs? && c.op.desired.Some? && (s in c.phase.keep || s in c.phase.drop)
  {
    var a := c.op.desired.value;
    var Slugs(keep, drop, plan) := c.phase;
    if fails then Fail(c, Storage)
    else if s in keep then
      if s !in slugs then c.(phase := Slugs(keep - {s}, drop, plan[s := AddSlug(RecordFor(a, s))]))
      else
        var existing := slugs[s];
        if existing.record.articleId != a.id then Fail(c, SlugTaken)
        else if s == a.slug && existing.record.target != "" && s != Canonical(a) then Fail(c, SlugTaken)
        else if existing.record.target != RecordFor(a, s).target then
          c.(phase := Slugs(keep - {s}, drop, plan[s := ReplaceSlug(RecordFor(a, s), existing.etag)]))
        else c.(phase := Slugs(keep - {s}, drop, plan))
    else
      if s !in slugs then Fail(c, NotFound)
      else c.(phase := Slugs(keep, drop - {s}, plan[s := DeleteSlug(slugs[s].etag)]))
  }

  /** legacyUpdate of Update. */
  predicate MovesLegacy(c: Client) {
    c.op.prior.Some? && c.op.mode.Compat? && c.op.prior.value.key.LegacyKey?
  }

  function TargetKey(c: Client): Key
    requires c.op.desired.Some?
  {
    if c.op.prior.None? || MovesLegacy(c) then CurrentKeyOf(c.op.desired.value) else c.op.prior.value.key
  }

  function NewRow(c: Client, etag: ETag): Row
    requires c.op.desired.Some?
  {
    Row(TargetKey(c), c.op.desired.value, etag, true)
  }

  /** The service accepts the batch of actions. */
  ghost predicate BatchFits(s: Store, c: Client)
    requires c.op.desired.Some? && c.phase.Slugs?
  {
    && PlanFits(s.slugs, c.phase.plan)
    && (c.op.prior.Some? ==> c.op.prior.value.key in s.rows && s.rows[c.op.prior.value.key].etag == c.op.expected)
    && (c.op.prior.None? || MovesLegacy(c) ==> TargetKey(c) !in s.rows)
  }

  function WithoutPrior(rows: map<Key, Row>, c: Client): map<Key, Row> {
    if c.op.prior.Some? then rows - {c.op.prior.value.key} else rows
  }

  ghost function PublicOf(a: Article): map<Slug, Id> {
    map s | s in PublishedSlugs(a) :: a.id
  }

  /** The batch takes effect; the rest updates the history. */
  ghost function Applied(s: Store, c: Client): Store
    requires c.op.desired.Some? && c.phase.Slugs?
  {
    var a := c.op.desired.value;
    var row := NewRow(c, s.next);
    var replaced := c.op.request.SaveDraft? && c.op.prior.Some?;
    var lost := replaced && c.op.prior.value.article.draftBody.Some? &&
                c.op.prior.value.article.draftBody != c.op.prior.value.article.publishedBody;
    s.(rows := WithoutPrior(s.rows, c)[row.key := row],
       slugs := ApplyPlan(s.slugs, c.phase.plan, s.next),
       next := s.next + 1,
       log := s.log[s.next := row],
       retired := if replaced then s.retired + {(a.id, c.op.prior.value.article.draftBody)} else s.retired,
       dropped := if lost then s.dropped + {c.op.prior.value.article.draftBody.value.blobName} else s.dropped,
       everPublic := s.everPublic + PublicOf(a))
  }

  /** mapArticleError for a refused mutation, and the two special cases of a conflict. */
  function AfterCommit(c: Client, reply: Reply): Client
    requires c.op.desired.Some?
  {
    match reply
    case Accepted => c.(phase := Refresh(false))
    case Uncertain => c.(phase := Reconcile(false))
    case Refused(e) =>
      match e
      case DriverConflict => if c.op.request.CreateDraft? then c.(phase := ConflictProbe(false)) else Fail(c, SlugTaken)
      case DriverPrecondition => Fail(c, Conflict)
      case DriverNotFound => Fail(c, NotFound)
      case DriverBatchInvalid => Fail(c, Validation)
      case DriverOther => Fail(c, Storage)
  }

  function AfterConflictProbe(c: Client, answer: Answer): Client {
    if answer.Saw? then Fail(c, Conflict) else Fail(c, SlugTaken)
  }

  /** The article and every record it reserves are in the table. */
  ghost predicate Holds(s: Store, a: Article) {
    && (exists k :: k in s.rows && s.rows[k].article == a)
    && (forall x | Reserves(a, x) :: x in s.slugs && s.slugs[x].record == RecordFor(a, x))
  }

  function PriorSlugs(c: Client): set<Slug> {
    if c.op.prior.Some? then SlugSet(c.op.prior.value.article) else {}
  }

  /** Go on to check the slugs of the desired state. */
  ghost function VerifyDesired(c: Client, s: Store): Client
    requires c.op.desired.Some?
  {
    var a := c.op.desired.value;
    c.(phase := Verify(SlugMap(a), PriorSlugs(c) - SlugSet(a), IsDesired), held := c.held || Holds(s, a))
  }

  /** refreshCommitted's read. */
  ghost function AfterRefresh(c: Client, s: Store, answer: Answer): Client
    requires c.op.desired.Some?
  {
    if answer.Saw? && answer.row.article == c.op.desired.value then VerifyDesired(c, s) else Unknown(c)
  }

  /** The read of reconcileCreate, reconcileUpdate and reconcileCompatLegacyUpdate. */
  ghost function AfterReconcile(c: Client, s: Store, answer: Answer): Client
    requires c.op.desired.Some?
  {
    var a := c.op.desired.value;
    if c.op.prior.None? then
      if answer.Absent? then Fail(c, Storage)
      else if answer.Saw? && answer.row.article == a then VerifyDesired(c, s)
      else Unknown(c)
    else if !answer.Saw? then Unknown(c)
    else if MovesLegacy(c) then
      c.(phase := ReconcileLegacy(answer.row.article == a, answer.row.article == c.op.prior.value.article),
         held := c.held || (answer.row.article == a && Holds(s, a)))
    else if answer.row.article == a then VerifyDesired(c, s)
    else if answer.row.article == c.op.prior.value.article then
      c.(phase := Verify(SlugMap(c.op.prior.value.article), SlugSet(a) - PriorSlugs(c), IsPrior))
    else Unknown(c)
  }

  /** reconcileCompatLegacyUpdate's read of the legacy row. */
  ghost function AfterCheckLegacy(c: Client, s: Store, fails: bool): Client
    requires c.op.desired.Some? && c.phase.ReconcileLegacy?
  {
    var present := LegacyKey(IdOf(c)) in s.rows;
    if !fails && !present && c.phase.isDesired then
      var a := c.op.desired.value;
      c.(phase := Verify(SlugMap(a), PriorSlugs(c) - SlugSet(a), IsDesired))
    else if !fails && present && c.phase.isPrior then Fail(c, Storage)
    else Unknown(c)
  }

  /** One read of slugStateMatches. */
  function AfterVerifySlug(c: Client, slugs: map<Slug, SlugRow>, x: Slug, fails: bool): Client
    requires c.phase.Verify?
  {
    var Verify(present, absent, goal) := c.phase;
    if fails then Unknown(c)
    else if x in present then
      if x in slugs && slugs[x].record == present[x] then c.(phase := Verify(present - {x}, absent, goal)) else Unknown(c)
    else
      if x in slugs then Unknown(c) else c.(phase := Verify(present, absent - {x}, goal))
  }

  function AfterVerified(c: Client): Client
    requires c.phase.Verify? && c.op.desired.Some?
  {
    if c.phase.goal.IsDesired? then Succeed(c) else Fail(c, Storage)
  }

  // ----- The transition system -----

  function ReadClock(s: Store, now: Time): Store {
    s.(clock := if now > s.clock then now else s.clock, monotone := s.monotone && now >= s.clock)
  }

  /** Making the names of bodies unreferable when their upload is given up. */
  ghost function Abandon(s: Store, c: Client): Store {
    if c.phase.Discard? && c.op.ref.Some? then s.(dropped := s.dropped + {c.op.ref.value.blobName}) else s
  }

  ghost predicate FreshId(w: World, id: Id) {
    && (forall k | k in w.store.rows :: k.id != id)
    && (forall i | i in w.clients && w.clients[i].op.request.CreateDraft? :: IdOf(w.clients[i]) != id)
  }

  function BlobName(id: Id, version: string): string { "articles/" + id + "/" + version + ".json" }

  ghost predicate Enabled(w: World, step: Step) {
    match step
    case Start(i, request, mode, expected) =>
      && i !in w.clients
      && (request.CreateDraft? ==>
            ValidArticle(request.article) && request.article.draftBody.None? && request.article.status == Draft &&
            FreshId(w, request.article.id))
      && (request.SaveDraft? && request.input.Err? ==> request.input.error == Validation)
      && expected < w.store.next
    case Get(i, answer, now) =>
      && i in w.clients && GetPhase(w.clients[i].phase)
      && AnswerOk(w.store.rows, IdOf(w.clients[i]), w.clients[i].phase.again, answer)
      && (!w.clients[i].phase.Read? ==> w.clients[i].op.desired.Some?)
    case Upload(i, ref, now, applies, reply) =>
      && i in w.clients && w.clients[i].phase.Putting?
      && ref.blobName !in w.store.issued && ref.blobName == BlobName(IdOf(w.clients[i]), ref.version)
      && (reply.Accepted? ==> applies) && (reply.Refused? ==> !applies)
    case CheckUpload(i, now, fails) => i in w.clients && w.clients[i].phase.PutCheck? && w.clients[i].op.ref.Some?
    case ReadSlug(i, x, fails) =>
      && i in w.clients && w.clients[i].phase.Slugs? && w.clients[i].op.desired.Some?
      && (x in w.clients[i].phase.keep || x in w.clients[i].phase.drop)
    case Commit(i, applies, reply) =>
      && i in w.clients && w.clients[i].phase.Slugs? && w.clients[i].op.desired.Some?
      && w.clients[i].phase.keep == {} && w.clients[i].phase.drop == {}
      && (applies ==> BatchFits(w.store, w.clients[i]))
      && (reply.Accepted? ==> applies) && (reply.Refused? ==> !applies)
    case CheckLegacy(i, fails) => i in w.clients && w.clients[i].phase.ReconcileLegacy? && w.clients[i].op.desired.Some?
    case VerifySlug(i, x, fails) =>
      i in w.clients && w.clients[i].phase.Verify? && (x in w.clients[i].phase.present || x in w.clients[i].phase.absent)
    case Verified(i) =>
      && i in w.clients && w.clients[i].phase.Verify? && w.clients[i].op.desired.Some?
      && w.clients[i].phase.present == map[] && w.clients[i].phase.absent == {}
    case DeleteBody(i, applies) =>
      && i in w.clients
      && (if w.clients[i].phase.Discard? then w.clients[i].op.ref.Some?
          else w.clients[i].phase.DropOld? && w.clients[i].op.desired.Some? && w.clients[i].op.base.Some? &&
               w.clients[i].op.base.value.article.draftBody.Some?)
    case Migrate(id, createdAt) =>
      && LegacyKey(id) in w.store.rows && w.store.rows[LegacyKey(id)].article.createdAt == createdAt
      && CurrentKey(id, createdAt) !in w.store.rows
  }

  ghost function GetStep(c: Client, s: Store, answer: Answer, now: Time): Client
    requires GetPhase(c.phase) && (!c.phase.Read? ==> c.op.desired.Some?)
  {
    if !c.phase.again && c.op.mode.Compat? && answer.Absent? then c.(phase := Again(c.phase))
    else
      match c.phase
      case Read(_) => AfterRead(c, answer, now)
      case Probe(_) => AfterProbe(c, answer)
      case Reread(_) => AfterReread(c, answer)
      case ConflictProbe(_) => AfterConflictProbe(c, answer)
      case Refresh(_) => AfterRefresh(c, s, answer)
      case Reconcile(_) => AfterReconcile(c, s, answer)
  }

  function FirstPhase(request: Request): Phase {
    if request.CreateDraft? then Putting else Read(false)
  }

  /** bodies.Put's upload. */
  ghost function UploadStep(w: World, step: Step): World
    requires step.Upload? && Enabled(w, step)
  {
    var c := w.clients[step.client];
    var ref := step.newRef;
    var s := w.store.(issued := w.store.issued[ref.blobName := (IdOf(c), ref)],
                      blobs := if step.applies then w.store.blobs + {ref.blobName} else w.store.blobs);
    match step.reply
    case Refused(e) =>
      var mapped := if e.DriverConflict? || e.DriverPrecondition? then Conflict
                    else if e.DriverNotFound? then NotFound else Storage;
      World(s, w.clients[step.client := c.(phase := Finished(Err(mapped)))])
    case Uncertain => World(s, w.clients[step.client := Client(c.op.(ref := Some(ref)), PutCheck, c.held)])
    case Accepted =>
      var c' := AfterPut(c.(op := c.op.(ref := Some(ref))), step.now);
      World(Abandon(ReadClock(s, step.now), c'), w.clients[step.client := c'])
  }

  ghost function DeleteStep(w: World, step: Step): World
    requires step.DeleteBody? && Enabled(w, step)
  {
    var c := w.clients[step.client];
    var name := if c.phase.Discard? then c.op.ref.value.blobName else c.op.base.value.article.draftBody.value.blobName;
    var s := w.store.(blobs := if step.applies then w.store.blobs - {name} else w.store.blobs);
    var outcome := if c.phase.Discard? then Err(c.phase.error) else Ok(c.op.desired.value);
    World(s, w.clients[step.client := c.(phase := Finished(outcome))])
  }

  ghost function MigrateStep(s: Store, id: Id, createdAt: Time): Store
    requires LegacyKey(id) in s.rows
  {
    var row := Row(CurrentKey(id, createdAt), s.rows[LegacyKey(id)].article, s.next, true);
    s.(rows := (s.rows - {LegacyKey(id)})[row.key := row], next := s.next + 1, log := s.log[s.next := row])
  }

  /** The client's reads, which leave the stored data alone. */
  ghost function ReadOnly(w: World, step: Step): Client
    requires Enabled(w, step)
    requires step.Get? || step.CheckUpload? || step.ReadSlug? || step.CheckLegacy? || step.VerifySlug? || step.Verified?
  {
    var c := w.clients[step.client];
    match step
    case Get(_, answer, now) => GetStep(c, w.store, answer, now)
    case CheckUpload(_, now, fails) =>
      if fails then Unknown(c)
      else if c.op.ref.value.blobName in w.store.blobs then AfterPut(c, now)
      else c.(phase := Finished(Err(Storage)))
    case ReadSlug(_, x, fails) => AfterReadSlug(c, w.store.slugs, x, fails)
    case CheckLegacy(_, fails) => AfterCheckLegacy(c, w.store, fails)
    case VerifySlug(_, x, fails) => AfterVerifySlug(c, w.store.slugs, x, fails)
    case Verified(_) => AfterVerified(c)
  }

  ghost function Next(w: World, step: Step): World
    requires Enabled(w, step)
  {
    match step
    case Start(i, request, mode, expected) =>
      var c := Client(Op(request, mode, expected, w.store.next, None, None, None, None, false), FirstPhase(request), false);
      var s := if request.CreateDraft? then ReadClock(w.store, request.article.updatedAt) else w.store;
      World(s, w.clients[i := c])
    case Upload(_, _, _, _, _) => UploadStep(w, step)
    case DeleteBody(_, _) => DeleteStep(w, step)
    case Migrate(id, createdAt) => w.(store := MigrateStep(w.store, id, createdAt))
    case Commit(i, applies, reply) =>
      var c := w.clients[i];
      var c' := AfterCommit(c.(op := c.op.(applied := applies)), reply);
      World(Abandon(if applies then Applied(w.store, c) else w.store, c'), w.clients[i := c'])
    case Get(i, _, now) =>
      var c' := ReadOnly(w, step);
      World(Abandon(if w.clients[i].phase.Read? then ReadClock(w.store, now) else w.store, c'), w.clients[i := c'])
    case CheckUpload(i, now, _) =>
      var c' := ReadOnly(w, step);
      World(Abandon(ReadClock(w.store, now), c'), w.clients[i := c'])
    case ReadSlug(i, _, _) => var c' := ReadOnly(w, step); World(Abandon(w.store, c'), w.clients[i := c'])
    case CheckLegacy(i, _) => var c' := ReadOnly(w, step); World(Abandon(w.store, c'), w.clients[i := c'])
    case VerifySlug(i, _, _) => var c' := ReadOnly(w, step); World(Abandon(w.store, c'), w.clients[i := c'])
    case Verified(i) => var c' := ReadOnly(w, step); World(Abandon(w.store, c'), w.clients[i := c'])
  }
}
