/**
  What every reachable world of ArticleProtocol satisfies. A client's part of
  the invariant is stable under everything the others may do (Evolves).
 */
module ArticleInvariant {
  import opened Outcomes
  import opened ArticleModel
  import opened ArticleTable
  import opened ArticleProtocol

  ghost predicate InLog(s: Store, row: Row) {
    row.etag in s.log && s.log[row.etag] == row
  }

  /** The row is still in the table, unchanged. */
  ghost predicate Unchanged(s: Store, row: Row) {
    row.key in s.rows && s.rows[row.key].etag == row.etag
  }

  /** Whatever replaced the row was written after the call began. */
  ghost predicate Since(s: Store, born: ETag, row: Row) {
    forall k | k in s.rows && k.id == row.article.id :: s.rows[k].etag == row.etag || s.rows[k].etag >= born
  }

  predicate Saves(o: Op) { o.request.CreateDraft? || o.request.SaveDraft? }

  ghost predicate BaseOk(s: Store, o: Op) {
    o.base.Some? ==>
      var row := o.base.value;
      && InLog(s, row) && Since(s, o.born, row)
      && row.article.id == RequestId(o.request) && KeyFits(row.key, row.article)
      && row.article.updatedAt <= s.clock
  }

  ghost predicate RefOk(s: Store, o: Op) {
    o.ref.Some? ==> Saves(o) && Known(s, RequestId(o.request), o.ref.value)
  }

  /** What the client wants to store, in terms of what the service read. */
  predicate DesiredOk(o: Op) {
    o.desired.Some? ==>
      var a := o.desired.value;
      match o.request
      case CreateDraft(article) => o.ref.Some? && a == article.(draftBody := o.ref)
      case SaveDraft(_, input) =>
        && o.ref.Some? && o.base.Some? && input.Ok?
        && a == Saved(o.base.value.article, input.value, o.ref.value, a.updatedAt)
      case Publish(_) =>
        && o.base.Some? && o.base.value.article.draftBody.Some?
        && a == PublishedFrom(o.base.value.article, a.updatedAt)
      case Withdraw(_) => o.base.Some? && a == WithdrawnFrom(o.base.value.article, a.updatedAt)
  }

  /** On clocks that never went back, the new version is not dated before the old one. */
  ghost predicate TimeOk(s: Store, o: Op) {
    && (o.request.CreateDraft? ==> o.request.article.updatedAt <= s.clock)
    && (o.desired.Some? ==>
          && o.desired.value.updatedAt <= s.clock
          && (s.monotone && o.base.Some? ==> o.base.value.article.updatedAt <= o.desired.value.updatedAt))
  }

  predicate RequestOk(o: Op) {
    match o.request
    case CreateDraft(article) =>
      o.base.None? && o.prior.None? && article.publishedBody.None? && article.published.None?
    case SaveDraft(_, input) => input.Err? ==> input.error == Validation
    case Publish(_) => true
    case Withdraw(_) => true
  }

  /** The version the batch replaces is the one the service read. */
  ghost predicate PriorOk(o: Op) {
    (o.prior.Some? ==>
          && o.prior == o.base && o.prior.value.etag == o.expected && o.desired.Some?
          && PermanenceError(o.prior.value.article, o.desired.value).None?
          && Storable(o.desired.value) && KeyFits(o.prior.value.key, o.desired.value))
  }

  ghost predicate NotOlder(rows: map<Key, Row>, id: Id, t: Time) {
    forall k | k in rows && k.id == id :: t <= rows[k].article.updatedAt
  }

  /** What stays true once the batch took effect. */
  ghost predicate AppliedOk(s: Store, o: Op) {
    o.applied ==>
      && o.desired.Some?
      && (o.request.CreateDraft? ==> CurrentKeyOf(o.desired.value) in s.rows)
      && (o.request.CreateDraft? || o.prior.Some?)
      && (o.request.SaveDraft? ==>
            && (RequestId(o.request), o.prior.value.article.draftBody) in s.retired
            && (o.prior.value.article.draftBody.Some? &&
                o.prior.value.article.draftBody != o.prior.value.article.publishedBody ==>
                  o.prior.value.article.draftBody.value.blobName in s.dropped))
      && HasRow(s.rows, RequestId(o.request))
      && (s.monotone ==> NotOlder(s.rows, RequestId(o.request), o.desired.value.updatedAt))
  }

  /** A definite failure of CreateDraft and SaveDraft is right that the batch had no effect; ArticleHiding has the others. */
  predicate NoEffect(o: Op) {
    Saves(o) ==> !o.applied
  }

  /** A success is right that the desired state was in the table. */
  predicate Effect(c: Client) {
    c.held && (Saves(c.op) ==> c.op.applied)
  }

  predicate Early(o: Op) { !o.applied && o.desired.None? && o.prior.None? }

  predicate ReadyToPut(o: Op) {
    Saves(o) && (o.request.SaveDraft? ==> o.base.Some? && o.request.input.Ok?)
  }

  ghost predicate SlugsPhaseOk(s: Store, c: Client)
    requires c.phase.Slugs?
  {
    && c.op.desired.Some? && !c.op.applied
    && (c.op.request.CreateDraft? <==> c.op.prior.None?)
    && (forall x | x in c.phase.keep :: Reserves(c.op.desired.value, x))
    && (forall x | x in c.phase.drop ::
          c.op.prior.Some? && Reserves(c.op.prior.value.article, x) && !Reserves(c.op.desired.value, x))
    && (c.op.prior.None? ==>
          && c.phase.keep == {}
          && Storable(c.op.desired.value)
          && (forall x :: x in c.phase.plan <==> Reserves(c.op.desired.value, x))
          && (forall x | x in c.phase.plan :: c.phase.plan[x] == AddSlug(RecordFor(c.op.desired.value, x))))
    && (c.op.prior.Some? && Unchanged(s, c.op.prior.value) ==>
          PlanSound(c.op.prior.value.article, c.op.desired.value, c.phase.keep, c.phase.drop, c.phase.plan))
  }

  ghost predicate PhaseOk(s: Store, c: Client) {
    match c.phase
    case Read(_) => Early(c.op) && c.op.base.None? && c.op.ref.None? && !c.op.request.CreateDraft?
    case Putting => Early(c.op) && c.op.ref.None? && ReadyToPut(c.op)
    case PutCheck => Early(c.op) && c.op.ref.Some? && ReadyToPut(c.op)
    case Probe(_) =>
      && !c.op.applied && c.op.request.CreateDraft? && c.op.desired.Some? && c.op.prior.None?
      && Storable(c.op.desired.value)
    case Reread(_) => !c.op.applied && !c.op.request.CreateDraft? && c.op.desired.Some? && c.op.prior.None?
    case Slugs(_, _, _) => SlugsPhaseOk(s, c)
    case ConflictProbe(_) => !c.op.applied && c.op.desired.Some?
    case Refresh(_) => c.op.applied
    case Reconcile(again) =>
      && c.op.desired.Some? && (c.op.request.CreateDraft? <==> c.op.prior.None?)
      && (again && c.op.request.CreateDraft? ==> !c.op.applied)
    case ReconcileLegacy(isDesired, isPrior) =>
      && c.op.desired.Some? && c.op.prior.Some?
      && (isDesired ==> Effect(c)) && (isPrior ==> NoEffect(c.op))
    case Verify(_, _, goal) => c.op.desired.Some? && if goal.IsDesired? then Effect(c) else NoEffect(c.op)
    case Discard(e) => c.op.ref.Some? && NoEffect(c.op) && c.op.ref.value.blobName in s.dropped && e != CommitUnknown
    case DropOld =>
      && Effect(c) && c.op.desired.Some? && c.op.base.Some? && c.op.base.value.article.draftBody.Some?
      && c.op.base.value.article.draftBody.value.blobName in s.dropped
    case Finished(outcome) =>
      match outcome
      case Ok(_) => Effect(c)
      case Err(e) => e == CommitUnknown || NoEffect(c.op)
  }

  ghost predicate OpOk(s: Store, o: Op) {
    && o.expected < o.born <= s.next
    && RequestOk(o) && BaseOk(s, o) && RefOk(s, o) && DesiredOk(o) && TimeOk(s, o) && PriorOk(o)
    && AppliedOk(s, o)
  }

  ghost predicate ClientOk(s: Store, c: Client) {
    OpOk(s, c.op) && PhaseOk(s, c)
  }

  /** The client holds a body that nothing refers to yet. */
  predicate Owns(c: Client) {
    c.op.ref.Some? && !c.op.applied && !c.phase.Finished? && !c.phase.Discard?
  }

  ghost predicate OwnOk(s: Store, c: Client) {
    Owns(c) ==>
      var name := c.op.ref.value.blobName;
      && Unreferenced(s.rows, name) && name !in s.dropped && (IdOf(c), c.op.ref) !in s.retired
      && (!c.phase.PutCheck? ==> name in s.blobs)
  }

  /** An ID chosen for a new article has no row before the batch took effect. */
  ghost predicate IdReserved(s: Store, c: Client) {
    c.op.request.CreateDraft? && !c.op.applied ==> forall k | k in s.rows :: k.id != IdOf(c)
  }

  ghost predicate Apart(c: Client, c': Client) {
    && (Owns(c) && Owns(c') ==> c.op.ref.value.blobName != c'.op.ref.value.blobName)
    && (c.op.request.CreateDraft? && c'.op.request.CreateDraft? ==> IdOf(c) != IdOf(c'))
  }

  ghost predicate WorldOk(w: World) {
    && StoreOk(w.store)
    && (forall i | i in w.clients :: ClientOk(w.store, w.clients[i]))
    && (forall i | i in w.clients :: OwnOk(w.store, w.clients[i]) && IdReserved(w.store, w.clients[i]))
    && (forall i, j | i in w.clients && j in w.clients && i != j :: Apart(w.clients[i], w.clients[j]))
  }

  // ----- What the others may do -----

  ghost predicate HasRow(rows: map<Key, Row>, id: Id) {
    exists k :: k in rows && k.id == id
  }

  /** On clocks that never went back, later versions of an article carry later dates. */
  ghost predicate DatesKept(rows: map<Key, Row>, rows': map<Key, Row>) {
    forall k, k' | k in rows && k' in rows' && k.id == k'.id ::
      rows[k].article.updatedAt <= rows'[k'].article.updatedAt
  }

  ghost predicate RowsKept(s: Store, s': Store) {
    && (forall k | k in s'.rows :: (k in s.rows && s'.rows[k] == s.rows[k]) || s'.rows[k].etag >= s.next)
    && (forall k | k in s.rows && k.CurrentKey? :: k in s'.rows)
    && (forall k | k in s.rows :: HasRow(s'.rows, k.id))
  }

  ghost predicate HistoryKept(s: Store, s': Store) {
    && s.next <= s'.next && s.clock <= s'.clock && (s'.monotone ==> s.monotone)
    && (forall e | e in s.log :: e in s'.log && s'.log[e] == s.log[e])
    && (forall n | n in s.issued :: n in s'.issued && s'.issued[n] == s.issued[n])
    && s.retired <= s'.retired && s.dropped <= s'.dropped
  }

  ghost predicate Evolves(s: Store, s': Store) {
    && HistoryKept(s, s') && RowsKept(s, s')
    && (s'.monotone ==> DatesKept(s.rows, s'.rows))
  }

  // ----- Stability of a client's invariant -----

  lemma NotOlderStable(rows: map<Key, Row>, rows': map<Key, Row>, id: Id, t: Time)
    requires HasRow(rows, id) && NotOlder(rows, id, t) && DatesKept(rows, rows')
    ensures NotOlder(rows', id, t)
  {
    var k :| k in rows && k.id == id;
  }

  lemma AppliedStable(s: Store, s': Store, o: Op)
    requires AppliedOk(s, o) && Evolves(s, s')
    ensures AppliedOk(s', o)
  {
    if o.applied {
      var id := RequestId(o.request);
      var k :| k in s.rows && k.id == id;
      assert HasRow(s'.rows, k.id);
      if s'.monotone {
        NotOlderStable(s.rows, s'.rows, id, o.desired.value.updatedAt);
      }
    }
  }

  /** Whatever evolution the store goes through, what holds of an operation stays. */
  lemma OpStable(s: Store, s': Store, o: Op)
    requires OpOk(s, o) && Evolves(s, s')
    ensures OpOk(s', o)
  {
    AppliedStable(s, s', o);
  }

  /** A row the client read and that is unchanged now was unchanged before. */
  lemma UnchangedBefore(s: Store, s': Store, row: Row)
    requires LogOk(s) && InLog(s, row) && RowsKept(s, s')
    requires Unchanged(s', row)
    ensures Unchanged(s, row)
  {
  }

  lemma PhaseStable(s: Store, s': Store, c: Client)
    requires LogOk(s) && BaseOk(s, c.op) && PriorOk(c.op) && Evolves(s, s')
    requires PhaseOk(s, c)
    ensures PhaseOk(s', c)
  {
    if c.phase.Slugs? {
      if c.op.prior.Some? && Unchanged(s', c.op.prior.value) {
        UnchangedBefore(s, s', c.op.prior.value);
      }
    }
  }

  lemma ClientStable(s: Store, s': Store, c: Client)
    requires LogOk(s) && ClientOk(s, c) && Evolves(s, s')
    ensures ClientOk(s', c)
  {
    OpStable(s, s', c.op);
    PhaseStable(s, s', c);
  }
}
