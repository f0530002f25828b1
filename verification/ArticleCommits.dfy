/** The steps of ArticleProtocol that change the table or the body store keep the invariant. */
module ArticleCommits {
  import opened Outcomes
  import opened ArticleModel
  import opened ArticleTable
  import opened ArticleProtocol
  import opened ArticleInvariant
  import opened ArticleSteps

  /** The store and the acting client changed; everything else is to be re-established. */
  lemma Rebuild(w: World, s': Store, i: nat, c': Client)
    requires WorldOk(w) && StoreOk(s')
    requires ClientOk(s', c') && OwnOk(s', c') && IdReserved(s', c')
    requires forall j | j in w.clients && j != i ::
               && ClientOk(s', w.clients[j]) && OwnOk(s', w.clients[j]) && IdReserved(s', w.clients[j])
               && Apart(c', w.clients[j])
    ensures WorldOk(World(s', w.clients[i := c']))
  {
    hide StoreOk;
    hide ClientOk;
    hide OwnOk;
    hide IdReserved;
  }

  // ----- Start -----

  lemma StartKept(w: World, step: Step)
    requires WorldOk(w) && step.Start? && Enabled(w, step)
    ensures WorldOk(Next(w, step))
  {
    hide StoreOk;
    hide ClientOk;
    hide OwnOk;
    hide IdReserved;
    hide Apart;
    hide ReadClock;
    var i, request := step.client, step.request;
    var c := Client(Op(request, step.mode, step.expected, w.store.next, None, None, None, None, false), FirstPhase(request), false);
    var s' := if request.CreateDraft? then ReadClock(w.store, request.article.updatedAt) else w.store;
    StoreParts(w.store);
    StartStore(w.store, s', request);
    StartSelf(w, s', step);
    forall j | j in w.clients && j != i
      ensures ClientOk(s', w.clients[j]) && OwnOk(s', w.clients[j]) && IdReserved(s', w.clients[j])
      ensures Apart(c, w.clients[j])
    {
      if request.CreateDraft? {
        ClockClient(w.store, request.article.updatedAt, w.clients[j]);
      }
      StartApart(w, step, c, j);
    }
    hide WorldOk;
    assert WorldOk(w);
    Rebuild(w, s', i, c);
  }

  lemma StartStore(s: Store, s': Store, request: Request)
    requires StoreOk(s) && s' == if request.CreateDraft? then ReadClock(s, request.article.updatedAt) else s
    ensures StoreOk(s')
  {
    hide KeysOk;
    hide RowsStorable;
    hide SlugIndexExact;
  }

  lemma StartApart(w: World, step: Step, c: Client, j: nat)
    requires step.Start? && Enabled(w, step) && j in w.clients && c.op.request == step.request && c.op.ref.None?
    ensures Apart(c, w.clients[j])
  {
    hide ValidArticle;
  }

  lemma StartSelf(w: World, s': Store, step: Step)
    requires KeysOk(w.store.rows) && step.Start? && Enabled(w, step)
    requires s' == if step.request.CreateDraft? then ReadClock(w.store, step.request.article.updatedAt) else w.store
    ensures var c := Client(Op(step.request, step.mode, step.expected, w.store.next, None, None, None, None, false),
                            FirstPhase(step.request), false);
            ClientOk(s', c) && OwnOk(s', c) && IdReserved(s', c)
  {
  }

  // ----- Bodies -----

  /** A reference issued just now is not used anywhere. */
  lemma FreshName(s: Store, name: string)
    requires BodiesOk(s) && RetiredOk(s) && name !in s.issued
    ensures Unreferenced(s.rows, name) && name !in s.dropped
    ensures forall p | p in s.retired && p.1.Some? :: p.1.value.blobName != name
  {
    forall k | k in s.rows ensures !Refers(s.rows[k].article, name) {
      assert RefsKnown(s, s.rows[k].article);
    }
  }

  function Uploaded(s: Store, id: Id, ref: BodyRef, applies: bool): Store {
    s.(issued := s.issued[ref.blobName := (id, ref)], blobs := if applies then s.blobs + {ref.blobName} else s.blobs)
  }

  lemma UploadedEvolves(s: Store, id: Id, ref: BodyRef, applies: bool)
    requires KeysOk(s.rows) && ref.blobName !in s.issued
    ensures Evolves(s, Uploaded(s, id, ref, applies))
  {
    SameRowsDates(s.rows);
    assert forall k | k in s.rows :: HasRow(s.rows, k.id);
  }

  lemma UploadedBodies(s: Store, id: Id, ref: BodyRef, applies: bool)
    requires BodiesOk(s) && ref.blobName !in s.issued
    ensures BodiesOk(Uploaded(s, id, ref, applies))
  {
    var s' := Uploaded(s, id, ref, applies);
    forall k | k in s.rows ensures RefsKnown(s', s.rows[k].article) {
      assert RefsKnown(s, s.rows[k].article);
    }
  }

  lemma UploadedStore(s: Store, id: Id, ref: BodyRef, applies: bool)
    requires StoreOk(s) && ref.blobName !in s.issued
    ensures StoreOk(Uploaded(s, id, ref, applies)) && Evolves(s, Uploaded(s, id, ref, applies))
  {
    hide KeysOk;
    hide RowsStorable;
    hide SlugIndexExact;
    hide BodiesOk;
    hide Evolves;
    UploadedEvolves(s, id, ref, applies);
    UploadedBodies(s, id, ref, applies);
  }

  lemma UploadedOther(s: Store, id: Id, ref: BodyRef, applies: bool, d: Client)
    requires LogOk(s) && Evolves(s, Uploaded(s, id, ref, applies))
    requires ClientOk(s, d) && OwnOk(s, d) && IdReserved(s, d) && ref.blobName !in s.issued
    ensures ClientOk(Uploaded(s, id, ref, applies), d)
    ensures OwnOk(Uploaded(s, id, ref, applies), d) && IdReserved(Uploaded(s, id, ref, applies), d)
    ensures d.op.ref.Some? ==> d.op.ref.value.blobName != ref.blobName
  {
    assert RefOk(s, d.op);
    hide ClientOk;
    hide LogOk;
    ClientStable(s, Uploaded(s, id, ref, applies), d);
    hide Evolves;
  }

  /** The client now holds the reference, and does not know yet whether the upload worked. */
  lemma UploadedSelf(s: Store, ref: BodyRef, applies: bool, c: Client)
    requires BodiesOk(s) && RetiredOk(s) && ref.blobName !in s.issued
    requires ClientOk(Uploaded(s, IdOf(c), ref, applies), c) && c.phase.Putting? && IdReserved(s, c)
    ensures var c' := c.(op := c.op.(ref := Some(ref)), phase := PutCheck);
            var s' := Uploaded(s, IdOf(c), ref, applies);
            ClientOk(s', c') && OwnOk(s', c') && IdReserved(s', c')
  {
    FreshName(s, ref.blobName);
    hide BodiesOk;
    hide RetiredOk;
  }

  /** After a successful read of the blob, or after an accepted upload, the client goes on. */
  lemma UploadUncertain(w: World, step: Step)
    requires WorldOk(w) && step.Upload? && Enabled(w, step)
    ensures var c := w.clients[step.client];
            WorldOk(World(Uploaded(w.store, IdOf(c), step.newRef, step.applies),
                          w.clients[step.client := c.(op := c.op.(ref := Some(step.newRef)), phase := PutCheck)]))
  {
    var s, i := w.store, step.client;
    var c := w.clients[i];
    var s' := Uploaded(s, IdOf(c), step.newRef, step.applies);
    var c' := c.(op := c.op.(ref := Some(step.newRef)), phase := PutCheck);
    WorldClient(w, i);
    StoreParts(s);
    assert BodiesOk(s);
    hide StoreOk;
    hide ClientOk;
    hide OwnOk;
    hide IdReserved;
    hide BodiesOk;
    hide RetiredOk;
    hide KeysOk;
    hide SlugIndexExact;
    hide LogOk;
    hide Evolves;
    hide Uploaded;
    UploadedStore(s, IdOf(c), step.newRef, step.applies);
    UploadedOther(s, IdOf(c), step.newRef, step.applies, c);
    UploadedSelf(s, step.newRef, step.applies, c);
    forall j | j in w.clients && j != i
      ensures ClientOk(s', w.clients[j]) && OwnOk(s', w.clients[j]) && IdReserved(s', w.clients[j])
      ensures Apart(c', w.clients[j])
    {
      UploadedOther(s, IdOf(c), step.newRef, step.applies, w.clients[j]);
      assert Apart(c, w.clients[j]);
    }
    hide Apart;
    Rebuild(w, s', i, c');
  }

  lemma AfterPutIgnoresPhase(c: Client, p: Phase, now: Time)
    requires c.op.ref.Some? && ReadyToPut(c.op)
    ensures AfterPut(c.(phase := p), now) == AfterPut(c, now)
  {
    hide Storable;
    hide ValidArticle;
  }

  lemma EndedClient(s: Store, s': Store, c: Client, c': Client)
    requires LogOk(s) && Evolves(s, s') && s'.rows == s.rows && ClientOk(s, c) && IdReserved(s, c)
    requires c.phase.Putting? && c' == c.(phase := c'.phase) && c'.phase.Finished? && c'.phase.outcome.Err?
    ensures ClientOk(s', c') && OwnOk(s', c') && IdReserved(s', c')
  {
    hide LogOk;
    hide Evolves;
    hide OpOk;
    OpStable(s, s', c.op);
  }

  /** A refused upload ends the operation; nothing was stored. */
  lemma GiveUpUpload(w: World, w1: World, i: nat, c': Client)
    requires WorldOk(w) && WorldOk(w1) && i in w.clients && i in w1.clients
    requires w1.clients == w.clients[i := w1.clients[i]]
    requires Evolves(w.store, w1.store) && w1.store.rows == w.store.rows
    requires w.clients[i].phase.Putting? && c' == w.clients[i].(phase := c'.phase)
    requires c'.phase.Finished? && c'.phase.outcome.Err?
    ensures WorldOk(World(w1.store, w.clients[i := c']))
  {
    hide StoreOk;
    hide OpOk;
    hide KeysOk;
    hide SlugIndexExact;
    hide RetiredOk;
    hide LogOk;
    hide Evolves;
    hide ClientOk;
    hide OwnOk;
    hide IdReserved;
    var c := w.clients[i];
    WorldClient(w, i);
    WorldClient(w1, i);
    StoreParts(w.store);
    EndedClient(w.store, w1.store, c, c');
    forall j | j in w.clients && j != i
      ensures ClientOk(w1.store, w.clients[j]) && OwnOk(w1.store, w.clients[j]) && IdReserved(w1.store, w.clients[j])
      ensures Apart(c', w.clients[j])
    {
      WorldClient(w1, j);
      assert Apart(c, w.clients[j]);
    }
    assert w1.clients[i := c'] == w.clients[i := c'];
    Rebuild(w1, w1.store, i, c');
  }

  lemma PuttingClient(s: Store, c: Client)
    requires ClientOk(s, c) && c.phase.Putting?
    ensures ReadyToPut(c.op) && Early(c.op)
  {
    hide OpOk;
  }

  /** The client while the answer of its upload is still open. */
  function Unsure(c: Client, ref: BodyRef): Client { c.(op := c.op.(ref := Some(ref)), phase := PutCheck) }

  function GivenUpUpload(c: Client, e: DriverError): Client {
    c.(phase := Finished(Err(if e.DriverConflict? || e.DriverPrecondition? then Conflict
                             else if e.DriverNotFound? then NotFound else Storage)))
  }

  lemma UploadResult(w: World, step: Step)
    requires step.Upload? && Enabled(w, step)
    ensures var i := step.client; var c := w.clients[i];
            var s1 := Uploaded(w.store, IdOf(c), step.newRef, step.applies);
            var c1 := c.(op := c.op.(ref := Some(step.newRef)));
            Next(w, step) ==
            match step.reply
            case Accepted => World(Abandon(ReadClock(s1, step.now), AfterPut(c1, step.now)), w.clients[i := AfterPut(c1, step.now)])
            case Uncertain => World(s1, w.clients[i := Unsure(c, step.newRef)])
            case Refused(e) => World(s1, w.clients[i := GivenUpUpload(c, e)])
  {
    hide AfterPut;
    hide Abandon;
    hide ReadClock;
    hide BlobName;
  }

  lemma AcceptedKept(w: World, i: nat, now: Time)
    requires WorldOk(w) && i in w.clients && w.clients[i].phase.PutCheck? && w.clients[i].op.ref.Some?
    requires w.clients[i].op.ref.value.blobName in w.store.blobs && ReadyToPut(w.clients[i].op)
    ensures var c' := AfterPut(w.clients[i].(phase := Putting), now);
            WorldOk(World(Abandon(ReadClock(w.store, now), c'), w.clients[i := c']))
  {
    hide WorldOk;
    hide StoreOk;
    hide ClientOk;
    hide OwnOk;
    hide IdReserved;
    hide Moved;
    hide KeysOk;
    hide SlugsPresent;
    hide SlugIndexExact;
    hide RetiredOk;
    hide LogOk;
    hide AfterPut;
    hide Abandon;
    var c, s := w.clients[i], ReadClock(w.store, now);
    WorldClient(w, i);
    StoreParts(w.store);
    ClockClient(w.store, now, c);
    CheckUploadMoved(s, c, now, false);
    AfterPutIgnoresPhase(c, Putting, now);
    QuietKept(w, s, i, AfterPut(c, now));
  }

  lemma UploadKept(w: World, step: Step)
    requires WorldOk(w) && step.Upload? && Enabled(w, step)
    ensures WorldOk(Next(w, step))
  {
    hide WorldOk;
    hide StoreOk;
    hide ClientOk;
    hide OwnOk;
    hide IdReserved;
    hide Next;
    hide AfterPut;
    hide Abandon;
    hide ReadClock;
    hide Evolves;
    hide BlobName;
    var i := step.client;
    var c := w.clients[i];
    var c1 := Unsure(c, step.newRef);
    var s1 := Uploaded(w.store, IdOf(c), step.newRef, step.applies);
    var w1 := World(s1, w.clients[i := c1]);
    UploadUncertain(w, step);
    WorldClient(w, i);
    PuttingClient(w.store, c);
    UploadResult(w, step);
    match step.reply
    case Accepted =>
      AcceptedKept(w1, i, step.now);
      assert c1.(phase := Putting) == c.(op := c.op.(ref := Some(step.newRef)));
      var c' := AfterPut(c1.(phase := Putting), step.now);
      assert w1.clients[i := c'] == w.clients[i := c'];
    case Uncertain =>
    case Refused(e) =>
      UploadedStore(w.store, IdOf(c), step.newRef, step.applies);
      GiveUpUpload(w, w1, i, GivenUpUpload(c, e));
  }

  /** Deleting a body that was given up. */
  lemma DeletedStore(s: Store, name: string, applies: bool)
    requires StoreOk(s) && name in s.dropped
    ensures var s' := s.(blobs := if applies then s.blobs - {name} else s.blobs);
            StoreOk(s') && SameData(s, s')
  {
    hide KeysOk;
    hide RowsStorable;
    hide SlugIndexExact;
  }

  lemma DeletedOther(s: Store, name: string, applies: bool, d: Client)
    requires KeysOk(s.rows) && LogOk(s) && name in s.dropped
    requires ClientOk(s, d) && OwnOk(s, d) && IdReserved(s, d)
    ensures var s' := s.(blobs := if applies then s.blobs - {name} else s.blobs);
            ClientOk(s', d) && OwnOk(s', d) && IdReserved(s', d)
  {
    hide ClientOk;
    hide LogOk;
    hide KeysOk;
    var s' := s.(blobs := if applies then s.blobs - {name} else s.blobs);
    SameDataClient(s, s', d);
  }

  lemma DeletedSelf(s: Store, c: Client, outcome: Result<Article>)
    requires ClientOk(s, c) && IdReserved(s, c)
    requires (c.phase.Discard? && outcome == Err(c.phase.error)) || (c.phase.DropOld? && outcome.Ok?)
    ensures var c' := c.(phase := Finished(outcome));
            ClientOk(s, c') && OwnOk(s, c') && IdReserved(s, c')
  {
    hide OpOk;
  }

  lemma GivenUp(s: Store, c: Client)
    requires ClientOk(s, c)
    ensures c.phase.Discard? && c.op.ref.Some? ==> c.op.ref.value.blobName in s.dropped
    ensures c.phase.DropOld? && c.op.base.Some? && c.op.base.value.article.draftBody.Some? ==>
              c.op.base.value.article.draftBody.value.blobName in s.dropped
  {
    hide OpOk;
  }

  lemma DeleteKept(w: World, step: Step)
    requires WorldOk(w) && step.DeleteBody? && Enabled(w, step)
    ensures WorldOk(Next(w, step))
  {
    var i := step.client;
    var c := w.clients[i];
    var name := if c.phase.Discard? then c.op.ref.value.blobName else c.op.base.value.article.draftBody.value.blobName;
    var s' := w.store.(blobs := if step.applies then w.store.blobs - {name} else w.store.blobs);
    var outcome := if c.phase.Discard? then Err(c.phase.error) else Ok(c.op.desired.value);
    var c' := c.(phase := Finished(outcome));
    hide StoreOk;
    hide OwnOk;
    hide IdReserved;
    hide KeysOk;
    hide SlugIndexExact;
    hide SlugsPresent;
    hide RetiredOk;
    hide LogOk;
    hide ClientOk;
    WorldClient(w, i);
    StoreParts(w.store);
    GivenUp(w.store, c);
    DeletedStore(w.store, name, step.applies);
    DeletedOther(w.store, name, step.applies, c);
    DeletedSelf(s', c, outcome);
    forall j | j in w.clients && j != i
      ensures ClientOk(s', w.clients[j]) && OwnOk(s', w.clients[j]) && IdReserved(s', w.clients[j])
      ensures Apart(c', w.clients[j])
    {
      WorldClient(w, j);
      DeletedOther(w.store, name, step.applies, w.clients[j]);
      assert Apart(c, w.clients[j]);
    }
    hide Apart;
    Rebuild(w, s', i, c');
  }

  // ----- Replacing the row of one article -----

  /** s' has row instead of the one at gone; no other row of that ID exists. */
  ghost predicate Replaces(s: Store, s': Store, gone: Key, row: Row) {
    && s'.rows == (s.rows - {gone})[row.key := row]
    && row.etag == s.next && s'.next == s.next + 1
    && s'.log == s.log[s.next := row]
    && KeyFits(row.key, row.article)
    && (forall k | k in s.rows && k.id == row.key.id :: k == gone)
    && (gone in s.rows ==> gone.id == row.key.id && (gone.CurrentKey? ==> row.key == gone))
  }

  lemma ReplacesEvolves(s: Store, s': Store, gone: Key, row: Row)
    requires KeysOk(s.rows) && Replaces(s, s', gone, row) && HistoryKept(s, s')
    requires s'.monotone && gone in s.rows ==> s.rows[gone].article.updatedAt <= row.article.updatedAt
    ensures Evolves(s, s')
  {
    forall k | k in s.rows ensures HasRow(s'.rows, k.id) {
      var k' := if k == gone then row.key else k;
      assert k' in s'.rows && k'.id == k.id;
    }
    if s'.monotone {
      forall k, k' | k in s.rows && k' in s'.rows && k.id == k'.id
        ensures s.rows[k].article.updatedAt <= s'.rows[k'].article.updatedAt
      {
      }
    }
  }

  lemma ReplacesLog(s: Store, s': Store, gone: Key, row: Row)
    requires LogOk(s) && Replaces(s, s', gone, row) && s.clock <= s'.clock && row.article.updatedAt <= s'.clock
    ensures LogOk(s')
  {
  }

  lemma MigrateStore(s: Store, id: Id, createdAt: Time)
    requires StoreOk(s) && LegacyKey(id) in s.rows && s.rows[LegacyKey(id)].article.createdAt == createdAt
    requires CurrentKey(id, createdAt) !in s.rows
    ensures StoreOk(MigrateStep(s, id, createdAt)) && Evolves(s, MigrateStep(s, id, createdAt))
  {
    hide Storable;
    hide RowsStorable;
    hide BodiesOk;
    hide RetiredOk;
    hide PublicOk;
    hide Evolves;
    hide LogOk;
    hide SlugIndexExact;
    var gone := LegacyKey(id);
    var row := Row(CurrentKey(id, createdAt), s.rows[gone].article, s.next, true);
    var s' := MigrateStep(s, id, createdAt);
    StoreParts(s);
    assert Replaces(s, s', gone, row);
    assert s.rows[gone].article.updatedAt <= s.clock && HistoryKept(s, s') by { LogFacts(s, s', gone, row); }
    ReplacesEvolves(s, s', gone, row);
    ReplacesLog(s, s', gone, row);
    ReplaceKeys(s.rows, gone, row);
    MoveKeepsIndex(s.rows, s.slugs, gone, row);
    MovedRows(s, s', gone, row);
  }

  lemma LogFacts(s: Store, s': Store, gone: Key, row: Row)
    requires LogOk(s) && gone in s.rows && s' == s.(rows := s'.rows, next := s.next + 1, log := s.log[s.next := row])
    ensures s.rows[gone].article.updatedAt <= s.clock && HistoryKept(s, s')
  {
  }

  /** The same article under another key: bodies, drafts and public slugs are as before. */
  lemma MovedRows(s: Store, s': Store, gone: Key, row: Row)
    requires RowsStorable(s.rows) && BodiesOk(s) && RetiredOk(s) && PublicOk(s)
    requires Replaces(s, s', gone, row) && gone in s.rows && row.article == s.rows[gone].article
    requires s' == s.(rows := s'.rows, next := s'.next, log := s'.log)
    ensures RowsStorable(s'.rows) && BodiesOk(s') && RetiredOk(s') && PublicOk(s')
  {
    hide Storable;
    hide BodiesOk;
    hide PublicOk;
    MovedFrom(s, s', gone, row);
    MovedBodies(s, s', gone, row);
    MovedPublic(s, s', gone, row);
    hide Replaces;
  }

  /** Every row after the move holds an article that was there before. */
  lemma MovedFrom(s: Store, s': Store, gone: Key, row: Row)
    requires Replaces(s, s', gone, row) && gone in s.rows && row.article == s.rows[gone].article
    ensures forall k | k in s'.rows :: (if k == row.key then gone else k) in s.rows &&
              s'.rows[k].article == s.rows[if k == row.key then gone else k].article
  {
  }

  lemma MovedBodies(s: Store, s': Store, gone: Key, row: Row)
    requires BodiesOk(s) && Replaces(s, s', gone, row) && gone in s.rows && row.article == s.rows[gone].article
    requires s' == s.(rows := s'.rows, next := s'.next, log := s'.log)
    ensures BodiesOk(s')
  {
    hide Refers;
    MovedFrom(s, s', gone, row);
    hide Replaces;
  }

  lemma MovedPublic(s: Store, s': Store, gone: Key, row: Row)
    requires PublicOk(s) && Replaces(s, s', gone, row) && gone in s.rows && row.article == s.rows[gone].article
    requires s'.everPublic == s.everPublic
    ensures PublicOk(s')
  {
    hide PublicSlug;
    MovedFrom(s, s', gone, row);
    forall x | x in s.everPublic ensures PublicBy(s'.rows, x, s.everPublic[x]) {
      assert PublicBy(s.rows, x, s.everPublic[x]);
      var k :| k in s.rows && k.id == s.everPublic[x] && PublicSlug(s.rows[k].article, x);
      var k' := if k == gone then row.key else k;
      assert k' in s'.rows && k'.id == k.id && PublicSlug(s'.rows[k'].article, x);
    }
  }

  lemma MigratedOther(s: Store, id: Id, createdAt: Time, d: Client)
    requires KeysOk(s.rows) && LogOk(s) && LegacyKey(id) in s.rows && s.rows[LegacyKey(id)].article.createdAt == createdAt
    requires Evolves(s, MigrateStep(s, id, createdAt))
    requires ClientOk(s, d) && OwnOk(s, d) && IdReserved(s, d)
    ensures var s' := MigrateStep(s, id, createdAt); ClientOk(s', d) && OwnOk(s', d) && IdReserved(s', d)
  {
    hide ClientOk;
    hide LogOk;
    hide Evolves;
    ClientStable(s, MigrateStep(s, id, createdAt), d);
  }

  lemma MigrateKept(w: World, step: Step)
    requires WorldOk(w) && step.Migrate? && Enabled(w, step)
    ensures WorldOk(Next(w, step))
  {
    hide StoreOk;
    hide ClientOk;
    hide OwnOk;
    hide IdReserved;
    hide KeysOk;
    hide SlugIndexExact;
    hide LogOk;
    hide Evolves;
    hide MigrateStep;
    hide Apart;
    StoreParts(w.store);
    MigrateStore(w.store, step.id, step.createdAt);
    forall j | j in w.clients
      ensures var s' := MigrateStep(w.store, step.id, step.createdAt);
              ClientOk(s', w.clients[j]) && OwnOk(s', w.clients[j]) && IdReserved(s', w.clients[j])
    {
      KeyOfLegacy(w.store, step.id);
      MigratedOther(w.store, step.id, step.createdAt, w.clients[j]);
    }
  }

  lemma KeyOfLegacy(s: Store, id: Id)
    requires KeysOk(s.rows) && LegacyKey(id) in s.rows
    ensures s.rows[LegacyKey(id)].article.id == id
  {
  }

  // ----- A batch takes effect -----

  /** The conditions of Commit, with the client about to have its batch applied. */
  ghost predicate Committing(s: Store, c: Client) {
    && ClientOk(s, c) && c.phase.Slugs? && c.phase.keep == {} && c.phase.drop == {}
    && c.op.desired.Some? && BatchFits(s, c)
    && OwnOk(s, c) && IdReserved(s, c)
  }

  function Gone(c: Client): Key
    requires c.op.desired.Some?
  {
    if c.op.prior.Some? then c.op.prior.value.key else TargetKey(c)
  }

  /** The row that is replaced is exactly what the service read. */
  lemma CommittingPrior(s: Store, c: Client)
    requires LogOk(s) && Committing(s, c)
    ensures c.op.request.CreateDraft? <==> c.op.prior.None?
    ensures c.op.prior.Some? ==>
              && c.op.prior == c.op.base && c.op.prior.value.key in s.rows
              && s.rows[c.op.prior.value.key] == c.op.prior.value
              && c.op.prior.value.article.id == c.op.desired.value.id == IdOf(c) == c.op.prior.value.key.id
    ensures c.op.desired.value.id == IdOf(c)
    ensures Storable(c.op.desired.value) && DesiredOk(c.op) && PriorOk(c.op) && TimeOk(s, c.op) && RequestOk(c.op)
    ensures !c.op.applied
  {
    hide Storable;
    hide PermanenceError;
    hide OwnOk;
    hide IdReserved;
    hide PlanFits;
    hide PlanSound;
    if c.op.prior.Some? {
      assert PriorOk(c.op);
      UnchangedPrior(s, c.op);
    }
  }

  lemma CommittingReplaces(s: Store, c: Client)
    requires LogOk(s) && KeysOk(s.rows) && Committing(s, c)
    ensures Replaces(s, Applied(s, c), Gone(c), NewRow(c, s.next))
  {
    hide Storable;
    hide PermanenceError;
    hide ClientOk;
    hide OwnOk;
    hide PlanFits;
    hide LogOk;
    hide DesiredOk;
    hide TimeOk;
    hide RequestOk;
    CommittingPrior(s, c);
    assert c.op.prior.None? ==> s.rows - {TargetKey(c)} == s.rows;
  }

  /** The client's state at its commit; a creation replaces nothing. */
  lemma CommittingShape(s: Store, c: Client)
    requires Committing(s, c)
    ensures c.op.desired.Some? && c.phase.Slugs? && c.phase.keep == {} && c.phase.drop == {}
    ensures c.op.prior.None? ==> Gone(c) !in s.rows && Gone(c) == TargetKey(c)
    ensures c.op.prior.Some? ==> Gone(c) == c.op.prior.value.key
  {
    hide ClientOk;
    hide OwnOk;
    hide IdReserved;
    hide PlanFits;
  }

  /** The plan that was read is the right one at the commit. */
  lemma CommittingPlan(s: Store, c: Client)
    requires Committing(s, c)
    ensures c.op.desired.Some? && c.phase.Slugs? && PlanFits(s.slugs, c.phase.plan)
    ensures c.op.prior.Some? ==> PlanSound(c.op.prior.value.article, c.op.desired.value, {}, {}, c.phase.plan)
    ensures c.op.prior.None? ==>
              && (forall x :: x in c.phase.plan <==> Reserves(c.op.desired.value, x))
              && (forall x | x in c.phase.plan :: c.phase.plan[x] == AddSlug(RecordFor(c.op.desired.value, x)))
  {
    hide OwnOk;
    hide IdReserved;
    hide PlanFits;
    hide PlanSound;
    hide Storable;
    assert SlugsPhaseOk(s, c);
    assert c.op.prior.Some? ==> c.op.expected == c.op.prior.value.etag;
    hide OpOk;
  }

  lemma CommittingIndex(s: Store, c: Client)
    requires LogOk(s) && KeysOk(s.rows) && SlugIndexExact(s.rows, s.slugs) && Committing(s, c)
    ensures KeysOk(Applied(s, c).rows) && SlugIndexExact(Applied(s, c).rows, Applied(s, c).slugs)
  {
    hide Committing;
    hide LogOk;
    hide KeysOk;
    hide SlugIndexExact;
    hide PlanSound;
    hide PlanFits;
    hide ApplyPlan;
    hide Storable;
    hide DesiredOk;
    hide PriorOk;
    hide TimeOk;
    hide RequestOk;
    CommittingShape(s, c);
    CommittingPrior(s, c);
    CommittingPlan(s, c);
    var row := NewRow(c, s.next);
    OnlyGone(s, c);
    ReplaceKeys(s.rows, Gone(c), row);
    if c.op.prior.Some? {
      UpdateKeepsIndex(s.rows, s.slugs, c.op.prior.value.key, row, c.phase.plan, s.next);
    } else {
      assert s.rows - {TargetKey(c)} == s.rows;
      CreateKeepsIndex(s.rows, s.slugs, row, c.phase.plan, s.next);
    }
  }

  lemma OnlyGone(s: Store, c: Client)
    requires LogOk(s) && KeysOk(s.rows) && Committing(s, c)
    ensures c.op.desired.Some? && KeyFits(TargetKey(c), c.op.desired.value)
    ensures forall k | k in s.rows && k.id == TargetKey(c).id :: k == Gone(c)
  {
    hide Committing;
    hide LogOk;
    hide KeysOk;
    hide Replaces;
    hide KeyFits;
    CommittingShape(s, c);
    CommittingReplaces(s, c);
    ReplacesOnly(s, Applied(s, c), Gone(c), NewRow(c, s.next));
  }

  lemma ReplacesOnly(s: Store, s': Store, gone: Key, row: Row)
    requires Replaces(s, s', gone, row)
    ensures KeyFits(row.key, row.article)
    ensures forall k | k in s.rows && k.id == row.key.id :: k == gone
  {
  }

  /** The stored bodies of the new version: the fresh one, or those of the version it replaces. */
  lemma NewRefs(c: Client)
    requires c.op.desired.Some? && DesiredOk(c.op) && RequestOk(c.op)
    requires c.op.request.CreateDraft? || (c.op.prior.Some? && c.op.prior == c.op.base)
    ensures forall name | Refers(c.op.desired.value, name) ::
              || (Saves(c.op) && c.op.ref.Some? && c.op.ref.value.blobName == name)
              || (c.op.prior.Some? && Refers(c.op.prior.value.article, name))
  {
    hide NextMetadata;
  }

  lemma NewRefsKnown(s: Store, c: Client)
    requires c.op.desired.Some? && DesiredOk(c.op) && RequestOk(c.op) && RefOk(s, c.op)
    requires c.op.desired.value.id == IdOf(c)
    requires c.op.request.CreateDraft? ||
             (c.op.prior.Some? && c.op.prior == c.op.base && c.op.prior.value.article.id == IdOf(c) &&
              RefsKnown(s, c.op.prior.value.article))
    ensures RefsKnown(s, c.op.desired.value)
  {
    hide NextMetadata;
  }

  /** The draft body that a save replaces, if it is not published too. */
  predicate Loses(c: Client, name: string) {
    && c.op.request.SaveDraft? && c.op.prior.Some? && c.op.prior.value.article.draftBody.Some?
    && c.op.prior.value.article.draftBody != c.op.prior.value.article.publishedBody
    && c.op.prior.value.article.draftBody.value.blobName == name
  }

  lemma LostUnreferenced(s: Store, c: Client, name: string)
    requires BodiesOk(s) && KeysOk(s.rows) && DesiredOk(c.op) && c.op.desired.Some?
    requires Loses(c, name) && c.op.prior == c.op.base
    requires c.op.prior.value.key in s.rows && s.rows[c.op.prior.value.key] == c.op.prior.value
    requires c.op.ref.Some? && Unreferenced(s.rows, c.op.ref.value.blobName)
    ensures !Refers(c.op.desired.value, name)
    ensures forall k | k in s.rows && k != c.op.prior.value.key :: !Refers(s.rows[k].article, name)
    ensures name in s.issued
  {
    var prior := c.op.prior.value;
    assert RefsKnown(s, prior.article) && Refers(prior.article, name);
    forall k | k in s.rows && k != prior.key ensures !Refers(s.rows[k].article, name) {
      assert RefsKnown(s, s.rows[k].article) && k.id != prior.key.id;
    }
  }

  /** The new version refers to nothing but the fresh body and what the old version referred to. */
  ghost predicate RefsFrom(s: Store, c: Client)
    requires c.op.desired.Some?
  {
    forall name | Refers(c.op.desired.value, name) ::
      || (Owns(c) && c.op.ref.value.blobName == name)
      || (Gone(c) in s.rows && Refers(s.rows[Gone(c)].article, name))
  }

  lemma CommitPresent(s: Store, s': Store, c: Client)
    requires NoDanglingBodies(s.rows, s.blobs) && OwnOk(s, c) && c.op.desired.Some? && c.phase.Slugs? && RefsFrom(s, c)
    requires s'.rows == (s.rows - {Gone(c)})[TargetKey(c) := NewRow(c, s.next)] && s'.blobs == s.blobs
    ensures NoDanglingBodies(s'.rows, s'.blobs)
  {
  }

  lemma CommitKnown(s: Store, s': Store, c: Client)
    requires forall k | k in s.rows :: RefsKnown(s, s.rows[k].article)
    requires c.op.desired.Some? && RefsKnown(s, c.op.desired.value)
    requires s'.rows == (s.rows - {Gone(c)})[TargetKey(c) := NewRow(c, s.next)] && s'.issued == s.issued
    ensures forall k | k in s'.rows :: RefsKnown(s', s'.rows[k].article)
  {
    forall k | k in s'.rows ensures RefsKnown(s', s'.rows[k].article) {
      var a := if k == TargetKey(c) then c.op.desired.value else s.rows[k].article;
      assert RefsKnown(s, a) && s'.rows[k].article == a;
    }
  }

  lemma CommitUnreferenced(s: Store, s': Store, c: Client, name: string)
    requires Unreferenced(s.rows, name) && (Owns(c) ==> c.op.ref.value.blobName != name)
    requires c.op.desired.Some? && RefsFrom(s, c)
    requires s'.rows == (s.rows - {Gone(c)})[TargetKey(c) := NewRow(c, s.next)]
    ensures Unreferenced(s'.rows, name)
  {
  }

  lemma OwnNotDropped(s: Store, c: Client)
    requires OwnOk(s, c) && Owns(c)
    ensures c.op.ref.value.blobName !in s.dropped
  {
  }

  lemma CommitLost(s: Store, s': Store, c: Client, name: string)
    requires c.op.desired.Some? && !Refers(c.op.desired.value, name)
    requires forall k | k in s.rows && k != Gone(c) :: !Refers(s.rows[k].article, name)
    requires s'.rows == (s.rows - {Gone(c)})[TargetKey(c) := NewRow(c, s.next)]
    ensures Unreferenced(s'.rows, name)
  {
  }

  lemma AppliedRows(s: Store, c: Client)
    requires c.op.desired.Some? && c.phase.Slugs?
    requires c.op.prior.None? ==> TargetKey(c) !in s.rows
    ensures var s' := Applied(s, c);
            && s'.rows == (s.rows - {Gone(c)})[TargetKey(c) := NewRow(c, s.next)]
            && s'.issued == s.issued && s'.blobs == s.blobs
    ensures forall n :: n in Applied(s, c).dropped <==> n in s.dropped || Loses(c, n)
  {
    if c.op.prior.None? {
      assert s.rows - {TargetKey(c)} == s.rows;
    }
  }

  lemma CommittingRefs(s: Store, c: Client)
    requires LogOk(s) && Committing(s, c)
    requires forall k | k in s.rows :: RefsKnown(s, s.rows[k].article)
    ensures RefsFrom(s, c) && RefsKnown(s, c.op.desired.value)
    ensures c.op.prior.None? ==> TargetKey(c) !in s.rows
  {
    CommittingPrior(s, c);
    assert RefOk(s, c.op);
    hide ClientOk;
    hide Storable;
    hide PermanenceError;
    hide LogOk;
    hide PlanFits;
    hide OwnOk;
    hide IdReserved;
    hide TimeOk;
    NewRefs(c);
    NewRefsKnown(s, c);
    hide DesiredOk;
    hide RequestOk;
  }

  lemma CommittingLost(s: Store, c: Client, name: string)
    requires LogOk(s) && KeysOk(s.rows) && BodiesOk(s) && Committing(s, c) && Loses(c, name)
    ensures !Refers(c.op.desired.value, name) && name in s.issued
    ensures forall k | k in s.rows && k != Gone(c) :: !Refers(s.rows[k].article, name)
  {
    CommittingPrior(s, c);
    hide ClientOk;
    hide Storable;
    hide PermanenceError;
    hide LogOk;
    hide PlanFits;
    hide IdReserved;
    hide KeysOk;
    hide BodiesOk;
    hide TimeOk;
    hide BatchFits;
    LostUnreferenced(s, c, name);
  }

  lemma CommittingBodies(s: Store, c: Client)
    requires LogOk(s) && KeysOk(s.rows) && BodiesOk(s) && Committing(s, c)
    ensures BodiesOk(Applied(s, c))
  {
    CommittingRefs(s, c);
    assert OwnOk(s, c) && c.op.desired.Some? && c.phase.Slugs?;
    hide Committing;
    hide LogOk;
    hide KeysOk;
    hide OwnOk;
    hide NoDanglingBodies;
    hide RefsKnown;
    hide RefsFrom;
    hide Unreferenced;
    hide TargetKey;
    var s' := Applied(s, c);
    AppliedRows(s, c);
    hide Applied;
    CommitPresent(s, s', c);
    CommitKnown(s, s', c);
    forall name | name in s'.dropped ensures Unreferenced(s'.rows, name) && name in s'.issued {
      if name in s.dropped {
        assert Owns(c) ==> c.op.ref.value.blobName != name by { if Owns(c) { OwnNotDropped(s, c); } }
        CommitUnreferenced(s, s', c, name);
      } else {
        CommittingLost(s, c, name);
        CommitLost(s, s', c, name);
      }
    }
  }

  /** The new draft reference was not retired, and a save retires the one it replaces. */
  lemma NewDraft(s: Store, c: Client)
    requires LogOk(s) && RetiredOk(s) && Committing(s, c)
    ensures (IdOf(c), c.op.desired.value.draftBody) !in s.retired
    ensures c.op.request.SaveDraft? ==> c.op.desired.value.draftBody != c.op.prior.value.article.draftBody
    ensures c.op.request.SaveDraft? && c.op.prior.value.article.draftBody.Some? ==>
              Refers(c.op.prior.value.article, c.op.prior.value.article.draftBody.value.blobName)
  {
    CommittingPrior(s, c);
    assert RefOk(s, c.op) && OwnOk(s, c);
    hide ClientOk;
    hide Storable;
    hide PermanenceError;
    hide LogOk;
    hide PlanFits;
    hide IdReserved;
    hide TimeOk;
    hide BatchFits;
    hide NextMetadata;
  }

  lemma CommittingRetired(s: Store, c: Client)
    requires LogOk(s) && KeysOk(s.rows) && RetiredOk(s) && BodiesOk(s) && Committing(s, c)
    ensures RetiredOk(Applied(s, c))
  {
    NewDraft(s, c);
    CommittingPrior(s, c);
    CommittingReplaces(s, c);
    assert c.op.request.SaveDraft? ==> RefsKnown(s, c.op.prior.value.article);
    hide Committing;
    hide Storable;
    hide LogOk;
    hide PriorOk;
    hide DesiredOk;
    hide TimeOk;
    hide RequestOk;
    hide BodiesOk;
    hide TargetKey;
    var s' := Applied(s, c);
    assert forall p | p in s'.retired :: p in s.retired ||
             (c.op.request.SaveDraft? && p == (IdOf(c), c.op.prior.value.article.draftBody));
    hide Applied;
    RetiredKept(s, s', Gone(c), NewRow(c, s.next), c.op.request.SaveDraft?,
                if c.op.request.SaveDraft? then c.op.prior.value.article.draftBody else None);
  }

  lemma RetiredKept(s: Store, s': Store, gone: Key, row: Row, saves: bool, lost: Option<BodyRef>)
    requires KeysOk(s.rows) && RetiredOk(s) && Replaces(s, s', gone, row) && s'.issued == s.issued
    requires (row.article.id, row.article.draftBody) !in s.retired
    requires saves ==> row.article.draftBody != lost && (lost.Some? ==> lost.value.blobName in s.issued)
    requires forall p | p in s'.retired :: p in s.retired || (saves && p == (row.article.id, lost))
    ensures RetiredOk(s')
  {
  }

  lemma CommittingPublic(s: Store, c: Client)
    requires LogOk(s) && KeysOk(s.rows) && PublicOk(s) && Committing(s, c)
    ensures PublicOk(Applied(s, c))
  {
    CommittingPrior(s, c);
    CommittingReplaces(s, c);
    var s' := Applied(s, c);
    var row := NewRow(c, s.next);
    hide Committing;
    hide Storable;
    hide LogOk;
    hide DesiredOk;
    hide TimeOk;
    hide TargetKey;
    assert s'.rows == (s.rows - {Gone(c)})[row.key := row] && s'.everPublic == s.everPublic + PublicOf(row.article);
    assert c.op.prior.Some? ==> PermanenceError(c.op.prior.value.article, row.article).None?;
    hide PriorOk;
    hide Replaces;
    hide Applied;
    PublicKept(s, s', c, row);
  }

  lemma PublicKept(s: Store, s': Store, c: Client, row: Row)
    requires KeysOk(s.rows) && PublicOk(s) && c.op.desired.Some? && row.key.id == row.article.id
    requires s'.rows == (s.rows - {Gone(c)})[row.key := row] && s'.everPublic == s.everPublic + PublicOf(row.article)
    requires row.key in s.rows ==> row.key == Gone(c)
    requires Gone(c) in s.rows ==>
               Gone(c).id == row.key.id && PermanenceError(s.rows[Gone(c)].article, row.article).None?
    ensures PublicOk(s')
  {
    hide KeysOk;
    hide PermanenceError;
    forall x | x in s'.everPublic ensures PublicBy(s'.rows, x, s'.everPublic[x]) {
      PublicStillBy(s, s', Gone(c), row, x);
    }
    forall k, x | k in s'.rows && PublicSlug(s'.rows[k].article, x) ensures x in s'.everPublic {
      if k == row.key {
        assert x in PublicOf(row.article);
      } else {
        assert k in s.rows && PublicSlug(s.rows[k].article, x);
      }
    }
  }

  lemma PublicStillBy(s: Store, s': Store, gone: Key, row: Row, x: Slug)
    requires PublicOk(s) && row.key.id == row.article.id
    requires s'.rows == (s.rows - {gone})[row.key := row] && s'.everPublic == s.everPublic + PublicOf(row.article)
    requires row.key in s.rows ==> row.key == gone
    requires gone in s.rows ==> gone.id == row.key.id && PermanenceError(s.rows[gone].article, row.article).None?
    requires x in s'.everPublic
    ensures PublicBy(s'.rows, x, s'.everPublic[x])
  {
    if PublicSlug(row.article, x) {
      assert row.key in s'.rows && PublicSlug(s'.rows[row.key].article, x);
    } else {
      assert x in s.everPublic && PublicBy(s.rows, x, s.everPublic[x]);
      var k :| k in s.rows && k.id == s.everPublic[x] && PublicSlug(s.rows[k].article, x);
      if k == gone {
        PermanenceKeepsPublicSlugs(s.rows[gone].article, row.article, x);
      } else {
        assert k in s'.rows && PublicSlug(s'.rows[k].article, x);
      }
    }
  }

  lemma AppliedHistory(s: Store, c: Client)
    requires LogOk(s) && c.op.desired.Some? && c.phase.Slugs?
    ensures HistoryKept(s, Applied(s, c)) && Applied(s, c).clock == s.clock && Applied(s, c).monotone == s.monotone
  {
    hide TargetKey;
    hide ApplyPlan;
    hide PublicOf;
  }

  lemma CommittingTimes(s: Store, c: Client)
    requires LogOk(s) && Committing(s, c)
    ensures c.op.desired.Some? && c.phase.Slugs? && c.op.desired.value.updatedAt <= s.clock
    ensures s.monotone && Gone(c) in s.rows ==>
              s.rows[Gone(c)].article.updatedAt <= c.op.desired.value.updatedAt || c.op.prior.None?
  {
    hide Storable;
    hide DesiredOk;
    hide PriorOk;
    hide OwnOk;
    hide PlanFits;
    CommittingPrior(s, c);
    hide LogOk;
    hide Committing;
  }

  lemma CommittingHistory(s: Store, c: Client)
    requires LogOk(s) && KeysOk(s.rows) && Committing(s, c)
    ensures LogOk(Applied(s, c)) && Evolves(s, Applied(s, c))
  {
    hide Committing;
    hide LogOk;
    hide KeysOk;
    hide Applied;
    hide Replaces;
    hide HistoryKept;
    CommittingTimes(s, c);
    CommittingReplaces(s, c);
    CommittingShape(s, c);
    AppliedHistory(s, c);
    var row := NewRow(c, s.next);
    hide TargetKey;
    ReplacesLog(s, Applied(s, c), Gone(c), row);
    ReplacesEvolves(s, Applied(s, c), Gone(c), row);
  }

  lemma CommittingStore(s: Store, c: Client)
    requires StoreOk(s) && Committing(s, c)
    ensures StoreOk(Applied(s, c)) && Evolves(s, Applied(s, c))
  {
    StoreParts(s);
    assert RowsStorable(s.rows) && BodiesOk(s) && PublicOk(s);
    hide StoreOk;
    hide Committing;
    hide KeysOk;
    hide LogOk;
    hide BodiesOk;
    hide RetiredOk;
    hide PublicOk;
    hide SlugIndexExact;
    hide Evolves;
    hide RowsStorable;
    CommittingIndex(s, c);
    CommittingBodies(s, c);
    CommittingRetired(s, c);
    CommittingPublic(s, c);
    CommittingHistory(s, c);
    CommittingStorable(s, c);
    AssembleStore(Applied(s, c));
  }

  lemma AssembleStore(s: Store)
    requires KeysOk(s.rows) && RowsStorable(s.rows) && SlugIndexExact(s.rows, s.slugs)
    requires BodiesOk(s) && RetiredOk(s) && LogOk(s) && PublicOk(s)
    ensures StoreOk(s)
  {
    hide KeysOk;
    hide RowsStorable;
    hide SlugIndexExact;
    hide BodiesOk;
    hide RetiredOk;
    hide LogOk;
    hide PublicOk;
  }

  lemma CommittingStorable(s: Store, c: Client)
    requires RowsStorable(s.rows) && LogOk(s) && Committing(s, c)
    ensures RowsStorable(Applied(s, c).rows)
  {
    CommittingPrior(s, c);
    hide Committing;
    hide LogOk;
    hide Storable;
    hide DesiredOk;
    hide PriorOk;
    hide TimeOk;
  }

  lemma CommittedSelf(s: Store, c: Client)
    requires LogOk(s) && KeysOk(s.rows) && Committing(s, c) && Evolves(s, Applied(s, c))
    ensures OpOk(Applied(s, c), c.op.(applied := true))
  {
    var s' := Applied(s, c);
    CommittingPrior(s, c);
    CommittingReplaces(s, c);
    assert OpOk(s, c.op);
    hide ClientOk;
    hide OpOk;
    OpStable(s, s', c.op);
    CommittedApplied(s, c);
    hide Applied;
    hide Evolves;
    hide BatchFits;
    hide Replaces;
    hide LogOk;
    hide KeysOk;
    hide Storable;
    AppliedOp(s', c.op);
  }

  lemma AppliedOp(s: Store, o: Op)
    requires OpOk(s, o) && AppliedOk(s, o.(applied := true))
    ensures OpOk(s, o.(applied := true))
  {
    hide AppliedOk;
  }

  lemma CommittedApplied(s: Store, c: Client)
    requires LogOk(s) && KeysOk(s.rows) && Committing(s, c)
    ensures AppliedOk(Applied(s, c), c.op.(applied := true))
  {
    hide Committing;
    hide Replaces;
    hide LogOk;
    hide KeysOk;
    hide Storable;
    hide DesiredOk;
    hide PriorOk;
    hide TimeOk;
    hide RequestOk;
    CommittingShape(s, c);
    CommittingPrior(s, c);
    CommittingReplaces(s, c);
    ReplacedRow(s, Applied(s, c), Gone(c), NewRow(c, s.next));
    assert TargetKey(c).id == IdOf(c);
  }

  lemma ReplacedRow(s: Store, s': Store, gone: Key, row: Row)
    requires Replaces(s, s', gone, row)
    ensures row.key in s'.rows && s'.rows[row.key] == row && row.key.id == row.article.id
    ensures forall k | k in s'.rows && k.id == row.key.id :: k == row.key
  {
  }

  lemma CommittedOther(s: Store, c: Client, d: Client)
    requires LogOk(s) && KeysOk(s.rows) && BodiesOk(s) && Committing(s, c) && Evolves(s, Applied(s, c))
    requires ClientOk(s, d) && OwnOk(s, d) && IdReserved(s, d) && Apart(c, d)
    ensures ClientOk(Applied(s, c), d) && OwnOk(Applied(s, c), d) && IdReserved(Applied(s, c), d)
  {
    hide ClientOk;
    hide LogOk;
    hide KeysOk;
    hide BodiesOk;
    hide OwnOk;
    hide IdReserved;
    hide Evolves;
    hide Applied;
    hide Apart;
    assert c.op.desired.Some? && c.phase.Slugs?;
    hide Committing;
    ClientStable(s, Applied(s, c), d);
    CommittedOtherOwn(s, c, d);
    CommittedOtherId(s, c, d);
  }

  lemma CommittedOtherId(s: Store, c: Client, d: Client)
    requires LogOk(s) && KeysOk(s.rows) && Committing(s, c) && IdReserved(s, d) && Apart(c, d)
    ensures IdReserved(Applied(s, c), d)
  {
    CommittingPrior(s, c);
    CommittingReplaces(s, c);
    hide Committing;
    hide LogOk;
    hide Storable;
    hide DesiredOk;
    hide PriorOk;
    hide TimeOk;
  }

  lemma AllRefsKnown(s: Store)
    requires BodiesOk(s)
    ensures forall k | k in s.rows :: RefsKnown(s, s.rows[k].article)
  {
    hide RefsKnown;
  }

  lemma CommittedOtherOwn(s: Store, c: Client, d: Client)
    requires LogOk(s) && KeysOk(s.rows) && BodiesOk(s) && Committing(s, c) && OwnOk(s, d) && Apart(c, d)
    ensures OwnOk(Applied(s, c), d)
  {
    hide Committing;
    hide LogOk;
    hide KeysOk;
    hide BodiesOk;
    hide RefsKnown;
    hide RefsFrom;
    hide Storable;
    hide DesiredOk;
    hide PriorOk;
    hide TimeOk;
    hide RequestOk;
    hide TargetKey;
    AllRefsKnown(s);
    CommittingShape(s, c);
    CommittingRefs(s, c);
    CommittingPrior(s, c);
    AppliedRows(s, c);
    if Owns(d) {
      CommitUnreferenced(s, Applied(s, c), c, d.op.ref.value.blobName);
      OwnKept(s, Applied(s, c), c, d);
    }
  }

  lemma OwnKept(s: Store, s': Store, c: Client, d: Client)
    requires OwnOk(s, d) && Owns(d) && Unreferenced(s'.rows, d.op.ref.value.blobName)
    requires c.op.prior.Some? ==> c.op.prior.value.key in s.rows && s.rows[c.op.prior.value.key] == c.op.prior.value
    requires s'.blobs == s.blobs
    requires forall n :: n in s'.dropped <==> n in s.dropped || Loses(c, n)
    requires forall p | p in s'.retired :: p in s.retired || (c.op.prior.Some? && p.1 == c.op.prior.value.article.draftBody)
    ensures OwnOk(s', d)
  {
    var name := d.op.ref.value.blobName;
    assert c.op.prior.Some? ==> !Refers(c.op.prior.value.article, name);
  }

  lemma StoreBodies(s: Store)
    requires StoreOk(s)
    ensures BodiesOk(s)
  {
    hide BodiesOk;
    hide KeysOk;
    hide RowsStorable;
    hide SlugIndexExact;
    hide RetiredOk;
    hide LogOk;
    hide PublicOk;
  }

  lemma WorldApart(w: World, i: nat, j: nat)
    requires WorldOk(w) && i in w.clients && j in w.clients && i != j
    ensures Apart(w.clients[i], w.clients[j])
  {
    hide StoreOk;
    hide ClientOk;
    hide OwnOk;
    hide IdReserved;
    hide Apart;
  }

  lemma ApartApplied(c: Client, c': Client, d: Client)
    requires Apart(c, d) && c' == c.(op := c.op.(applied := true), phase := c'.phase)
    ensures Apart(c', d)
  {
  }

  lemma CommitAppliedKept(w: World, i: nat, c': Client)
    requires WorldOk(w) && i in w.clients && Committing(w.store, w.clients[i])
    requires c' == w.clients[i].(op := w.clients[i].op.(applied := true), phase := c'.phase)
    requires c'.phase == Refresh(false) || c'.phase == Reconcile(false)
    ensures WorldOk(World(Applied(w.store, w.clients[i]), w.clients[i := c']))
  {
    var s := w.store;
    var c := w.clients[i];
    var s' := Applied(s, c);
    hide WorldOk;
    hide Replaces;
    hide RequestOk;
    hide PermanenceError;
    hide StoreOk;
    hide ClientOk;
    hide OwnOk;
    hide IdReserved;
    hide Committing;
    hide KeysOk;
    hide LogOk;
    hide BodiesOk;
    hide SlugIndexExact;
    hide RetiredOk;
    hide Evolves;
    hide Applied;
    hide Storable;
    hide DesiredOk;
    hide PriorOk;
    hide TimeOk;
    WorldClient(w, i);
    StoreParts(s);
    StoreBodies(s);
    CommittingShape(s, c);
    CommittingPrior(s, c);
    CommittingStore(s, c);
    CommittedSelf(s, c);
    CommittedPhase(s', c, c');
    forall j | j in w.clients && j != i
      ensures ClientOk(s', w.clients[j]) && OwnOk(s', w.clients[j]) && IdReserved(s', w.clients[j])
      ensures Apart(c', w.clients[j])
    {
      WorldClient(w, j);
      WorldApart(w, i, j);
      CommittedOther(s, c, w.clients[j]);
      ApartApplied(c, c', w.clients[j]);
    }
    hide Apart;
    Rebuild(w, s', i, c');
  }

  lemma CommittedPhase(s': Store, c: Client, c': Client)
    requires c' == c.(op := c.op.(applied := true), phase := c'.phase)
    requires c'.phase == Refresh(false) || c'.phase == Reconcile(false)
    requires OpOk(s', c'.op) && c.op.desired.Some? && (c.op.request.CreateDraft? <==> c.op.prior.None?)
    ensures ClientOk(s', c') && OwnOk(s', c') && IdReserved(s', c')
  {
    hide OpOk;
  }

  lemma CommitRefusedMoved(s: Store, c: Client, reply: Reply)
    requires OpOk(s, c.op) && c.phase.Slugs? && SlugsPhaseOk(s, c) && !reply.Accepted?
    ensures Moved(s, c, AfterCommit(c, reply))
  {
    hide OpOk;
    hide Storable;
    hide PlanSound;
    if reply.Refused? && !AfterCommit(c, reply).phase.ConflictProbe? {
      var e := match reply.error
               case DriverConflict => SlugTaken
               case DriverPrecondition => Conflict
               case DriverNotFound => NotFound
               case DriverBatchInvalid => Validation
               case DriverOther => Storage;
      FailMoved(s, c, e);
    } else {
      PhaseMoved(s, c, AfterCommit(c, reply));
    }
  }

  lemma SlugsClient(s: Store, c: Client)
    requires ClientOk(s, c) && c.phase.Slugs?
    ensures OpOk(s, c.op) && SlugsPhaseOk(s, c) && !c.op.applied
  {
    hide OpOk;
    hide PlanSound;
    hide Storable;
  }

  lemma CommitKept(w: World, step: Step)
    requires WorldOk(w) && step.Commit? && Enabled(w, step)
    ensures WorldOk(Next(w, step))
  {
    var i := step.client;
    var c := w.clients[i];
    var s := w.store;
    hide WorldOk;
    hide StoreOk;
    hide ClientOk;
    hide OpOk;
    hide OwnOk;
    hide IdReserved;
    hide SlugsPhaseOk;
    hide PlanFits;
    hide Applied;
    hide Moved;
    WorldClient(w, i);
    SlugsClient(s, c);
    if step.applies {
      var c' := AfterCommit(c.(op := c.op.(applied := true)), step.reply);
      assert Committing(s, c);
      CommitAppliedKept(w, i, c');
      assert Next(w, step) == World(Applied(s, c), w.clients[i := c']);
    } else {
      assert c.(op := c.op.(applied := false)) == c;
      var c' := AfterCommit(c, step.reply);
      CommitRefusedMoved(s, c, step.reply);
      QuietKept(w, s, i, c');
      assert Next(w, step) == World(Abandon(s, c'), w.clients[i := c']);
    }
  }

  /** Every step keeps the invariant. */
  lemma StepKept(w: World, step: Step)
    requires WorldOk(w) && Enabled(w, step)
    ensures WorldOk(Next(w, step))
  {
    hide WorldOk;
    hide Enabled;
    hide Next;
    match step
    case Start(_, _, _, _) => StartKept(w, step);
    case Upload(_, _, _, _, _) => UploadKept(w, step);
    case Commit(_, _, _) => CommitKept(w, step);
    case DeleteBody(_, _) => DeleteKept(w, step);
    case Migrate(_, _) => MigrateKept(w, step);
    case Get(_, _, _) => ReadOnlyKept(w, step);
    case CheckUpload(_, _, _) => ReadOnlyKept(w, step);
    case ReadSlug(_, _, _) => ReadOnlyKept(w, step);
    case CheckLegacy(_, _) => ReadOnlyKept(w, step);
    case VerifySlug(_, _, _) => ReadOnlyKept(w, step);
    case Verified(_) => ReadOnlyKept(w, step);
  }
}
