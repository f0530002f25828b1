/**
  What the article protocol does to the articles that the public site reads:
  every batch that takes effect is one change of PublicSite, and the articles
  stay as SiteRuns needs them. internal/articles/service.go.
 */
module ArticleSite {
  import opened Outcomes
  import opened ArticleModel
  import opened ArticleTable
  import opened ArticleProtocol
  import opened ArticleInvariant
  import opened ArticleSteps
  import opened ArticleCommits
  import opened ArticleTheorems
  import opened ArticleOutcomes
  import opened ArticleHiding
  import P = PublicSite

  function IdsOf(rows: map<Key, Row>): set<Id> {
    set k | k in rows :: k.id
  }

  ghost function KeyAt(rows: map<Key, Row>, id: Id): (k: Key)
    requires id in IdsOf(rows)
    ensures k in rows && k.id == id
  {
    var k :| k in rows && k.id == id;
    k
  }

  /** The stored articles by ID. */
  ghost function LibraryOf(rows: map<Key, Row>): P.Library {
    map id | id in IdsOf(rows) :: rows[KeyAt(rows, id)].article
  }

  lemma LibraryHas(rows: map<Key, Row>, k: Key)
    requires KeysOk(rows) && k in rows
    ensures k.id in LibraryOf(rows) && LibraryOf(rows)[k.id] == rows[k].article
  {
    assert k.id in IdsOf(rows);
    assert KeyAt(rows, k.id) == k;
  }

  lemma LibraryFrom(rows: map<Key, Row>, id: Id) returns (k: Key)
    requires KeysOk(rows) && id in LibraryOf(rows)
    ensures k in rows && k.id == id && LibraryOf(rows)[id] == rows[k].article
  {
    k := KeyAt(rows, id);
  }

  /** The articles of a consistent table are valid, and no two share a public slug. */
  lemma LibraryConsistent(s: Store)
    requires StoreOk(s)
    ensures KeysOk(s.rows) && P.Consistent(LibraryOf(s.rows))
  {
    StoreParts(s);
    StoreStorable(s);
    hide StoreOk;
    hide SlugIndexExact;
    hide LogOk;
    hide RetiredOk;
    hide SlugsPresent;
    hide RowsStorable;
    hide KeysOk;
    hide LibraryOf;
    hide PublicSlug;
    hide ValidPublication;
    var w := LibraryOf(s.rows);
    forall id | id in w ensures w[id].id == id && ValidPublication(w[id]) {
      LibraryValid(s.rows, id);
    }
    forall id, id', x | id in w && id' in w && PublicSlug(w[id], x) && PublicSlug(w[id'], x) ensures id == id' {
      var k := LibraryFrom(s.rows, id);
      var k' := LibraryFrom(s.rows, id');
      SlugsDisjoint(s.rows, s.slugs, k, k', x);
    }
  }

  lemma LibraryValid(rows: map<Key, Row>, id: Id)
    requires KeysOk(rows) && RowsStorable(rows) && id in LibraryOf(rows)
    ensures LibraryOf(rows)[id].id == id && ValidPublication(LibraryOf(rows)[id])
  {
    hide LibraryOf;
    hide Storable;
    hide ValidPublication;
    var k := LibraryFrom(rows, id);
    StoredPublication(rows[k].article);
    assert KeyFits(k, rows[k].article);
  }

  lemma StoredPublication(a: Article)
    requires Storable(a)
    ensures ValidPublication(a)
  {
    hide ValidText;
    hide ValidTimes;
    hide ValidRef;
    hide ValidMetadata;
    hide Blank;
  }

  /** What the client's batch changes. */
  function ChangeOf(c: Client): P.Change
    requires c.op.desired.Some? && (c.op.request.SaveDraft? ==> c.op.request.input.Ok? && c.op.ref.Some?)
  {
    var a := c.op.desired.value;
    match c.op.request
    case CreateDraft(_) => P.Created(a)
    case SaveDraft(id, input) => P.SavedDraft(id, input.value, c.op.ref.value, a.updatedAt)
    case Publish(id) => P.PublishedNow(id, a.updatedAt)
    case Withdraw(id) => P.WithdrawnNow(id, a.updatedAt)
  }

  lemma CommitHasChange(s: Store, c: Client)
    requires LogOk(s) && Committing(s, c)
    ensures c.op.desired.Some? && c.phase.Slugs?
    ensures c.op.request.SaveDraft? ==> c.op.request.input.Ok? && c.op.ref.Some?
  {
    CommittingShape(s, c);
    CommittingPrior(s, c);
    hide Committing;
    hide LogOk;
    hide Storable;
    hide PriorOk;
    hide TimeOk;
    hide RequestOk;
  }

  /** The change is possible, and makes of the replaced article what the client wants to store. */
  lemma CommitChange(s: Store, c: Client)
    requires LogOk(s) && KeysOk(s.rows) && Committing(s, c) && EarlyOk(c)
    ensures c.op.desired.Some? && (c.op.request.SaveDraft? ==> c.op.request.input.Ok? && c.op.ref.Some?)
    ensures var w, change := LibraryOf(s.rows), ChangeOf(c);
            P.Possible(w, change) && P.ChangedId(change) == IdOf(c) && P.After(w, change) == c.op.desired.value
  {
    CommitHasChange(s, c);
    CommittingPrior(s, c);
    assert IdReserved(s, c);
    hide Committing;
    hide LogOk;
    hide PriorOk;
    hide TimeOk;
    hide Storable;
    hide KeysOk;
    hide LibraryOf;
    if c.op.prior.Some? {
      LibraryHas(s.rows, c.op.prior.value.key);
      hide RequestOk;
      UpdateChange(LibraryOf(s.rows), c);
    } else {
      NotYetThere(s.rows, IdOf(c));
      NewIsDraft(c);
    }
    hide DesiredOk;
    hide EarlyOk;
  }

  lemma UpdateChange(w: P.Library, c: Client)
    requires c.op.prior.Some? && c.op.prior == c.op.base && c.op.desired.Some? && !c.op.request.CreateDraft?
    requires c.op.request.SaveDraft? ==> c.op.request.input.Ok? && c.op.ref.Some?
    requires DesiredOk(c.op) && EarlyOk(c)
    requires IdOf(c) in w && w[IdOf(c)] == c.op.prior.value.article
    ensures P.Possible(w, ChangeOf(c)) && P.ChangedId(ChangeOf(c)) == IdOf(c) && P.After(w, ChangeOf(c)) == c.op.desired.value
  {
    hide PublishedFrom;
    hide WithdrawnFrom;
    hide Saved;
  }

  lemma NotYetThere(rows: map<Key, Row>, id: Id)
    requires KeysOk(rows) && forall k | k in rows :: k.id != id
    ensures id !in LibraryOf(rows)
  {
  }

  lemma NewIsDraft(c: Client)
    requires c.op.request.CreateDraft? && c.op.desired.Some? && DesiredOk(c.op) && RequestOk(c.op) && Storable(c.op.desired.value)
    ensures c.op.desired.value.status == Draft && c.op.desired.value.published.None?
  {
    StoredPublication(c.op.desired.value);
    hide Storable;
  }

  lemma ReplacedLibrary(s: Store, s': Store, gone: Key, row: Row)
    requires KeysOk(s.rows) && KeysOk(s'.rows) && Replaces(s, s', gone, row)
    ensures LibraryOf(s'.rows) == LibraryOf(s.rows)[row.key.id := row.article]
  {
    hide LibraryOf;
    hide KeysOk;
    hide Replaces;
    var w' := LibraryOf(s'.rows);
    var target := LibraryOf(s.rows)[row.key.id := row.article];
    forall id ensures id in w' <==> id in target {
      ReplacedAt(s, s', gone, row, id);
    }
    forall id | id in w' ensures w'[id] == target[id] {
      ReplacedAt(s, s', gone, row, id);
    }
    assert w' == target;
  }

  lemma ReplacedAt(s: Store, s': Store, gone: Key, row: Row, id: Id)
    requires KeysOk(s.rows) && KeysOk(s'.rows) && Replaces(s, s', gone, row)
    ensures var w, w' := LibraryOf(s.rows), LibraryOf(s'.rows);
            && (id in w' <==> id in w || id == row.key.id)
            && (id in w' ==> w'[id] == if id == row.key.id then row.article else w[id])
  {
    hide KeysOk;
    hide LibraryOf;
    LibraryHas(s'.rows, row.key);
    if id != row.key.id {
      if id in LibraryOf(s'.rows) {
        var k := LibraryFrom(s'.rows, id);
        LibraryHas(s.rows, k);
      }
      if id in LibraryOf(s.rows) {
        var k := LibraryFrom(s.rows, id);
        LibraryHas(s'.rows, k);
      }
    }
  }

  /** A batch that takes effect makes exactly this change to the stored articles. */
  lemma CommitActs(s: Store, c: Client)
    requires StoreOk(s) && Committing(s, c) && EarlyOk(c)
    ensures c.op.desired.Some? && c.phase.Slugs? && (c.op.request.SaveDraft? ==> c.op.request.input.Ok? && c.op.ref.Some?)
    ensures KeysOk(s.rows) && KeysOk(Applied(s, c).rows)
    ensures P.Possible(LibraryOf(s.rows), ChangeOf(c))
    ensures LibraryOf(Applied(s, c).rows) == P.Changed(LibraryOf(s.rows), ChangeOf(c))
  {
    StoreParts(s);
    hide StoreOk;
    hide SlugsPresent;
    hide SlugIndexExact;
    hide RetiredOk;
    hide LogOk;
    hide KeysOk;
    hide Committing;
    hide Replaces;
    hide Applied;
    hide Storable;
    hide DesiredOk;
    hide PriorOk;
    hide TimeOk;
    hide RequestOk;
    hide EarlyOk;
    hide ChangeOf;
    hide P.Possible;
    hide P.After;
    CommitHasChange(s, c);
    CommittingPrior(s, c);
    CommittingReplaces(s, c);
    CommittingIndex(s, c);
    CommitChange(s, c);
    ReplacedLibrary(s, Applied(s, c), Gone(c), NewRow(c, s.next));
    assert NewRow(c, s.next).key.id == IdOf(c) && NewRow(c, s.next).article == c.op.desired.value by {
      ReplacesFits(s, Applied(s, c), Gone(c), NewRow(c, s.next));
    }
  }

  lemma ReplacesFits(s: Store, s': Store, gone: Key, row: Row)
    requires Replaces(s, s', gone, row)
    ensures row.key.id == row.article.id
  {
  }

  lemma MoveActs(s: Store, id: Id, createdAt: Time)
    requires LegacyKey(id) in s.rows && s.rows[LegacyKey(id)].article.createdAt == createdAt && CurrentKey(id, createdAt) !in s.rows
    requires KeysOk(s.rows) && KeysOk(MigrateStep(s, id, createdAt).rows)
    ensures LibraryOf(MigrateStep(s, id, createdAt).rows) == LibraryOf(s.rows)
  {
    var s' := MigrateStep(s, id, createdAt);
    var row := s'.rows[CurrentKey(id, createdAt)];
    LibraryHas(s.rows, LegacyKey(id));
    ReplacedLibrary(s, s', LegacyKey(id), row);
  }

  // ----- Runs -----

  /** The changes that a run makes, in order. */
  ghost function ChangesOf(w: World, steps: seq<Step>): seq<P.Change>
    requires Possible(w, steps)
    decreases |steps|
  {
    if steps == [] then []
    else
      (if ActsNow(w, steps[0]) then [ChangeOf(w.clients[steps[0].client])] else []) +
      ChangesOf(Next(w, steps[0]), steps[1..])
  }

  /** The step is a commit that takes effect. */
  ghost predicate ActsNow(w: World, step: Step)
    requires Enabled(w, step)
  {
    && step.Commit? && step.applies
    && var c := w.clients[step.client];
       c.op.request.SaveDraft? ==> c.op.request.input.Ok? && c.op.ref.Some?
  }

  /** Each change is possible in its turn and leaves the articles consistent, as SiteRuns asks of an Act. */
  ghost predicate Acts(lib: P.Library, changes: seq<P.Change>)
    decreases |changes|
  {
    changes == [] ||
    (P.Possible(lib, changes[0]) && P.Consistent(P.Changed(lib, changes[0])) && Acts(P.Changed(lib, changes[0]), changes[1..]))
  }

  ghost function AfterAll(lib: P.Library, changes: seq<P.Change>): P.Library
    requires Acts(lib, changes)
    decreases |changes|
  {
    if changes == [] then lib else AfterAll(P.Changed(lib, changes[0]), changes[1..])
  }

  /** One step of the protocol: an effective commit is one change, any other step none. */
  lemma StepActs(w: World, step: Step)
    requires WorldOk(w) && AllHideOk(w) && Enabled(w, step)
    ensures KeysOk(w.store.rows) && KeysOk(Next(w, step).store.rows)
    ensures P.Consistent(LibraryOf(Next(w, step).store.rows))
    ensures var lib, lib' := LibraryOf(w.store.rows), LibraryOf(Next(w, step).store.rows);
            if ActsNow(w, step) then
              var change := ChangeOf(w.clients[step.client]); P.Possible(lib, change) && lib' == P.Changed(lib, change)
            else lib' == lib
  {
    StepKept(w, step);
    WorldStore(w);
    WorldStore(Next(w, step));
    LibraryConsistent(w.store);
    LibraryConsistent(Next(w, step).store);
    hide WorldOk;
    hide StoreOk;
    hide KeysOk;
    hide P.Consistent;
    hide P.Possible;
    hide P.Changed;
    hide LibraryOf;
    hide ChangeOf;
    if step.Commit? && step.applies {
      CommitStepCommits(w, step);
      assert EarlyOk(w.clients[step.client]);
      hide Committing;
      hide EarlyOk;
      CommitActs(w.store, w.clients[step.client]);
      CommitNext(w, step);
      hide Next;
      hide Enabled;
    } else {
      hide AllHideOk;
      if step.Migrate? {
        MoveActs(w.store, step.id, step.createdAt);
      } else {
        StepSameTable(w, step);
        hide Next;
      }
    }
  }

  /**
    Every run of the protocol acts on the public site by a sequence of changes
    that SiteRuns allows, one for each batch that took effect and in their order.
   */
  lemma {:induction false} RunActs(w: World, steps: seq<Step>)
    requires WorldOk(w) && AllHideOk(w) && Possible(w, steps)
    ensures KeysOk(w.store.rows) && KeysOk(Run(w, steps).store.rows)
    ensures Acts(LibraryOf(w.store.rows), ChangesOf(w, steps))
    ensures AfterAll(LibraryOf(w.store.rows), ChangesOf(w, steps)) == LibraryOf(Run(w, steps).store.rows)
    decreases |steps|
  {
    hide WorldOk;
    hide AllHideOk;
    hide KeysOk;
    hide Enabled;
    hide Next;
    hide ActsNow;
    hide LibraryOf;
    hide ChangeOf;
    hide P.Consistent;
    hide P.Possible;
    hide P.Changed;
    if steps == [] {
      RowsKeyed(w);
    } else {
      StepKept(w, steps[0]);
      StepHides(w, steps[0]);
      StepActs(w, steps[0]);
      RunActs(Next(w, steps[0]), steps[1..]);
      var rest := ChangesOf(Next(w, steps[0]), steps[1..]);
      if ActsNow(w, steps[0]) {
        assert ChangesOf(w, steps)[1..] == rest;
      } else {
        assert ChangesOf(w, steps) == rest;
      }
    }
  }

  /** The same from any consistent table without running operations. */
  lemma ProtocolActs(w: World, steps: seq<Step>)
    requires Init(w) && Possible(w, steps)
    ensures P.Consistent(LibraryOf(w.store.rows)) && Acts(LibraryOf(w.store.rows), ChangesOf(w, steps))
    ensures AfterAll(LibraryOf(w.store.rows), ChangesOf(w, steps)) == LibraryOf(Run(w, steps).store.rows)
  {
    hide WorldOk;
    hide AllHideOk;
    hide StoreOk;
    InitHides(w);
    LibraryConsistent(w.store);
    RunActs(w, steps);
  }

  lemma RowsKeyed(w: World)
    requires WorldOk(w)
    ensures KeysOk(w.store.rows)
  {
    WorldStore(w);
    StoreParts(w.store);
    hide WorldOk;
    hide StoreOk;
    hide KeysOk;
    hide SlugsPresent;
    hide SlugIndexExact;
    hide RetiredOk;
    hide LogOk;
  }
}
