/** What the article protocol guarantees over every run, from any consistent table. */
module ArticleTheorems {
  import opened Outcomes
  import opened ArticleModel
  import opened ArticleTable
  import opened ArticleProtocol
  import opened ArticleInvariant
  import opened ArticleSteps
  import opened ArticleCommits

  /** No operation is running, and the stored data are consistent. */
  ghost predicate Init(w: World) {
    w.clients == map[] && StoreOk(w.store)
  }

  ghost predicate Possible(w: World, steps: seq<Step>)
    decreases |steps|
  {
    steps == [] || (Enabled(w, steps[0]) && Possible(Next(w, steps[0]), steps[1..]))
  }

  ghost function Run(w: World, steps: seq<Step>): World
    requires Possible(w, steps)
    decreases |steps|
  {
    if steps == [] then w else Run(Next(w, steps[0]), steps[1..])
  }

  lemma {:induction false} RunKept(w: World, steps: seq<Step>)
    requires WorldOk(w) && Possible(w, steps)
    ensures WorldOk(Run(w, steps))
    decreases |steps|
  {
    hide WorldOk;
    hide Enabled;
    hide Next;
    if steps != [] {
      StepKept(w, steps[0]);
      RunKept(Next(w, steps[0]), steps[1..]);
    }
  }

  /** A run can be looked at at any earlier moment. */
  lemma {:induction false} RunSplit(w: World, steps: seq<Step>, n: nat)
    requires Possible(w, steps) && n <= |steps|
    ensures Possible(w, steps[..n]) && Possible(Run(w, steps[..n]), steps[n..])
    ensures Run(w, steps) == Run(Run(w, steps[..n]), steps[n..])
    decreases n
  {
    hide Enabled;
    hide Next;
    if n == 0 {
      assert steps[..0] == [] && steps[0..] == steps;
    } else {
      RunSplit(Next(w, steps[0]), steps[1..], n - 1);
      assert steps[..n][0] == steps[0] && steps[..n][1..] == steps[1..][..n - 1];
      assert steps[1..][n - 1..] == steps[n..];
    }
  }

  /** A run of n + 1 steps is a run of n steps and one more step. */
  lemma RunLast(w: World, steps: seq<Step>)
    requires Possible(w, steps) && steps != []
    ensures var n := |steps| - 1;
            && Possible(w, steps[..n]) && Enabled(Run(w, steps[..n]), steps[n])
            && Run(w, steps) == Next(Run(w, steps[..n]), steps[n])
  {
    var n := |steps| - 1;
    RunSplit(w, steps, n);
    assert steps[n..] == [steps[n]];
    assert steps[n..][1..] == [];
  }

  lemma RunInvariant(w: World, steps: seq<Step>)
    requires Init(w) && Possible(w, steps)
    ensures WorldOk(Run(w, steps)) && StoreOk(Run(w, steps).store)
  {
    hide StoreOk;
    assert WorldOk(w);
    RunKept(w, steps);
  }

  // ----- Safety of the stored data -----

  /** No stored article ever names a body that is not in the body store. */
  lemma BodiesNeverDangle(w: World, steps: seq<Step>)
    requires Init(w) && Possible(w, steps)
    ensures var s := Run(w, steps).store; NoDanglingBodies(s.rows, s.blobs)
  {
    RunInvariant(w, steps);
    hide WorldOk;
    assert BodiesOk(Run(w, steps).store);
  }

  lemma SlugsDisjoint(rows: map<Key, Row>, slugs: map<Slug, SlugRow>, k: Key, k': Key, x: Slug)
    requires KeysOk(rows) && SlugsPresent(rows, slugs)
    requires k in rows && k' in rows && Reserves(rows[k].article, x) && Reserves(rows[k'].article, x)
    ensures k == k'
  {
    assert slugs[x].record == RecordFor(rows[k].article, x) && slugs[x].record == RecordFor(rows[k'].article, x);
  }

  /** The slug rows are always exactly the records of the stored articles, and no two articles share a slug. */
  lemma SlugIndexAlwaysExact(w: World, steps: seq<Step>)
    requires Init(w) && Possible(w, steps)
    ensures var s := Run(w, steps).store;
            && SlugIndexExact(s.rows, s.slugs)
            && (forall k, k', x | k in s.rows && k' in s.rows &&
                                  Reserves(s.rows[k].article, x) && Reserves(s.rows[k'].article, x) :: k == k')
  {
    hide WorldOk;
    hide StoreOk;
    hide Init;
    RunInvariant(w, steps);
    var s := Run(w, steps).store;
    StoreParts(s);
    hide SlugIndexExact;
    hide LogOk;
    hide RetiredOk;
    forall k, k', x | k in s.rows && k' in s.rows && Reserves(s.rows[k].article, x) && Reserves(s.rows[k'].article, x)
      ensures k == k'
    {
      hide SlugsPresent;
      hide KeysOk;
      SlugsDisjoint(s.rows, s.slugs, k, k', x);
    }
  }

  ghost predicate PublicGrows(s: Store, s': Store) {
    forall x | x in s.everPublic :: x in s'.everPublic && s'.everPublic[x] == s.everPublic[x]
  }

  /** A slug that is public for another article cannot become public for this one. */
  lemma CommitPublicGrows(s: Store, c: Client)
    requires StoreOk(s) && Committing(s, c)
    ensures PublicGrows(s, Applied(s, c))
  {
    hide StoreOk;
    hide Committing;
    hide Evolves;
    hide KeysOk;
    hide SlugsPresent;
    hide SlugIndexExact;
    hide RetiredOk;
    hide LogOk;
    hide PublicOk;
    hide Replaces;
    hide NewRow;
    hide PublicOf;
    AppliedPublic(s, c);
    CommittingStore(s, c);
    StoreParts(s);
    StoreParts(Applied(s, c));
    StorePublic(s);
    CommittingReplaces(s, c);
    var row := NewRow(c, s.next);
    var s' := Applied(s, c);
    hide Applied;
    forall x | x in s.everPublic ensures x in s'.everPublic && s'.everPublic[x] == s.everPublic[x] {
      if x in PublicOf(row.article) {
        SamePublisher(s, s', Gone(c), row, x);
      }
    }
  }

  lemma StorePublic(s: Store)
    requires StoreOk(s)
    ensures PublicOk(s)
  {
    hide KeysOk;
    hide RowsStorable;
    hide SlugIndexExact;
    hide BodiesOk;
    hide RetiredOk;
    hide LogOk;
    hide PublicOk;
  }

  lemma AppliedPublic(s: Store, c: Client)
    requires Committing(s, c)
    ensures c.op.desired.Some? && c.phase.Slugs?
    ensures NewRow(c, s.next).article == c.op.desired.value
    ensures Applied(s, c).everPublic == s.everPublic + PublicOf(c.op.desired.value)
    ensures forall x | x in PublicOf(c.op.desired.value) :: PublicOf(c.op.desired.value)[x] == c.op.desired.value.id
  {
    hide ClientOk;
    hide OwnOk;
    hide IdReserved;
    hide BatchFits;
  }

  lemma SamePublisher(s: Store, s': Store, gone: Key, row: Row, x: Slug)
    requires PublicOk(s) && Replaces(s, s', gone, row) && KeysOk(s'.rows) && SlugsPresent(s'.rows, s'.slugs)
    requires x in s.everPublic && x in PublicOf(row.article)
    ensures s.everPublic[x] == row.article.id
  {
    assert PublicBy(s.rows, x, s.everPublic[x]);
    var k :| k in s.rows && k.id == s.everPublic[x] && PublicSlug(s.rows[k].article, x);
    if k != gone {
      assert k in s'.rows && Reserves(s'.rows[k].article, x) && Reserves(s'.rows[row.key].article, x);
      SlugsDisjoint(s'.rows, s'.slugs, k, row.key, x);
    }
  }

  /** The stored articles, slugs and their history are left alone. */
  ghost predicate SameTable(s: Store, s': Store) {
    && s'.rows == s.rows && s'.slugs == s.slugs && s'.log == s.log && s'.everPublic == s.everPublic
    && s'.retired == s.retired && s.clock <= s'.clock && (s'.monotone ==> s.monotone)
  }

  lemma ReadOnlySameTable(w: World, step: Step)
    requires Enabled(w, step) && IsReadOnly(step)
    ensures SameTable(w.store, Next(w, step).store)
  {
    hide Enabled;
    hide Next;
    hide ReadOnly;
    NextReadOnly(w, step);
  }

  lemma CommitNext(w: World, step: Step)
    requires Enabled(w, step) && step.Commit?
    ensures step.applies ==> SameTable(Applied(w.store, w.clients[step.client]), Next(w, step).store)
    ensures !step.applies ==> SameTable(w.store, Next(w, step).store)
  {
    hide Applied;
    hide BatchFits;
    hide AfterCommit;
  }

  lemma UploadSameTable(w: World, step: Step)
    requires Enabled(w, step) && step.Upload?
    ensures SameTable(w.store, Next(w, step).store)
  {
    hide UploadStep;
    UploadStepSameTable(w, step);
    assert Next(w, step) == UploadStep(w, step);
  }

  lemma ClosedSameTable(s: Store, now: Time)
    ensures forall c {:trigger Abandon(ReadClock(s, now), c)} :: SameTable(s, Abandon(ReadClock(s, now), c))
  {
  }

  lemma UploadStepSameTable(w: World, step: Step)
    requires Enabled(w, step) && step.Upload? && step.client in w.clients
    ensures SameTable(w.store, UploadStep(w, step).store)
  {
    hide AfterPut;
    hide Enabled;
    hide Abandon;
    hide ReadClock;
    var ref := step.newRef;
    ClosedSameTable(w.store.(issued := w.store.issued[ref.blobName := (IdOf(w.clients[step.client]), ref)],
                             blobs := if step.applies then w.store.blobs + {ref.blobName} else w.store.blobs), step.now);
  }

  lemma OtherSameTable(w: World, step: Step)
    requires Enabled(w, step) && (step.Start? || step.DeleteBody?)
    ensures SameTable(w.store, Next(w, step).store)
  {
  }

  lemma StepPublicGrows(w: World, step: Step)
    requires WorldOk(w) && Enabled(w, step)
    ensures PublicGrows(w.store, Next(w, step).store)
  {
    hide WorldOk;
    if step.Commit? {
      CommitNext(w, step);
      if step.applies {
        CommitStepCommits(w, step);
        hide Next;
        hide Enabled;
        hide Committing;
        CommitPublicGrows(w.store, w.clients[step.client]);
      }
    } else if IsReadOnly(step) {
      ReadOnlySameTable(w, step);
      hide Next;
    } else if step.Upload? {
      UploadSameTable(w, step);
      hide Next;
    } else {
      assert step.Start? || step.DeleteBody? || step.Migrate?;
    }
  }

  lemma CommitStepCommits(w: World, step: Step)
    requires WorldOk(w) && Enabled(w, step) && step.Commit? && step.applies
    ensures StoreOk(w.store) && Committing(w.store, w.clients[step.client])
  {
    hide WorldOk;
    hide StoreOk;
    hide ClientOk;
    hide OwnOk;
    hide IdReserved;
    hide BatchFits;
    WorldClient(w, step.client);
  }

  lemma {:induction false} RunPublicGrows(w: World, steps: seq<Step>)
    requires WorldOk(w) && Possible(w, steps)
    ensures PublicGrows(w.store, Run(w, steps).store)
    decreases |steps|
  {
    hide WorldOk;
    hide Enabled;
    hide Next;
    if steps != [] {
      StepKept(w, steps[0]);
      StepPublicGrows(w, steps[0]);
      RunPublicGrows(Next(w, steps[0]), steps[1..]);
    }
  }

  /** The article that has the slug among its public slugs is the recorded owner. */
  lemma PublicOwner(s: Store, k: Key, x: Slug)
    requires StoreOk(s) && k in s.rows && PublicSlug(s.rows[k].article, x)
    ensures x in s.everPublic && s.everPublic[x] == k.id
  {
    StoreParts(s);
    assert PublicOk(s);
    hide StoreOk;
    hide SlugIndexExact;
    hide LogOk;
    hide RetiredOk;
    assert PublicBy(s.rows, x, s.everPublic[x]);
    var k0 :| k0 in s.rows && k0.id == s.everPublic[x] && PublicSlug(s.rows[k0].article, x);
    SlugsDisjoint(s.rows, s.slugs, k, k0, x);
  }

  /** The slug is public for the article with this ID, its row points at that article's canonical slug, and no other article has it. */
  ghost predicate OwnedPublicly(s: Store, x: Slug, id: Id) {
    exists k :: k in s.rows && k.id == id && PublicSlug(s.rows[k].article, x)
      && x in s.slugs && s.slugs[x].record == SlugRecord(x, id, Canonical(s.rows[k].article))
      && forall k' | k' in s.rows && Reserves(s.rows[k'].article, x) :: k' == k
  }

  lemma RecordedOwner(s: Store, x: Slug)
    requires StoreOk(s) && x in s.everPublic
    ensures OwnedPublicly(s, x, s.everPublic[x])
  {
    hide StoreOk;
    hide SlugIndexExact;
    hide LogOk;
    hide RetiredOk;
    hide KeysOk;
    hide SlugsPresent;
    StoreParts(s);
    StorePublic(s);
    assert PublicBy(s.rows, x, s.everPublic[x]);
    hide PublicOk;
    var k :| k in s.rows && k.id == s.everPublic[x] && PublicSlug(s.rows[k].article, x);
    PublicRecord(s, k, x);
    forall k' | k' in s.rows && Reserves(s.rows[k'].article, x) ensures k' == k {
      SlugsDisjoint(s.rows, s.slugs, k, k', x);
    }
  }

  lemma PublicRecord(s: Store, k: Key, x: Slug)
    requires KeysOk(s.rows) && SlugsPresent(s.rows, s.slugs) && k in s.rows && PublicSlug(s.rows[k].article, x)
    ensures x in s.slugs && s.slugs[x].record == SlugRecord(x, k.id, Canonical(s.rows[k].article))
  {
    assert Reserves(s.rows[k].article, x);
  }

  /**
    Published slugs are permanent: once a slug is the canonical or a historical
    slug of an article, it is so at every later moment, its row targets the
    article's canonical slug of that moment, and no other article has it.
   */
  lemma PublishedSlugsArePermanent(w: World, steps: seq<Step>, n: nat, k: Key, x: Slug)
    requires Init(w) && Possible(w, steps) && n <= |steps| && Possible(w, steps[..n])
    requires var s := Run(w, steps[..n]).store; k in s.rows && PublicSlug(s.rows[k].article, x)
    ensures OwnedPublicly(Run(w, steps).store, x, k.id)
  {
    hide WorldOk;
    hide StoreOk;
    hide Init;
    hide OwnedPublicly;
    RunSplit(w, steps, n);
    RunInvariant(w, steps[..n]);
    RunInvariant(w, steps);
    var mid := Run(w, steps[..n]);
    PublicOwner(mid.store, k, x);
    RunPublicGrows(mid, steps[n..]);
    RecordedOwner(Run(w, steps).store, x);
  }

  // ----- Legacy rows -----

  /** No operation adds a row in the old layout: what is there at the end was there at the start. */
  lemma StepAddsNoLegacy(w: World, step: Step)
    requires WorldOk(w) && Enabled(w, step)
    ensures forall id | LegacyKey(id) in Next(w, step).store.rows :: LegacyKey(id) in w.store.rows
  {
    hide WorldOk;
    if step.Commit? {
      CommitNext(w, step);
      if step.applies {
        CommitAddsNoLegacy(w.store, w.clients[step.client]);
      }
      hide Next;
      hide Applied;
    } else if IsReadOnly(step) {
      ReadOnlySameTable(w, step);
      hide Next;
    } else if step.Upload? {
      UploadSameTable(w, step);
      hide Next;
    } else {
      assert step.Start? || step.DeleteBody? || step.Migrate?;
    }
  }

  lemma CommitAddsNoLegacy(s: Store, c: Client)
    requires c.op.desired.Some? && c.phase.Slugs? && BatchFits(s, c)
    ensures forall id | LegacyKey(id) in Applied(s, c).rows :: LegacyKey(id) in s.rows
  {
    hide PlanFits;
  }

  lemma {:induction false} LegacyRowsOnlyShrink(w: World, steps: seq<Step>)
    requires WorldOk(w) && Possible(w, steps)
    ensures forall id | LegacyKey(id) in Run(w, steps).store.rows :: LegacyKey(id) in w.store.rows
    decreases |steps|
  {
    hide WorldOk;
    hide Enabled;
    hide Next;
    if steps != [] {
      StepKept(w, steps[0]);
      StepAddsNoLegacy(w, steps[0]);
      LegacyRowsOnlyShrink(Next(w, steps[0]), steps[1..]);
    }
  }
}
