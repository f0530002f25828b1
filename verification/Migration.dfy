/**
  Moving article rows from the first layout to the current keys, with failures
  at any call and with other writers at work. internal/storage/azure/migration.go.
 */
module Migration {
  import opened Outcomes
  import opened ArticleModel
  import opened ArticleTable
  import opened RowKeys

  datatype Entity = Entity(article: Article, etag: ETag)

  datatype Marker = NoMarker | Complete | Foreign

  datatype Table = Table(rows: map<Key, Entity>, next: ETag, marker: Marker)

  ghost predicate Valid(t: Table) {
    forall k | k in t.rows :: Storable(t.rows[k].article) && KeyFits(k, t.rows[k].article) && t.rows[k].etag < t.next
  }

  function LegacyKeys(t: Table): set<Key> {
    set k | k in t.rows && k.LegacyKey?
  }

  ghost predicate HasArticle(t: Table, id: Id) {
    exists k :: k in t.rows && k.id == id
  }

  /** Two rows of one article hold the same state. */
  ghost predicate Agree(t: Table) {
    forall k, k' | k in t.rows && k' in t.rows && k.id == k'.id :: t.rows[k].article == t.rows[k'].article
  }

  // ----- The driver -----

  /**
    A call may be refused for good, or fail before or after its effect without
    saying which; a read that fails tells nothing.
   */
  datatype Fault = NoFault | Refused | FailsBefore | FailsAfter

  predicate TakesEffect(f: Fault) { f.NoFault? || f.FailsAfter? }

  /**
    The environment of the migration. others(n, t) is what other writers made of
    the table before call n; faults(n) is what happens at call n; list(n, t,
    from, last) is the physical page that call n returns, with the key where the
    next page begins; pages(p) is the number of physical pages of pass p.
   */
  datatype Driver = Driver(
    others: (nat, Table) -> Table, faults: nat -> Fault,
    list: (nat, Table, string, bool) -> (seq<Key>, string), pages: nat -> nat)

  /** The text of a row key. */
  function KeyText(k: Key): string {
    match k
    case CurrentKey(id, t) => if Bytes(id) && KeyTime(t) then ArticleKey(id, t) else ""
    case LegacyKey(id) => id
  }

  /** A page holds exactly the rows from one key up to another, or to the end. */
  ghost predicate PageOk(t: Table, from: string, last: bool, keys: seq<Key>, next: string) {
    && (forall i, j | 0 <= i < j < |keys| :: keys[i] != keys[j])
    && forall k :: k in keys <==> k in t.rows && !Less(KeyText(k), from) && (last || Less(KeyText(k), next))
  }

  /** The marker is set once no legacy row is left, and stays. */
  ghost predicate MarkerOnward(t: Table, t': Table) {
    t'.marker == t.marker || (t.marker.NoMarker? && t'.marker.Complete? && LegacyKeys(t') == {})
  }

  /**
    What happens whoever is at work, writers in compatibility mode and other
    migrations included: no legacy row is added or changed, no article and no
    current row goes away.
   */
  ghost predicate Onward(t: Table, t': Table) {
    && Valid(t') && t.next <= t'.next && MarkerOnward(t, t')
    && (forall k | k in t'.rows && k.LegacyKey? :: k in t.rows && t'.rows[k] == t.rows[k])
    && (forall k | k in t.rows && k.CurrentKey? :: k in t'.rows)
    && (forall k | k in t.rows :: HasArticle(t', k.id))
  }

  ghost predicate DriverOk(d: Driver) {
    && (forall n, t | Valid(t) :: Onward(t, d.others(n, t)))
    && (forall n, t, from, last :: PageOk(t, from, last, d.list(n, t, from, last).0, d.list(n, t, from, last).1))
  }

  /** No other writer is at work. */
  ghost predicate Quiet(d: Driver) {
    forall n, t :: d.others(n, t) == t
  }

  /** No call fails. */
  ghost predicate Faultless(d: Driver) {
    forall n :: d.faults(n).NoFault?
  }

  /** No continuation leads back to where its page began. */
  ghost predicate Advancing(d: Driver) {
    forall n, t, from :: d.list(n, t, from, false).1 != from
  }

  // ----- What a migration may have done at any moment -----

  lemma OnwardTrans(t: Table, t': Table, t'': Table)
    requires Onward(t, t') && Onward(t', t'')
    ensures Onward(t, t'')
  {
    assert LegacyKeys(t'') <= LegacyKeys(t');
    forall k | k in t.rows ensures HasArticle(t'', k.id) {
      assert HasArticle(t', k.id);
      var k' :| k' in t'.rows && k'.id == k.id;
      assert HasArticle(t'', k'.id);
    }
  }

  /** What a reader in compatibility mode finds under an ID. */
  ghost predicate Shows(t: Table, id: Id, a: Article) {
    exists k :: k in t.rows && k.id == id && t.rows[k].article == a
  }

  /** Alone: the same articles are found, and a removed legacy row has an equal current row. */
  ghost predicate SameView(t: Table, t': Table) {
    && (forall id, a :: Shows(t', id, a) <==> Shows(t, id, a))
    && (forall k | k in t.rows && k.LegacyKey? && k !in t'.rows ::
          CurrentKeyOf(t.rows[k].article) in t'.rows &&
          t'.rows[CurrentKeyOf(t.rows[k].article)].article == t.rows[k].article)
    && (forall k | k in t.rows && k.CurrentKey? :: k in t'.rows && t'.rows[k] == t.rows[k])
  }

  lemma SameViewTrans(t: Table, t': Table, t'': Table)
    requires SameView(t, t') && SameView(t', t'') && Onward(t, t')
    ensures SameView(t, t'')
  {
    hide Shows;
    hide Valid;
  }

  lemma SameViewAgree(t: Table, t': Table)
    requires Agree(t) && SameView(t, t')
    ensures Agree(t')
  {
    forall k, k' | k in t'.rows && k' in t'.rows && k.id == k'.id ensures t'.rows[k].article == t'.rows[k'].article {
      assert Shows(t', k.id, t'.rows[k].article) && Shows(t', k.id, t'.rows[k'].article);
      assert Shows(t, k.id, t'.rows[k].article) && Shows(t, k.id, t'.rows[k'].article);
    }
  }

  /** Once no legacy row is left, the rows are determined by what a reader finds. */
  lemma FinalDetermined(t: Table, t': Table)
    requires Valid(t) && Valid(t') && LegacyKeys(t) == {} && LegacyKeys(t') == {}
    requires forall id, a :: Shows(t', id, a) <==> Shows(t, id, a)
    ensures t.rows.Keys == t'.rows.Keys
    ensures forall k | k in t.rows :: t'.rows[k].article == t.rows[k].article
  {
    forall k | k in t.rows ensures k in t'.rows && t'.rows[k].article == t.rows[k].article {
      FinalHas(t, t', k);
    }
    forall k | k in t'.rows ensures k in t.rows {
      FinalHas(t', t, k);
    }
  }

  lemma FinalHas(t: Table, t': Table, k: Key)
    requires Valid(t) && Valid(t') && LegacyKeys(t) == {} && LegacyKeys(t') == {}
    requires forall id, a :: Shows(t, id, a) ==> Shows(t', id, a)
    requires k in t.rows
    ensures k in t'.rows && t'.rows[k].article == t.rows[k].article
  {
    var a := t.rows[k].article;
    assert k !in LegacyKeys(t);
    assert Shows(t, k.id, a);
    var k' :| k' in t'.rows && k'.id == k.id && t'.rows[k'].article == a;
    assert k' !in LegacyKeys(t');
  }

  // ----- The driver's mutations -----

  /** The batch that adds the current row and deletes the legacy row with this ETag. */
  predicate MoveFits(t: Table, legacy: Key, target: Key, etag: ETag) {
    legacy in t.rows && t.rows[legacy].etag == etag && target !in t.rows
  }

  function Moved(t: Table, legacy: Key, target: Key, a: Article): Table {
    t.(rows := (t.rows - {legacy})[target := Entity(a, t.next)], next := t.next + 1)
  }

  function Dropped(t: Table, legacy: Key): Table {
    t.(rows := t.rows - {legacy})
  }

  /** The parts of Valid that matter: rows sit at a fitting key. */
  lemma KeysFit(t: Table)
    requires Valid(t)
    ensures forall k | k in t.rows :: KeyFits(k, t.rows[k].article)
  {
    hide ArticleTable.Storable;
  }

  lemma MoveOnward(t: Table, legacy: Key, a: Article, etag: ETag)
    requires Valid(t) && legacy.LegacyKey? && MoveFits(t, legacy, CurrentKeyOf(a), etag) && t.rows[legacy].article == a
    ensures Onward(t, Moved(t, legacy, CurrentKeyOf(a), a))
    ensures LegacyKeys(Moved(t, legacy, CurrentKeyOf(a), a)) == LegacyKeys(t) - {legacy}
  {
    hide ArticleTable.Storable;
    var target := CurrentKeyOf(a);
    var t' := Moved(t, legacy, target, a);
    assert target.id == legacy.id;
    forall k | k in t.rows ensures HasArticle(t', k.id) {
      var k' := if k == legacy then target else k;
      assert k' in t'.rows && k'.id == k.id;
    }
  }

  /** The same article under another key of its ID. */
  lemma ShowsMoved(t: Table, t': Table, from: Key, to: Key, id: Id, a: Article)
    requires Shows(t, id, a) && from.id == to.id
    requires from in t.rows ==> to in t'.rows && t'.rows[to].article == t.rows[from].article
    requires forall k | k in t.rows && k != from :: k in t'.rows && t'.rows[k] == t.rows[k]
    ensures Shows(t', id, a)
  {
    var k :| k in t.rows && k.id == id && t.rows[k].article == a;
    var k' := if k == from then to else k;
    assert k' in t'.rows && k'.id == id && t'.rows[k'].article == a;
  }

  lemma MoveShows(t: Table, legacy: Key, a: Article, id: Id, b: Article)
    requires legacy in t.rows && legacy.id == a.id && t.rows[legacy].article == a && CurrentKeyOf(a) !in t.rows && legacy.LegacyKey?
    ensures Shows(Moved(t, legacy, CurrentKeyOf(a), a), id, b) <==> Shows(t, id, b)
  {
    hide Shows;
    var t' := Moved(t, legacy, CurrentKeyOf(a), a);
    if Shows(t, id, b) {
      ShowsMoved(t, t', legacy, CurrentKeyOf(a), id, b);
    }
    if Shows(t', id, b) {
      ShowsMoved(t', t, CurrentKeyOf(a), legacy, id, b);
    }
  }

  lemma MoveSameView(t: Table, legacy: Key, a: Article, etag: ETag)
    requires Valid(t) && legacy.LegacyKey? && MoveFits(t, legacy, CurrentKeyOf(a), etag) && t.rows[legacy].article == a
    ensures SameView(t, Moved(t, legacy, CurrentKeyOf(a), a))
  {
    hide Valid;
    hide Shows;
    KeysFit(t);
    forall id, b ensures Shows(Moved(t, legacy, CurrentKeyOf(a), a), id, b) <==> Shows(t, id, b) {
      MoveShows(t, legacy, a, id, b);
    }
  }

  lemma DropOnward(t: Table, legacy: Key)
    requires Valid(t) && legacy in t.rows && legacy.LegacyKey? && CurrentKeyOf(t.rows[legacy].article) in t.rows
    ensures Onward(t, Dropped(t, legacy)) && LegacyKeys(Dropped(t, legacy)) == LegacyKeys(t) - {legacy}
  {
    hide ArticleTable.Storable;
    var t' := Dropped(t, legacy);
    forall k | k in t.rows ensures HasArticle(t', k.id) {
      var k' := if k == legacy then CurrentKeyOf(t.rows[legacy].article) else k;
      assert k' in t'.rows && k'.id == k.id;
    }
  }

  lemma DropShows(t: Table, legacy: Key, target: Key, id: Id, b: Article)
    requires legacy in t.rows && target in t.rows && target != legacy && target.id == legacy.id
    requires t.rows[target].article == t.rows[legacy].article
    ensures Shows(Dropped(t, legacy), id, b) <==> Shows(t, id, b)
  {
    hide Shows;
    var t' := Dropped(t, legacy);
    if Shows(t, id, b) {
      ShowsMoved(t, t', legacy, target, id, b);
    }
    if Shows(t', id, b) {
      ShowsMoved(t', t, legacy, legacy, id, b);
    }
  }

  lemma DropSameView(t: Table, legacy: Key)
    requires Valid(t) && legacy in t.rows && legacy.LegacyKey? && CurrentKeyOf(t.rows[legacy].article) in t.rows
    requires t.rows[CurrentKeyOf(t.rows[legacy].article)].article == t.rows[legacy].article
    ensures SameView(t, Dropped(t, legacy))
  {
    hide Valid;
    hide Shows;
    KeysFit(t);
    forall id, b ensures Shows(Dropped(t, legacy), id, b) <==> Shows(t, id, b) {
      DropShows(t, legacy, CurrentKeyOf(t.rows[legacy].article), id, b);
    }
  }

  // ----- Calls -----

  /** What holds between the start of a stretch of calls and any later moment of it. */
  ghost predicate Keeps(d: Driver, t: Table, t': Table) {
    Onward(t, t') && (Quiet(d) ==> SameView(t, t'))
  }

  lemma KeepsTrans(d: Driver, t: Table, t': Table, t'': Table)
    requires Keeps(d, t, t') && Keeps(d, t', t'')
    ensures Keeps(d, t, t'')
  {
    OnwardTrans(t, t', t'');
    if Quiet(d) {
      SameViewTrans(t, t', t'');
    }
  }

  lemma OthersKeep(d: Driver, n: nat, t: Table)
    requires DriverOk(d) && Valid(t)
    ensures Keeps(d, t, d.others(n, t)) && (Quiet(d) ==> d.others(n, t) == t)
  {
    assert Onward(t, d.others(n, t));
    hide Onward;
    hide Valid;
    hide Shows;
  }

  lemma KeepsLegacy(d: Driver, t: Table, t': Table, k: Key)
    requires Keeps(d, t, t') && k.LegacyKey? && k in t'.rows
    ensures k in t.rows && t'.rows[k] == t.rows[k]
  {
    hide Valid;
    hide SameView;
  }

  datatype Answer = ReadFailed | Absent | Found(entity: Entity)

  /** table.Get */
  method Read(d: Driver, n: nat, t0: Table, key: Key) returns (t: Table, answer: Answer)
    requires DriverOk(d) && Valid(t0)
    ensures t == d.others(n, t0) && (Quiet(d) ==> t == t0)
    ensures Keeps(d, t0, t)
    ensures answer.ReadFailed? <==> !d.faults(n).NoFault?
    ensures answer.Absent? ==> key !in t.rows
    ensures answer.Found? ==> key in t.rows && t.rows[key] == answer.entity
  {
    OthersKeep(d, n, t0);
    hide Keeps;
    t := d.others(n, t0);
    answer := if !d.faults(n).NoFault? then ReadFailed else if key in t.rows then Found(t.rows[key]) else Absent;
  }

  /** The article is already under its current key. */
  ghost predicate Taken(t: Table, a: Article) {
    CurrentKeyOf(a) in t.rows && t.rows[CurrentKeyOf(a)].article == a
  }

  /** The reads among the calls of a reconciliation that begins with call n; call n + 3 is the deletion. */
  ghost predicate CanRead(d: Driver, n: nat) {
    d.faults(n).NoFault? && d.faults(n + 1).NoFault? && d.faults(n + 2).NoFault? && d.faults(n + 4).NoFault?
  }

  /** Alone, the removal of a legacy row beside an equal current row, from call n on, is known to have succeeded. */
  ghost predicate Finishes(d: Driver, n: nat) {
    d.faults(n).NoFault? && (d.faults(n + 1).NoFault? || (d.faults(n + 1).FailsAfter? && d.faults(n + 2).NoFault?))
  }

  /** Alone, the reads from call n on find the article moved, or finish the move. */
  ghost predicate Reconciles(d: Driver, n: nat, t: Table, legacy: Key, a: Article) {
    d.faults(n).NoFault? && d.faults(n + 1).NoFault? && Taken(t, a) && (legacy !in t.rows || Finishes(d, n + 2))
  }

  /** The row has been moved: the legacy row is gone, and the article is under its current key. */
  ghost predicate HasMoved(t: Table, legacy: Key, a: Article) {
    legacy !in t.rows && Taken(t, a)
  }

  /** migrateLegacyArticleRow, for the entity that the scan found at the legacy key. */
  method MigrateRow(d: Driver, n0: nat, t0: Table, legacy: Key, e: Entity) returns (t: Table, n: nat, ok: bool)
    requires DriverOk(d) && Valid(t0) && legacy.LegacyKey? && e.article.id == legacy.id
    requires legacy in t0.rows ==> t0.rows[legacy] == e
    ensures Keeps(d, t0, t)
    ensures ok ==> legacy !in t.rows
    ensures Quiet(d) ==> LegacyKeys(t0) - {legacy} <= LegacyKeys(t) && t.marker == t0.marker
    ensures Quiet(d) && Faultless(d) ==>
              (ok <==> if CurrentKeyOf(e.article) in t0.rows then Taken(t0, e.article) else legacy in t0.rows)
    ensures Quiet(d) && CanRead(d, n0 + 1) ==> (ok <==> HasMoved(t, legacy, e.article))
    ensures Quiet(d) && MoveFits(t0, legacy, CurrentKeyOf(e.article), e.etag) ==>
              (ok <==> d.faults(n0).NoFault? || (d.faults(n0).FailsAfter? && d.faults(n0 + 1).NoFault? && d.faults(n0 + 2).NoFault?))
    ensures Quiet(d) && !MoveFits(t0, legacy, CurrentKeyOf(e.article), e.etag) ==>
              (ok <==> Reconciles(d, n0 + 1, t0, legacy, e.article))
  {
    hide Keeps;
    hide Valid;
    var target := CurrentKeyOf(e.article);
    OthersKeep(d, n0, t0);
    t := d.others(n0, t0);
    KeepsValid(d, t0, t);
    n := n0 + 1;
    var fits := MoveFits(t, legacy, target, e.etag);
    if fits && TakesEffect(d.faults(n0)) {
      MoveKeeps(d, t0, t, legacy, e);
      t := Moved(t, legacy, target, e.article);
      KeepsValid(d, t0, t);
    }
    if fits && d.faults(n0).NoFault? {
      return t, n, true;
    }
    ghost var t1 := t;
    t, n, ok := Reconcile(d, n, t, legacy, e);
    KeepsTrans(d, t0, t1, t);
  }

  lemma MoveKeeps(d: Driver, t0: Table, t: Table, legacy: Key, e: Entity)
    requires Keeps(d, t0, t) && legacy.LegacyKey? && e.article.id == legacy.id
    requires legacy in t0.rows ==> t0.rows[legacy] == e
    requires MoveFits(t, legacy, CurrentKeyOf(e.article), e.etag)
    ensures var t' := Moved(t, legacy, CurrentKeyOf(e.article), e.article);
            Keeps(d, t0, t') && t'.marker == t.marker && legacy !in t'.rows
  {
    var t' := Moved(t, legacy, CurrentKeyOf(e.article), e.article);
    KeepsLegacy(d, t0, t, legacy);
    OnwardValid(t0, t);
    MoveOnward(t, legacy, e.article, e.etag);
    MoveSameView(t, legacy, e.article, e.etag);
    hide Onward;
    hide SameView;
    assert Keeps(d, t, t');
    KeepsTrans(d, t0, t, t');
  }

  lemma OnwardValid(t: Table, t': Table)
    requires Onward(t, t')
    ensures Valid(t')
  {
    hide Valid;
  }

  /** reconcileLegacyArticleMigration */
  method Reconcile(d: Driver, n0: nat, t0: Table, legacy: Key, e: Entity) returns (t: Table, n: nat, ok: bool)
    requires DriverOk(d) && Valid(t0) && legacy.LegacyKey? && e.article.id == legacy.id
    requires legacy in t0.rows ==> t0.rows[legacy] == e
    ensures Keeps(d, t0, t)
    ensures ok ==> legacy !in t.rows
    ensures Quiet(d) ==> LegacyKeys(t0) - {legacy} <= LegacyKeys(t) && t.marker == t0.marker
    ensures Quiet(d) && Faultless(d) ==> (ok <==> Taken(t0, e.article))
    ensures Quiet(d) && CanRead(d, n0) ==> (ok <==> HasMoved(t, legacy, e.article))
    ensures Quiet(d) ==> (ok <==> Reconciles(d, n0, t0, legacy, e.article))
  {
    hide Keeps;
    hide Valid;
    var target := CurrentKeyOf(e.article);
    n := n0;
    ok := false;
    var legacyRow, targetRow: Answer;
    t, legacyRow := Read(d, n, t0, legacy);
    ghost var t1 := t;
    KeepsValid(d, t0, t1);
    t, targetRow := Read(d, n + 1, t, target);
    ghost var t2 := t;
    KeepsValid(d, t1, t2);
    KeepsTrans(d, t0, t1, t2);
    n := n + 2;
    if legacyRow.ReadFailed? || targetRow.ReadFailed? {
      return;
    }
    if targetRow.Found? && targetRow.entity.article != e.article {
      return;
    }
    if legacyRow.Found? && legacyRow.entity.article != e.article {
      return;
    }
    if targetRow.Found? && legacyRow.Absent? {
      StaysGone(d, t1, t2, legacy);
      ok := true;
      return;
    }
    if targetRow.Found? && legacyRow.Found? {
      t, n, ok := FinishMove(d, n, t, legacy, target, e.article, t1);
      KeepsTrans(d, t0, t2, t);
    }
  }

  lemma KeepsValid(d: Driver, t: Table, t': Table)
    requires Keeps(d, t, t')
    ensures Valid(t')
  {
    hide SameView;
    OnwardValid(t, t');
    hide Onward;
  }

  lemma StaysGone(d: Driver, t: Table, t': Table, k: Key)
    requires Keeps(d, t, t') && k.LegacyKey? && k !in t.rows
    ensures k !in t'.rows
  {
    hide Valid;
    hide SameView;
  }

  /** The end of the reconciliation: both rows were there, with the same state. */
  method FinishMove(d: Driver, n0: nat, t0: Table, legacy: Key, target: Key, a: Article, ghost t1: Table)
    returns (t: Table, n: nat, ok: bool)
    requires DriverOk(d) && Valid(t0) && legacy.LegacyKey? && target == CurrentKeyOf(a)
    requires Keeps(d, t1, t0) && legacy in t1.rows && t1.rows[legacy].article == a
    requires target in t0.rows && t0.rows[target].article == a
    ensures Keeps(d, t0, t)
    ensures ok ==> legacy !in t.rows
    ensures Quiet(d) ==> LegacyKeys(t0) - {legacy} <= LegacyKeys(t) && t.marker == t0.marker
    ensures Quiet(d) && Faultless(d) ==> ok
    ensures Quiet(d) && d.faults(n0).NoFault? && d.faults(n0 + 2).NoFault? ==> (ok <==> HasMoved(t, legacy, a))
    ensures Quiet(d) && legacy in t0.rows ==> (ok <==> Finishes(d, n0))
  {
    hide Keeps;
    hide Valid;
    n, ok := n0, false;
    var legacyRow: Answer;
    t, legacyRow := Read(d, n, t0, legacy);
    n := n + 1;
    if !legacyRow.Found? {
      return t, n, legacyRow.Absent?;
    }
    ghost var t2 := t;
    KeepsValid(d, t0, t2);
    OthersKeep(d, n, t2);
    t := d.others(n, t);
    KeepsTrans(d, t0, t2, t);
    KeepsValid(d, t2, t);
    var fits := legacy in t.rows && t.rows[legacy].etag == legacyRow.entity.etag;
    if fits && TakesEffect(d.faults(n)) {
      KeepsTrans(d, t1, t0, t);
      DropKeeps(d, t1, t0, t, legacy, a);
      t := Dropped(t, legacy);
    }
    if fits && d.faults(n).NoFault? {
      return t, n + 1, true;
    }
    n := n + 1;
    var gone: Answer;
    ghost var t3 := t;
    KeepsValid(d, t0, t3);
    t, gone := Read(d, n, t, legacy);
    KeepsTrans(d, t0, t3, t);
    return t, n + 1, gone.Absent?;
  }

  lemma DropKeeps(d: Driver, t1: Table, t0: Table, t: Table, legacy: Key, a: Article)
    requires Keeps(d, t1, t) && Keeps(d, t0, t) && Valid(t)
    requires legacy in t1.rows && t1.rows[legacy].article == a && CurrentKeyOf(a) in t0.rows && t0.rows[CurrentKeyOf(a)].article == a
    requires legacy in t.rows && legacy.LegacyKey?
    ensures Keeps(d, t0, Dropped(t, legacy)) && legacy !in Dropped(t, legacy).rows
  {
    var t' := Dropped(t, legacy);
    KeepsLegacy(d, t1, t, legacy);
    KeepsCurrent(d, t0, t, CurrentKeyOf(a));
    hide Valid;
    DropOnward(t, legacy);
    if Quiet(d) {
      DropSameView(t, legacy);
    }
    hide Onward;
    hide SameView;
    assert Keeps(d, t, t');
    KeepsTrans(d, t0, t, t');
  }

  lemma KeepsCurrent(d: Driver, t: Table, t': Table, k: Key)
    requires Keeps(d, t, t') && k.CurrentKey? && k in t.rows
    ensures k in t'.rows && (Quiet(d) ==> t'.rows[k] == t.rows[k])
  {
    hide Valid;
    hide Shows;
  }

  // ----- What can be migrated -----

  /** No legacy row whose current key holds another state. */
  ghost predicate Mergeable(t: Table) {
    forall k | k in LegacyKeys(t) && CurrentKeyOf(t.rows[k].article) in t.rows :: Taken(t, t.rows[k].article)
  }

  lemma AgreeMergeable(t: Table)
    requires Valid(t) && Agree(t)
    ensures Mergeable(t)
  {
    KeysFit(t);
    hide Valid;
  }

  /** What stands in the way of a migration stays there, and nothing new does. */
  lemma MergeableKept(d: Driver, t: Table, t': Table)
    requires Valid(t) && Quiet(d) && Keeps(d, t, t')
    ensures Mergeable(t) <==> Mergeable(t')
  {
    KeepsValid(d, t, t');
    KeysFit(t);
    KeysFit(t');
    hide Valid;
    forall k | k in LegacyKeys(t') && CurrentKeyOf(t'.rows[k].article) in t'.rows && Mergeable(t) ensures Taken(t', t'.rows[k].article) {
      NoNewConflict(t, t', k);
    }
    forall k | k in LegacyKeys(t) && CurrentKeyOf(t.rows[k].article) in t.rows && Mergeable(t') ensures Taken(t, t.rows[k].article) {
      hide Shows;
      assert k in t'.rows ==> k in LegacyKeys(t') && t'.rows[k] == t.rows[k];
    }
  }

  /** A current row beside a legacy row shows a state that was there before. */
  lemma NoNewConflict(t: Table, t': Table, k: Key)
    requires Onward(t, t') && SameView(t, t') && Mergeable(t)
    requires forall j | j in t.rows :: KeyFits(j, t.rows[j].article)
    requires forall j | j in t'.rows :: KeyFits(j, t'.rows[j].article)
    requires k in LegacyKeys(t') && CurrentKeyOf(t'.rows[k].article) in t'.rows
    ensures Taken(t', t'.rows[k].article)
  {
    hide Valid;
    hide HasArticle;
    var a := t'.rows[k].article;
    var b := t'.rows[CurrentKeyOf(a)].article;
    assert k in t.rows && t.rows[k].article == a;
    assert Shows(t', a.id, b);
    assert Shows(t, a.id, b);
    var j :| j in t.rows && j.id == a.id && t.rows[j].article == b;
    if j.CurrentKey? {
      assert j == CurrentKeyOf(a);
      assert Taken(t, a);
    } else {
      assert j == k;
    }
  }

  // ----- The scan -----

  function Snapshot(t: Table, keys: seq<Key>): (r: seq<(Key, Entity)>)
    requires forall k | k in keys :: k in t.rows
    ensures |r| == |keys| && forall i | 0 <= i < |r| :: r[i] == (keys[i], t.rows[keys[i]])
  {
    seq(|keys|, i requires 0 <= i < |keys| => (keys[i], t.rows[keys[i]]))
  }

  /** Where a pass stands: the legacy rows it has removed, and, as long as there are none, those still ahead. */
  ghost predicate PassState(d: Driver, t0: Table, t: Table, removed: set<Key>, migrated: nat) {
    && Keeps(d, t0, t) && Valid(t) && (Quiet(d) ==> t.marker == t0.marker)
    && removed <= LegacyKeys(t0) && removed !! LegacyKeys(t) && |removed| == migrated
    && (Quiet(d) ==> LegacyKeys(t) == LegacyKeys(t0) - removed)
  }

  ghost predicate NoLegacyBefore(t: Table, from: string) {
    forall k | k in LegacyKeys(t) :: !Less(KeyText(k), from)
  }

  lemma PassRow(d: Driver, t0: Table, t: Table, t': Table, removed: set<Key>, migrated: nat, k: Key)
    requires PassState(d, t0, t, removed, migrated) && Keeps(d, t, t')
    requires k in LegacyKeys(t0) && k !in removed && k !in t'.rows
    requires Quiet(d) ==> LegacyKeys(t) - {k} <= LegacyKeys(t') && t'.marker == t.marker
    ensures PassState(d, t0, t', removed + {k}, migrated + 1)
  {
    hide Keeps;
    hide Valid;
    hide LegacyKeys;
    hide Quiet;
    KeepsTrans(d, t0, t, t');
    KeepsValid(d, t, t');
    LegacyShrinks(d, t, t');
    NotLegacy(t', k);
  }

  lemma NotLegacy(t: Table, k: Key)
    requires k !in t.rows || k.CurrentKey?
    ensures k !in LegacyKeys(t)
  {
  }

  lemma LegacyShrinks(d: Driver, t: Table, t': Table)
    requires Keeps(d, t, t')
    ensures LegacyKeys(t') <= LegacyKeys(t)
  {
    hide Valid;
    hide SameView;
  }

  lemma KeepsSelf(d: Driver, t: Table)
    requires Valid(t)
    ensures Keeps(d, t, t)
  {
    hide Valid;
    hide Shows;
    assert forall k | k in t.rows :: k.id == k.id && HasArticle(t, k.id);
  }

  /** The page was read at t1: what it says of a legacy row still holds, unless the row is gone. */
  lemma LegacyAsListed(d: Driver, t1: Table, t: Table, k: Key, e: Entity)
    requires Keeps(d, t1, t) && Valid(t1) && k.LegacyKey? && k in t1.rows && t1.rows[k] == e
    ensures k in t.rows ==> t.rows[k] == e
    ensures e.article.id == k.id
  {
    KeysFit(t1);
    hide Valid;
    if k in t.rows {
      KeepsLegacy(d, t1, t, k);
    }
  }

  lemma RemovedGone(d: Driver, t0: Table, t: Table, removed: set<Key>, migrated: nat)
    requires PassState(d, t0, t, removed, migrated)
    ensures forall k | k in removed :: k !in t.rows
  {
    hide Keeps;
    hide Valid;
  }

  lemma ListedLegacy(t: Table, k: Key)
    requires k in t.rows && k.LegacyKey?
    ensures k in LegacyKeys(t)
  {
  }

  /** A legacy row whose turn it is can be migrated, if the table could when its page was read. */
  lemma RowMerges(d: Driver, t0: Table, t1: Table, t: Table, removed: set<Key>, migrated: nat, k: Key)
    requires Quiet(d) && PassState(d, t0, t, removed, migrated) && Keeps(d, t0, t1) && Keeps(d, t1, t)
    requires Valid(t1) && Mergeable(t1) && k in LegacyKeys(t1) && k !in removed
    ensures k in t.rows && t.rows[k] == t1.rows[k]
    ensures CurrentKeyOf(t.rows[k].article) in t.rows ==> Taken(t, t.rows[k].article)
  {
    LegacyShrinks(d, t0, t1);
    MergeableKept(d, t1, t);
    assert k in LegacyKeys(t);
    KeepsLegacy(d, t1, t, k);
    hide Keeps;
    hide Valid;
    hide Taken;
  }

  /** The rows of one physical page, in turn; t1 is the table the page was read from. */
  method MigratePage(d: Driver, n0: nat, t0: Table, t1: Table, page: seq<(Key, Entity)>,
                     ghost removed0: set<Key>, migrated0: nat)
    returns (t: Table, n: nat, ghost removed: set<Key>, migrated: nat, ok: bool)
    requires DriverOk(d) && PassState(d, t0, t1, removed0, migrated0)
    requires forall i | 0 <= i < |page| :: page[i].0 in t1.rows && t1.rows[page[i].0] == page[i].1
    requires forall i, j | 0 <= i < j < |page| :: page[i].0 != page[j].0
    ensures Keeps(d, t0, t) && Keeps(d, t1, t) && (Quiet(d) ==> t.marker == t0.marker)
    ensures ok ==> PassState(d, t0, t, removed, migrated) && removed0 <= removed && migrated0 <= migrated
    ensures ok && migrated == migrated0 ==> t == t1
    ensures ok ==> forall i | 0 <= i < |page| :: page[i].0 !in LegacyKeys(t)
    ensures Quiet(d) && Faultless(d) && Mergeable(t1) ==> ok
  {
    hide Keeps;
    hide Valid;
    hide Quiet;
    hide Faultless;
    hide Mergeable;
    hide LegacyKeys;
    t, n, removed, migrated, ok := t1, n0, removed0, migrated0, true;
    KeepsSelf(d, t1);
    LegacyShrinks(d, t0, t1);
    RemovedGone(d, t0, t1, removed0, migrated0);
    for i := 0 to |page|
      invariant PassState(d, t0, t, removed, migrated) && Keeps(d, t1, t) && ok
      invariant removed0 <= removed && migrated0 <= migrated
      invariant forall j | i <= j < |page| :: page[j].0 !in removed
      invariant migrated == migrated0 ==> t == t1
      invariant forall j | 0 <= j < i :: page[j].0 !in LegacyKeys(t)
    {
      var k, e := page[i].0, page[i].1;
      if k.LegacyKey? {
        ghost var before := t;
        LegacyAsListed(d, t1, t, k, e);
        ListedLegacy(t1, k);
        if Quiet(d) && Mergeable(t1) {
          RowMerges(d, t0, t1, t, removed, migrated, k);
        }
        t, n, ok := MigrateRow(d, n, t, k, e);
        KeepsTrans(d, t0, before, t);
        KeepsTrans(d, t1, before, t);
        if !ok {
          return;
        }
        LegacyShrinks(d, before, t);
        PassRow(d, t0, before, t, removed, migrated, k);
        removed := removed + {k};
        migrated := migrated + 1;
      }
      NotLegacy(t, k);
    }
  }

  /** After a page whose legacy rows are gone, none is left before the next one. */
  lemma NoneBefore(t: Table, t': Table, from: string, last: bool, keys: seq<Key>, next: string)
    requires PageOk(t, from, last, keys, next) && NoLegacyBefore(t, from) && LegacyKeys(t') <= LegacyKeys(t)
    requires forall i | 0 <= i < |keys| :: keys[i] !in LegacyKeys(t')
    ensures if last then LegacyKeys(t') == {} else NoLegacyBefore(t', next)
  {
    forall k | k in LegacyKeys(t') ensures !last && !Less(KeyText(k), next) {
      assert k !in keys;
    }
  }

  /** One pass of the outer loop: a scan of the partition to its end. When it succeeds, no legacy row is left. */
  method Pass(d: Driver, pass: nat, n0: nat, t0: Table) returns (t: Table, n: nat, migrated: nat, ok: bool)
    requires DriverOk(d) && Valid(t0)
    ensures Keeps(d, t0, t) && (Quiet(d) ==> t.marker == t0.marker)
    ensures ok ==> LegacyKeys(t) == {} && migrated <= |LegacyKeys(t0)|
    ensures ok && Quiet(d) ==> migrated == |LegacyKeys(t0)|
    ensures Quiet(d) && Faultless(d) && Advancing(d) ==> (ok <==> Mergeable(t0))
  {
    hide Keeps;
    hide Valid;
    hide DriverOk;
    hide Quiet;
    hide Faultless;
    hide Advancing;
    hide Mergeable;
    hide LegacyKeys;
    t, n, migrated, ok := t0, n0, 0, true;
    KeepsSelf(d, t0);
    ghost var removed: set<Key> := {};
    var from := "";
    for page := 0 to d.pages(pass) + 1
      invariant ok && PassState(d, t0, t, removed, migrated) && NoLegacyBefore(t, from)
      invariant page == d.pages(pass) + 1 ==> LegacyKeys(t) == {}
    {
      ghost var before := t;
      t := d.others(n, t);
      OthersPass(d, n, t0, before, removed, migrated, from);
      var last := page == d.pages(pass);
      var listed := d.list(n, t, from, last);
      ListOk(d, n, t, from, last);
      if !d.faults(n).NoFault? || (!last && page > 0 && listed.1 == from) {
        GivesUp(d, n, t, from);
        return t, n + 1, migrated, false;
      }
      ghost var scanned := t;
      PassMerges(d, t0, t, removed, migrated);
      t, n, removed, migrated, ok := MigratePage(d, n + 1, t0, t, Snapshot(t, listed.0), removed, migrated);
      if !ok {
        return;
      }
      LegacyShrinks(d, scanned, t);
      NoneBefore(scanned, t, from, last, listed.0, listed.1);
      from := listed.1;
    }
    PassCount(d, t0, t, removed, migrated);
    PassMerges(d, t0, t, removed, migrated);
    NothingToMerge(t);
  }

  lemma NothingToMerge(t: Table)
    requires LegacyKeys(t) == {}
    ensures Mergeable(t)
  {
  }

  lemma PassMerges(d: Driver, t0: Table, t: Table, removed: set<Key>, migrated: nat)
    requires PassState(d, t0, t, removed, migrated) && Valid(t0)
    ensures Quiet(d) ==> (Mergeable(t0) <==> Mergeable(t))
  {
    hide Keeps;
    hide Valid;
    hide Quiet;
    hide Mergeable;
    if Quiet(d) {
      MergeableKept(d, t0, t);
    }
  }

  /** A pass stops at a page only for a fault or a continuation that does not advance. */
  lemma GivesUp(d: Driver, n: nat, t: Table, from: string)
    requires !d.faults(n).NoFault? || d.list(n, t, from, false).1 == from
    ensures !Faultless(d) || !Advancing(d)
  {
  }

  lemma ListOk(d: Driver, n: nat, t: Table, from: string, last: bool)
    requires DriverOk(d)
    ensures PageOk(t, from, last, d.list(n, t, from, last).0, d.list(n, t, from, last).1)
  {
    hide PageOk;
  }

  /** What others do between two calls of a pass does no harm to it. */
  lemma OthersPass(d: Driver, n: nat, t0: Table, t: Table, removed: set<Key>, migrated: nat, from: string)
    requires DriverOk(d) && PassState(d, t0, t, removed, migrated)
    ensures PassState(d, t0, d.others(n, t), removed, migrated)
    ensures NoLegacyBefore(t, from) ==> NoLegacyBefore(d.others(n, t), from)
  {
    hide Keeps;
    hide Valid;
    hide DriverOk;
    OthersKeep(d, n, t);
    KeepsTrans(d, t0, t, d.others(n, t));
    KeepsValid(d, t, d.others(n, t));
    LegacyShrinks(d, t, d.others(n, t));
  }

  lemma PassCount(d: Driver, t0: Table, t: Table, removed: set<Key>, migrated: nat)
    requires PassState(d, t0, t, removed, migrated)
    ensures migrated + |LegacyKeys(t)| <= |LegacyKeys(t0)|
    ensures Quiet(d) ==> migrated + |LegacyKeys(t)| == |LegacyKeys(t0)|
  {
    hide Keeps;
    hide Valid;
    hide LegacyKeys;
    hide Quiet;
    LegacyShrinks(d, t0, t);
    Cardinality(removed + LegacyKeys(t), LegacyKeys(t0));
    assert |removed + LegacyKeys(t)| == |removed| + |LegacyKeys(t)|;
    if Quiet(d) {
      assert removed + LegacyKeys(t) == LegacyKeys(t0);
    }
  }

  lemma {:induction false} Cardinality<T>(a: set<T>, b: set<T>)
    requires a <= b
    ensures |a| <= |b|
    decreases b
  {
    if a != {} {
      var x :| x in a;
      Cardinality(a - {x}, b - {x});
    }
  }

  // ----- The marker -----

  /** articleMigrationIsComplete: None is an error, or a marker this version does not know. */
  method IsComplete(d: Driver, n: nat, t0: Table) returns (t: Table, complete: Option<bool>)
    requires DriverOk(d) && Valid(t0)
    ensures Keeps(d, t0, t) && (Quiet(d) ==> t == t0)
    ensures complete.None? <==> !d.faults(n).NoFault? || t.marker.Foreign?
    ensures complete.Some? ==> (complete.value <==> t.marker.Complete?)
  {
    OthersKeep(d, n, t0);
    hide Keeps;
    t := d.others(n, t0);
    complete := if !d.faults(n).NoFault? || t.marker.Foreign? then None else Some(t.marker.Complete?);
  }

  /** The completion marker never lies. */
  ghost predicate MarkerTrue(t: Table) {
    t.marker.Complete? ==> LegacyKeys(t) == {}
  }

  lemma MarkerStaysTrue(d: Driver, t: Table, t': Table)
    requires Keeps(d, t, t') && MarkerTrue(t)
    ensures MarkerTrue(t')
  {
    LegacyShrinks(d, t, t');
    hide Valid;
    hide SameView;
  }

  lemma ForeignStays(d: Driver, t: Table, t': Table)
    requires Keeps(d, t, t')
    ensures t'.marker.Foreign? <==> t.marker.Foreign?
  {
    hide Valid;
    hide SameView;
  }

  /** persistArticleMigrationMarker: a refusal other than that the marker is there is not looked into. */
  method PersistMarker(d: Driver, n0: nat, t0: Table) returns (t: Table, ok: bool)
    requires DriverOk(d) && Valid(t0) && LegacyKeys(t0) == {}
    ensures Keeps(d, t0, t) && MarkerTrue(t)
    ensures ok ==> t.marker.Complete?
    ensures Quiet(d) && Faultless(d) ==> (ok <==> !t0.marker.Foreign?)
    ensures !d.faults(n0).Refused? && d.faults(n0 + 1).NoFault? ==> (ok <==> t.marker.Complete?)
    ensures Quiet(d) && t0.marker.NoMarker? ==> (ok <==> d.faults(n0).NoFault? || (d.faults(n0).FailsAfter? && d.faults(n0 + 1).NoFault?))
    ensures Quiet(d) && !t0.marker.NoMarker? ==> (ok <==> !d.faults(n0).Refused? && d.faults(n0 + 1).NoFault? && t0.marker.Complete?)
  {
    hide Keeps;
    hide Valid;
    hide DriverOk;
    hide Quiet;
    OthersKeep(d, n0, t0);
    t := d.others(n0, t0);
    LegacyShrinks(d, t0, t);
    KeepsValid(d, t0, t);
    var fits := t.marker.NoMarker?;
    if fits && TakesEffect(d.faults(n0)) {
      MarkKeeps(d, t0, t);
      t := t.(marker := Complete);
    }
    if d.faults(n0).Refused? || (fits && d.faults(n0).NoFault?) {
      return t, d.faults(n0).NoFault?;
    }
    ghost var t1 := t;
    var complete;
    KeepsValid(d, t0, t1);
    t, complete := IsComplete(d, n0 + 1, t);
    KeepsTrans(d, t0, t1, t);
    LegacyShrinks(d, t1, t);
    return t, complete == Some(true);
  }

  lemma MarkKeeps(d: Driver, t0: Table, t: Table)
    requires Keeps(d, t0, t) && t.marker.NoMarker? && LegacyKeys(t) == {}
    ensures Keeps(d, t0, t.(marker := Complete))
  {
    hide ArticleTable.Storable;
    var t' := t.(marker := Complete);
    assert forall id | HasArticle(t, id) :: HasArticle(t', id);
    forall id, a ensures Shows(t', id, a) <==> Shows(t, id, a) {
    }
  }

  // ----- Convergence -----

  /**
    convergeLegacyArticleRows. It ends whatever happens; at every possible stop
    the articles are all there and legacy rows have only gone away; after success
    the marker is set, and unless it was only trusted no legacy row is left.
    Alone and without failures it succeeds exactly if it trusts the marker, or if the marker
    is not a foreign one and no legacy row meets another state at its current
    key. With forceScan, as a repair, it scans whatever the marker says.
   */
  method Converge(d: Driver, t0: Table, forceScan: bool) returns (t: Table, migrated: nat, ok: bool)
    requires DriverOk(d) && Valid(t0)
    ensures Keeps(d, t0, t) && (MarkerTrue(t0) ==> MarkerTrue(t)) && (t.marker.Foreign? <==> t0.marker.Foreign?)
    ensures ok ==> t.marker.Complete? && (forceScan || !t0.marker.Complete? || MarkerTrue(t0) ==> LegacyKeys(t) == {})
    ensures ok && (forceScan || !t0.marker.Complete? || MarkerTrue(t0)) ==>
              migrated <= |LegacyKeys(t0)| && (Quiet(d) ==> migrated == |LegacyKeys(t0)|)
    ensures !forceScan && t0.marker.Complete? ==> migrated == 0 && (ok <==> d.faults(0).NoFault?) && (Quiet(d) ==> t == t0)
    ensures Quiet(d) && Faultless(d) && Advancing(d) ==>
              (ok <==> (!forceScan && t0.marker.Complete?) || (!t0.marker.Foreign? && Mergeable(t0)))
  {
    hide Keeps;
    hide Valid;
    hide DriverOk;
    hide Quiet;
    hide Advancing;
    hide Mergeable;
    hide LegacyKeys;
    migrated, ok := 0, false;
    t := t0;
    var n: nat, passes: nat := 0, 0;
    KeepsSelf(d, t0);
    if !forceScan {
      var complete;
      t, complete := IsComplete(d, n, t0);
      n := n + 1;
      Checked(d, t0, t);
      MarkerSet(d, t0, t);
      if complete.None? {
        return;
      }
      if complete.value {
        ok := true;
        if LegacyKeys(t) == {} {
          NothingToMerge(t);
        }
        return;
      }
    }
    while true
      invariant !ok && Keeps(d, t0, t) && (MarkerTrue(t0) ==> MarkerTrue(t)) && Valid(t) && (forceScan || !t0.marker.Complete?)
      invariant migrated + |LegacyKeys(t)| <= |LegacyKeys(t0)|
      invariant Quiet(d) ==> migrated + |LegacyKeys(t)| == |LegacyKeys(t0)|
      invariant Quiet(d) ==> t.marker == t0.marker && (Mergeable(t) <==> Mergeable(t0))
      decreases |LegacyKeys(t)|
    {
      ghost var before := t;
      var migratedThisPass;
      t, n, migratedThisPass, ok := Pass(d, passes, n, t);
      passes := passes + 1;
      KeepsTrans(d, t0, before, t);
      Checked(d, t0, t);
      migrated := migrated + migratedThisPass;
      if !ok {
        return;
      }
      ok := false;
      NothingToMerge(t);
      if migratedThisPass == 0 {
        ghost var scanned := t;
        t, ok := PersistMarker(d, n, t);
        LegacyShrinks(d, scanned, t);
        KeepsTrans(d, t0, scanned, t);
        ForeignStays(d, t0, t);
        return;
      }
    }
  }

  /** A marker that is set was set before, or no legacy row is left. */
  lemma MarkerSet(d: Driver, t0: Table, t: Table)
    requires Keeps(d, t0, t)
    ensures t0.marker.Complete? ==> t.marker.Complete?
    ensures t.marker.Complete? && !t0.marker.Complete? ==> LegacyKeys(t) == {}
  {
    hide Valid;
    hide SameView;
  }

  lemma Checked(d: Driver, t0: Table, t: Table)
    requires Keeps(d, t0, t) && Valid(t0)
    ensures Valid(t) && (MarkerTrue(t0) ==> MarkerTrue(t)) && |LegacyKeys(t)| <= |LegacyKeys(t0)| && (t.marker.Foreign? <==> t0.marker.Foreign?)
    ensures Quiet(d) ==> (Mergeable(t) <==> Mergeable(t0))
  {
    hide Keeps;
    hide Valid;
    hide Quiet;
    hide Mergeable;
    hide MarkerTrue;
    KeepsValid(d, t0, t);
    if MarkerTrue(t0) {
      MarkerStaysTrue(d, t0, t);
    }
    ForeignStays(d, t0, t);
    LegacyShrinks(d, t0, t);
    Cardinality(LegacyKeys(t), LegacyKeys(t0));
    if Quiet(d) {
      MergeableKept(d, t0, t);
    }
  }

  /**
    Stopping and starting again: a first run that stops wherever its driver makes
    it stop, and a second one from there with another driver, against one
    uninterrupted run with a third. When the last two succeed, they leave the
    same articles under the same keys; and if their drivers do not fail, they do
    succeed, exactly if the table at the start can be migrated.
   */
  method StopAndResume(first: Driver, second: Driver, third: Driver, start: Table, force: bool)
    returns (stopped: Table, resumed: Table, straight: Table, ok: bool)
    requires DriverOk(first) && DriverOk(second) && DriverOk(third) && Quiet(first) && Quiet(second) && Quiet(third)
    requires Valid(start) && (force || MarkerTrue(start))
    ensures Agree(start) ==> Agree(stopped)
    ensures ok ==> LegacyKeys(resumed) == {} == LegacyKeys(straight) && resumed.marker == straight.marker == Complete
    ensures ok ==> resumed.rows.Keys == straight.rows.Keys
    ensures ok ==> forall k | k in straight.rows :: resumed.rows[k].article == straight.rows[k].article
    ensures Faultless(second) && Advancing(second) && Faultless(third) && Advancing(third) ==>
              && (ok <==> !start.marker.Foreign? && Mergeable(start))
              && (!start.marker.Foreign? && Agree(start) ==> ok)
  {
    hide Keeps;
    hide Valid;
    hide DriverOk;
    hide Quiet;
    hide Faultless;
    hide Advancing;
    hide Mergeable;
    hide Agree;
    hide LegacyKeys;
    var migrated, reached, ended, done;
    stopped, migrated, reached := Converge(first, start, force);
    KeepsValid(first, start, stopped);
    StoppedAgree(first, start, stopped);
    MergeableKept(first, start, stopped);
    if LegacyKeys(start) == {} {
      NothingToMerge(start);
    }
    if LegacyKeys(stopped) == {} {
      NothingToMerge(stopped);
    }
    resumed, migrated, ended := Converge(second, stopped, force);
    straight, migrated, done := Converge(third, start, force);
    ok := ended && done;
    if ok {
      ResumeReachesSameTable(first, second, third, start, stopped, resumed, straight);
    }
    if Agree(start) {
      AgreeMergeable(start);
    }
  }

  /** Wherever the migration stops, the rows of one article agree as the compatibility listing needs it. */
  lemma StoppedAgree(d: Driver, t: Table, t': Table)
    requires Quiet(d) && Keeps(d, t, t')
    ensures Agree(t) ==> Agree(t')
  {
    hide Agree;
    hide SameView;
    hide Onward;
    if Agree(t) {
      SameViewAgree(t, t');
    }
  }

  lemma ResumeReachesSameTable(first: Driver, second: Driver, third: Driver, start: Table, stopped: Table, resumed: Table, straight: Table)
    requires Quiet(first) && Quiet(second) && Quiet(third)
    requires Keeps(first, start, stopped) && Keeps(second, stopped, resumed) && Keeps(third, start, straight)
    requires LegacyKeys(resumed) == {} && LegacyKeys(straight) == {}
    ensures resumed.rows.Keys == straight.rows.Keys
    ensures forall k | k in straight.rows :: resumed.rows[k].article == straight.rows[k].article
  {
    hide Valid;
    hide LegacyKeys;
    hide Shows;
    KeepsValid(second, stopped, resumed);
    KeepsValid(third, start, straight);
    QuietView(first, start, stopped);
    QuietView(second, stopped, resumed);
    QuietView(third, start, straight);
    hide Keeps;
    FinalDetermined(straight, resumed);
  }

  lemma QuietView(d: Driver, t: Table, t': Table)
    requires Quiet(d) && Keeps(d, t, t')
    ensures forall id, a :: Shows(t', id, a) <==> Shows(t, id, a)
  {
    hide Valid;
    hide Shows;
    hide Onward;
  }

  // ----- A service without failures -----

  ghost function Enumerated(s: set<Key>): (r: seq<Key>)
    ensures forall k :: k in r <==> k in s
    ensures forall i, j | 0 <= i < j < |r| :: r[i] != r[j]
  {
    if s == {} then []
    else
      var k :| k in s;
      [k] + Enumerated(s - {k})
  }

  ghost function Between(t: Table, from: string, last: bool): set<Key> {
    set k | k in t.rows && !Less(KeyText(k), from) && (last || Less(KeyText(k), from + "z"))
  }

  /** Such a driver exists: what is said of one is said of something. */
  lemma FaultlessDriver()
    ensures exists d :: DriverOk(d) && Quiet(d) && Faultless(d) && Advancing(d)
  {
    var list := (n: nat, t: Table, from: string, last: bool) => (Enumerated(Between(t, from, last)), from + "z");
    var d := Driver((n: nat, t: Table) => t, (n: nat) => NoFault, list, (pass: nat) => 0);
    forall n: nat, t | Valid(t) ensures Onward(t, d.others(n, t)) {
      hide Valid;
      KeepsSelf(d, t);
    }
    forall n: nat, t, from, last ensures PageOk(t, from, last, d.list(n, t, from, last).0, d.list(n, t, from, last).1) {
      assert d.list(n, t, from, last).0 == Enumerated(Between(t, from, last));
    }
    hide Onward;
    hide PageOk;
    assert DriverOk(d);
    forall n: nat, t, from ensures d.list(n, t, from, false).1 != from {
      assert |from + "z"| == |from| + 1;
    }
    assert Quiet(d) && Faultless(d) && Advancing(d);
  }
}
