/**
  Contact requests: listing, deleting, the purge that deletes while it pages,
  and the dashboard counts. internal/contacts/service.go,
  internal/storage/memory/contacts.go, internal/storage/azure/contacts.go.
 */
module Contacts {
  import opened Outcomes
  import opened ArticleModel
  import opened Paging

  const ORDER: Order := LeastIdFirst

  datatype State = New | Read | Archived

  /** A contact; etag is the version the repository hands out. */
  datatype Contact = Contact(
    id: string, createdAt: Time, state: State, reviewDueAt: Time, deletionDueAt: Option<Time>, etag: nat)

  /** search says what the query text finds; it is arbitrary, and finds everything without a text. */
  datatype Filter = Filter(state: Option<State>, retentionReview: bool, deletionScheduled: bool, search: Contact -> bool)

  const EVERYTHING: Filter := Filter(None, false, false, c => true)

  const SCHEDULED: Filter := Filter(None, false, true, c => true)

  /** contactMatchesOptions */
  predicate Matches(f: Filter, now: Time, c: Contact) {
    && (f.state.Some? ==> c.state == f.state.value)
    && (f.retentionReview ==> c.reviewDueAt <= now)
    && (f.deletionScheduled ==> c.deletionDueAt.Some?)
    && f.search(c)
  }

  function PosOf(c: Contact): Pos { Pos(c.createdAt, c.id) }

  function ItemOf(c: Contact): Item<Contact> { Item(PosOf(c), c) }

  type Book = map<string, Contact>

  predicate Valid(m: Book) { forall id | id in m :: m[id].id == id }

  ghost function Items(m: Book): set<Item<Contact>> {
    set id | id in m :: ItemOf(m[id])
  }

  function Matching(f: Filter, now: Time, scanned: seq<Item<Contact>>): seq<Contact> {
    if scanned == [] then []
    else (if Matches(f, now, scanned[0].value) then [scanned[0].value] else []) + Matching(f, now, scanned[1..])
  }

  // ----- The memory repository -----

  /** Copying the map into a slice, in any order. */
  method Copied(m: Book) returns (stored: seq<Item<Contact>>)
    requires Valid(m)
    ensures AllDifferent(stored) && Elements(stored) == Items(m)
  {
    stored := [];
    var rest := m.Keys;
    while rest != {}
      invariant rest <= m.Keys
      invariant forall x :: x in stored <==> x.pos.id in m && x.pos.id !in rest && x == ItemOf(m[x.pos.id])
      invariant AllDifferent(stored)
      decreases |rest|
    {
      var id :| id in rest;
      rest := rest - {id};
      forall k | 0 <= k < |stored| ensures stored[k].pos.id != id {
        assert stored[k] in stored;
      }
      stored := stored + [ItemOf(m[id])];
    }
    StoredItems(m, stored);
  }

  lemma StoredItems(m: Book, stored: seq<Item<Contact>>)
    requires Valid(m) && forall x :: x in stored <==> x.pos.id in m && x == ItemOf(m[x.pos.id])
    ensures Elements(stored) == Items(m)
  {
    forall x ensures x in Elements(stored) <==> x in Items(m) {
      if x in Items(m) {
        var id :| id in m && x == ItemOf(m[id]);
        assert x.pos.id == id;
      }
    }
  }

  method KeepMatching(f: Filter, now: Time, page: seq<Item<Contact>>) returns (items: seq<Contact>)
    ensures items == Matching(f, now, page)
  {
    items := [];
    for i := 0 to |page|
      invariant items + Matching(f, now, page[i..]) == Matching(f, now, page)
    {
      assert page[i..][0] == page[i] && page[i..][1..] == page[i + 1..];
      ghost var tail := Matching(f, now, page[i + 1..]);
      if Matches(f, now, page[i].value) {
        assert items + ([page[i].value] + tail) == (items + [page[i].value]) + tail;
        items := items + [page[i].value];
      } else {
        assert [] + tail == tail;
      }
    }
    assert page[|page|..] == [];
  }

  /** scanned is the page of all contacts beyond the cursor, and items those of them that match. */
  ghost predicate ListedFrom(m: Book, scanned: seq<Item<Contact>>, f: Filter, now: Time, cursor: Option<Pos>, limit: nat,
                             items: seq<Contact>, next: Option<Pos>)
  {
    ExactPage(ORDER, scanned, next, Beyond(ORDER, Items(m), cursor), limit) && items == Matching(f, now, scanned)
  }

  class Repository {
    var contacts: Book

    /** List: the matching ones among the contacts of a page of all contacts. */
    method List(f: Filter, now: Time, cursor: Option<Pos>, limit: nat) returns (items: seq<Contact>, next: Option<Pos>)
      requires Valid(contacts) && limit > 0
      ensures exists scanned :: ListedFrom(contacts, scanned, f, now, cursor, limit, items, next)
    {
      var stored := Copied(contacts);
      var page;
      page, next := ListInMemory(ORDER, stored, cursor, limit);
      items := KeepMatching(f, now, page);
      assert ListedFrom(contacts, page, f, now, cursor, limit, items, next);
    }

    method Delete(id: string, etag: nat) returns (error: Option<Error>)
      modifies this
      ensures error.None? <==> id in old(contacts) && old(contacts)[id].etag == etag
      ensures contacts == if error.None? then old(contacts) - {id} else old(contacts)
      ensures id !in old(contacts) ==> error == Some(NotFound)
      ensures id in old(contacts) && old(contacts)[id].etag != etag ==> error == Some(Conflict)
    {
      if id !in contacts {
        return Some(NotFound);
      }
      if contacts[id].etag != etag {
        return Some(Conflict);
      }
      contacts := contacts - {id};
      return None;
    }
  }

  // ----- PurgeDue -----

  predicate Due(c: Contact, cutoff: Time) { c.deletionDueAt.Some? && c.deletionDueAt.value <= cutoff }

  /** The contacts without those that are due and lie before the cut. */
  function Purged(m: Book, cutoff: Time, cut: Cut): Book {
    map id | id in m && !(Due(m[id], cutoff) && Passed(ORDER, cut, PosOf(m[id]))) :: m[id]
  }

  /** The contacts that lie behind the cut. */
  function Ahead(m: Book, cut: Cut): set<string> {
    set id | id in m && !Passed(ORDER, cut, PosOf(m[id]))
  }

  function DueIds(m: Book, cutoff: Time): set<string> {
    set id | id in m && Due(m[id], cutoff)
  }

  lemma {:induction false} MatchingIn(f: Filter, now: Time, scanned: seq<Item<Contact>>)
    ensures forall c :: c in Matching(f, now, scanned) <==> Matches(f, now, c) && exists x :: x in scanned && x.value == c
  {
    if scanned != [] {
      MatchingIn(f, now, scanned[1..]);
      forall c ensures c in Matching(f, now, scanned) <==> Matches(f, now, c) && exists x :: x in scanned && x.value == c {
        if Matches(f, now, c) && exists x :: x in scanned && x.value == c {
          var x :| x in scanned && x.value == c;
          assert x == scanned[0] || x in scanned[1..];
        }
        if c in Matching(f, now, scanned) {
          if !(c in Matching(f, now, scanned[1..])) {
            assert scanned[0] in scanned;
          }
        }
      }
    }
  }

  /** What a listing shows of the contacts it scanned, in terms of the filter: exactly these, in order. */
  lemma ListsExactly(f: Filter, now: Time, scanned: seq<Item<Contact>>)
    requires Sorted(ORDER, scanned) && forall x | x in scanned :: x.pos == PosOf(x.value)
    ensures forall c :: c in Matching(f, now, scanned) <==>
                        && (exists x :: x in scanned && x.value == c) && f.search(c)
                        && (f.state == None || f.state == Some(c.state))
                        && !(f.retentionReview && now < c.reviewDueAt) && !(f.deletionScheduled && c.deletionDueAt == None)
    ensures forall i, j | 0 <= i < j < |Matching(f, now, scanned)| ::
              Before(ORDER, PosOf(Matching(f, now, scanned)[i]), PosOf(Matching(f, now, scanned)[j]))
  {
    MatchingIn(f, now, scanned);
    MatchingInOrder(f, now, scanned);
  }

  lemma {:induction false} MatchingInOrder(f: Filter, now: Time, scanned: seq<Item<Contact>>)
    requires Sorted(ORDER, scanned) && forall x | x in scanned :: x.pos == PosOf(x.value)
    ensures forall i, j | 0 <= i < j < |Matching(f, now, scanned)| ::
              Before(ORDER, PosOf(Matching(f, now, scanned)[i]), PosOf(Matching(f, now, scanned)[j]))
  {
    if scanned != [] {
      MatchingInOrder(f, now, scanned[1..]);
      MatchingIn(f, now, scanned[1..]);
      var rest := Matching(f, now, scanned[1..]);
      forall j | 0 <= j < |rest| ensures Before(ORDER, scanned[0].pos, PosOf(rest[j])) {
        assert rest[j] in rest;
        var x :| x in scanned[1..] && x.value == rest[j];
        var k :| 0 <= k < |scanned[1..]| && scanned[1..][k] == x;
        assert scanned[k + 1] == x;
      }
    }
  }

  predicate DistinctIds(cs: seq<Contact>) {
    forall i, j | 0 <= i < j < |cs| :: cs[i].id != cs[j].id
  }

  lemma {:induction false} MatchingDistinct(f: Filter, now: Time, scanned: seq<Item<Contact>>)
    requires AllDifferent(scanned) && forall x | x in scanned :: x == ItemOf(x.value)
    ensures DistinctIds(Matching(f, now, scanned))
  {
    if scanned != [] {
      assert scanned[0] in scanned;
      assert forall i | 0 < i < |scanned| :: scanned[i] == scanned[1..][i - 1];
      MatchingDistinct(f, now, scanned[1..]);
      MatchingIn(f, now, scanned[1..]);
      var rest := Matching(f, now, scanned[1..]);
      forall k | 0 <= k < |rest| ensures rest[k].id != scanned[0].value.id {
        assert rest[k] in rest;
        var x :| x in scanned[1..] && x.value == rest[k];
        var i :| 0 <= i < |scanned[1..]| && scanned[1..][i] == x;
        assert scanned[i + 1] == x && scanned[0].pos.id != scanned[i + 1].pos.id;
      }
    }
  }

  /** What a page of the repository is, in terms of the map. */
  lemma PageFacts(m: Book, scanned: seq<Item<Contact>>, next: Option<Pos>, cursor: Option<Pos>, limit: nat)
    requires Valid(m) && ExactPage(ORDER, scanned, next, Beyond(ORDER, Items(m), cursor), limit)
    ensures AllDifferent(scanned)
    ensures forall x | x in scanned :: x == ItemOf(x.value) && x.pos.id in m && m[x.pos.id] == x.value
    ensures forall id | id in m ::
              ItemOf(m[id]) in scanned <==>
              !Passed(ORDER, CutAt(cursor, Beginning), PosOf(m[id])) && Passed(ORDER, CutAt(next, Everything), PosOf(m[id]))
    ensures Advances(ORDER, CutAt(cursor, Beginning), CutAt(next, Everything))
  {
    assert UniqueIds(Items(m));
    PageCovers(ORDER, scanned, next, Items(m), cursor, limit);
    forall x | x in scanned ensures x == ItemOf(x.value) && x.pos.id in m && m[x.pos.id] == x.value {
      assert x in Items(m);
    }
    forall i, j | 0 <= i < j < |scanned| ensures scanned[i].pos.id != scanned[j].pos.id {
      BeforeTotal(ORDER, scanned[i].pos, scanned[j].pos);
      assert scanned[i] in scanned && scanned[j] in scanned;
    }
    forall id | id in m
      ensures ItemOf(m[id]) in scanned <==>
              !Passed(ORDER, CutAt(cursor, Beginning), PosOf(m[id])) && Passed(ORDER, CutAt(next, Everything), PosOf(m[id]))
    {
      ScannedAt(m, scanned, id);
    }
  }

  lemma ScannedAt(m: Book, scanned: seq<Item<Contact>>, id: string)
    requires Valid(m) && id in m && forall x | x in scanned :: x == ItemOf(x.value) && x.pos.id in m && m[x.pos.id] == x.value
    ensures ItemOf(m[id]) in scanned <==> PosOf(m[id]) in Positions(scanned)
    ensures PosOf(m[id]) in PosSet(Items(m))
  {
    assert ItemOf(m[id]) in Items(m);
    if ItemOf(m[id]) in scanned {
      var i :| 0 <= i < |scanned| && scanned[i] == ItemOf(m[id]);
      assert Positions(scanned)[i] == PosOf(m[id]);
    }
    if PosOf(m[id]) in Positions(scanned) {
      var i :| 0 <= i < |scanned| && Positions(scanned)[i] == PosOf(m[id]);
      assert scanned[i] in scanned;
    }
  }

  /** The items of a page of what is left after the cut. */
  ghost predicate PageAt(m: Book, scanned: seq<Item<Contact>>, next: Option<Pos>, cursor: Option<Pos>) {
    && AllDifferent(scanned)
    && (forall x | x in scanned :: x == ItemOf(x.value) && x.pos.id in m && m[x.pos.id] == x.value)
    && (forall id | id in m ::
          ItemOf(m[id]) in scanned <==>
          !Passed(ORDER, CutAt(cursor, Beginning), PosOf(m[id])) && Passed(ORDER, CutAt(next, Everything), PosOf(m[id])))
    && Advances(ORDER, CutAt(cursor, Beginning), CutAt(next, Everything))
  }

  lemma PageItems(m: Book, cutoff: Time, scanned: seq<Item<Contact>>, next: Option<Pos>, cursor: Option<Pos>, items: seq<Contact>)
    requires Valid(m) && PageAt(m, scanned, next, cursor) && items == Matching(SCHEDULED, 0, scanned)
    ensures DistinctIds(items)
    ensures forall c | c in items :: c.id in m && m[c.id] == c
    ensures forall id | id in m ::
              id in DueAmong(items, cutoff) <==>
              && Due(m[id], cutoff) && !Passed(ORDER, CutAt(cursor, Beginning), PosOf(m[id]))
              && Passed(ORDER, CutAt(next, Everything), PosOf(m[id]))
  {
    hide Passed;
    hide Advances;
    MatchingDistinct(SCHEDULED, 0, scanned);
    MatchingIn(SCHEDULED, 0, scanned);
    forall id | id in m ensures id in DueAmong(items, cutoff) <==> Due(m[id], cutoff) && ItemOf(m[id]) in scanned {
      DueScanned(m, cutoff, scanned, items, id);
    }
  }

  /** Deleting the due ones of a page moves the cut. */
  lemma PageStep(m: Book, cutoff: Time, cursor: Option<Pos>, next: Option<Pos>, scanned: seq<Item<Contact>>, limit: nat,
                 items: seq<Contact>)
    requires Valid(m)
    requires ExactPage(ORDER, scanned, next, Beyond(ORDER, Items(Purged(m, cutoff, CutAt(cursor, Beginning))), cursor), limit)
    requires items == Matching(SCHEDULED, 0, scanned)
    ensures var before := Purged(m, cutoff, CutAt(cursor, Beginning));
            && Valid(before) && DistinctIds(items) && (forall c | c in items :: c.id in before && before[c.id] == c)
            && before - DueAmong(items, cutoff) == Purged(m, cutoff, CutAt(next, Everything))
    ensures Ahead(m, CutAt(next, Everything)) <= Ahead(m, CutAt(cursor, Beginning))
    ensures next.Some? ==> Ahead(m, CutAt(next, Everything)) != Ahead(m, CutAt(cursor, Beginning)) && next != cursor
  {
    hide ExactPage;
    hide Matching;
    hide Items;
    hide DueAmong;
    var before := Purged(m, cutoff, CutAt(cursor, Beginning));
    PageFacts(before, scanned, next, cursor, limit);
    PageItems(before, cutoff, scanned, next, cursor, items);
    if next.Some? {
      LastAdvances(before, scanned, next, cursor, limit);
      var id :| id in before && PosOf(before[id]) == next.value && !Passed(ORDER, CutAt(cursor, Beginning), next.value);
      assert id in Ahead(m, CutAt(cursor, Beginning)) && id !in Ahead(m, CutAt(next, Everything));
    }
    hide AllDifferent;
    CutMoves(m, cutoff, CutAt(cursor, Beginning), CutAt(next, Everything), DueAmong(items, cutoff));
  }

  lemma AheadShrinks(m: Book, from: Cut, to: Cut)
    requires Advances(ORDER, from, to)
    ensures Ahead(m, to) <= Ahead(m, from)
  {
  }

  lemma CutMoves(m: Book, cutoff: Time, from: Cut, to: Cut, gone: set<string>)
    requires Advances(ORDER, from, to)
    requires forall id | id in Purged(m, cutoff, from) ::
               id in gone <==> Due(m[id], cutoff) && !Passed(ORDER, from, PosOf(m[id])) && Passed(ORDER, to, PosOf(m[id]))
    ensures Purged(m, cutoff, from) - gone == Purged(m, cutoff, to)
    ensures Ahead(m, to) <= Ahead(m, from)
  {
    hide Due;
    forall id | id in m ensures Passed(ORDER, from, PosOf(m[id])) ==> Passed(ORDER, to, PosOf(m[id])) {
    }
    hide Passed;
    hide Advances;
  }

  function DueAmong(items: seq<Contact>, cutoff: Time): set<string> {
    set c | c in items && Due(c, cutoff) :: c.id
  }

  lemma DueScanned(m: Book, cutoff: Time, scanned: seq<Item<Contact>>, items: seq<Contact>, id: string)
    requires Valid(m) && id in m && (forall x | x in scanned :: x == ItemOf(x.value) && x.pos.id in m && m[x.pos.id] == x.value)
    requires forall c :: c in items <==> Matches(SCHEDULED, 0, c) && exists x :: x in scanned && x.value == c
    ensures id in DueAmong(items, cutoff) <==> Due(m[id], cutoff) && ItemOf(m[id]) in scanned
  {
    if Due(m[id], cutoff) && ItemOf(m[id]) in scanned {
      assert ItemOf(m[id]).value == m[id];
      assert m[id] in items;
    }
  }

  /** A page that is not the last one ends at a contact the cursor had not passed. */
  lemma LastAdvances(m: Book, scanned: seq<Item<Contact>>, next: Option<Pos>, cursor: Option<Pos>, limit: nat)
    requires Valid(m) && ExactPage(ORDER, scanned, next, Beyond(ORDER, Items(m), cursor), limit) && next.Some?
    ensures exists id :: id in m && PosOf(m[id]) == next.value && !Passed(ORDER, CutAt(cursor, Beginning), next.value)
    ensures next != cursor
  {
    var last := scanned[|scanned| - 1];
    assert last in scanned && last in Items(m) && AfterCursor(ORDER, cursor, last.pos);
    if cursor.Some? {
      BeforeTotal(ORDER, cursor.value, last.pos);
    }
    assert PosOf(m[last.pos.id]) == next.value;
  }

  /** A contact is due from the instant on for which its deletion is scheduled. */
  lemma DueAre(m: Book, cutoff: Time)
    ensures forall id | id in m :: id !in DueIds(m, cutoff) <==> m[id].deletionDueAt == None || cutoff < m[id].deletionDueAt.value
  {
  }

  /** time.Time.IsZero */
  predicate IsZero(t: Time) { t == ZERO_TIME }

  /** service.PurgeDue, with nobody else writing. */
  method PurgeDue(repository: Repository, cutoff: Time) returns (deleted: nat, error: Option<Error>)
    requires Valid(repository.contacts)
    modifies repository
    ensures IsZero(cutoff) ==> error == Some(Validation) && deleted == 0 && repository.contacts == old(repository.contacts)
    ensures !IsZero(cutoff) ==> error.None? && deleted == |DueIds(old(repository.contacts), cutoff)|
    ensures !IsZero(cutoff) ==> repository.contacts == old(repository.contacts) - DueIds(old(repository.contacts), cutoff)
    ensures forall id :: id in repository.contacts <==>
              && id in old(repository.contacts)
              && (cutoff == ZERO_TIME || old(repository.contacts)[id].deletionDueAt == None || cutoff < old(repository.contacts)[id].deletionDueAt.value)
  {
    DueAre(repository.contacts, cutoff);
    if IsZero(cutoff) {
      return 0, Some(Validation);
    }
    hide Purged;
    hide Ahead;
    hide ExactPage;
    hide Items;
    hide Matching;
    hide DueAmong;
    hide Due;
    hide DueIds;
    hide DistinctIds;
    deleted, error := 0, None;
    var cursor: Option<Pos> := None;
    ghost var m := repository.contacts;
    NothingPurged(m, cutoff);
    while true
      invariant error.None? && Valid(m) && Valid(repository.contacts)
      invariant repository.contacts == Purged(m, cutoff, CutAt(cursor, Beginning))
      invariant deleted + |repository.contacts| == |m|
      decreases |Ahead(m, CutAt(cursor, Beginning))|
    {
      var items, next := repository.List(SCHEDULED, 0, cursor, 100);
      ghost var scanned :| ListedFrom(repository.contacts, scanned, SCHEDULED, 0, cursor, 100, items, next);
      PageStep(m, cutoff, cursor, next, scanned, 100, items);
      var count := DeleteDue(repository, items, cutoff);
      deleted := deleted + count;
      PurgedValid(m, cutoff, CutAt(next, Everything));
      if next.None? {
        AllPurged(m, cutoff);
        return;
      }
      if next == cursor {
        return deleted, Some(Storage);
      }
      SmallerSet(Ahead(m, CutAt(next, Everything)), Ahead(m, CutAt(cursor, Beginning)));
      cursor := next;
    }
  }

  /** The inner loop, over the items of one page. */
  method DeleteDue(repository: Repository, items: seq<Contact>, cutoff: Time) returns (deleted: nat)
    requires DistinctIds(items) && forall c | c in items :: c.id in repository.contacts && repository.contacts[c.id] == c
    modifies repository
    ensures repository.contacts == old(repository.contacts) - DueAmong(items, cutoff)
    ensures deleted + |repository.contacts| == |old(repository.contacts)|
  {
    hide DueAmong;
    hide DistinctIds;
    hide Due;
    deleted := 0;
    NobodyDue(cutoff);
    assert items[..0] == [] && old(repository.contacts) - {} == old(repository.contacts);
    for i := 0 to |items|
      invariant repository.contacts == old(repository.contacts) - DueAmong(items[..i], cutoff)
      invariant deleted + |repository.contacts| == |old(repository.contacts)|
    {
      DueAmongNext(items, cutoff, i);
      if Due(items[i], cutoff) {
        assert items[i] in items;
        OneFewer(repository.contacts, items[i].id);
        var failed := repository.Delete(items[i].id, items[i].etag);
        assert failed.None?;
        deleted := deleted + 1;
      }
    }
    assert items[..|items|] == items;
  }

  lemma NobodyDue(cutoff: Time)
    ensures DueAmong([], cutoff) == {}
  {
  }

  lemma NothingPurged(m: Book, cutoff: Time)
    ensures Purged(m, cutoff, Beginning) == m
  {
  }

  lemma PurgedValid(m: Book, cutoff: Time, cut: Cut)
    requires Valid(m)
    ensures Valid(Purged(m, cutoff, cut))
  {
  }

  lemma DueAmongNext(items: seq<Contact>, cutoff: Time, i: nat)
    requires i < |items| && DistinctIds(items)
    ensures DueAmong(items[..i + 1], cutoff) == DueAmong(items[..i], cutoff) + (if Due(items[i], cutoff) then {items[i].id} else {})
    ensures items[i].id !in DueAmong(items[..i], cutoff)
  {
    assert items[..i + 1] == items[..i] + [items[i]];
  }

  lemma OneFewer(m: Book, id: string)
    ensures id in m ==> |m - {id}| == |m| - 1
  {
    assert (m - {id}).Keys == m.Keys - {id};
    assert |m - {id}| == |(m - {id}).Keys| && |m| == |m.Keys|;
  }

  lemma AllPurged(m: Book, cutoff: Time)
    ensures Purged(m, cutoff, Everything) == m - DueIds(m, cutoff)
    ensures |DueIds(m, cutoff)| + |Purged(m, cutoff, Everything)| == |m|
  {
    var rest := Purged(m, cutoff, Everything);
    assert rest == m - DueIds(m, cutoff);
    assert rest.Keys == m.Keys - DueIds(m, cutoff);
    assert |m.Keys| == |m.Keys - DueIds(m, cutoff)| + |DueIds(m, cutoff)|;
    assert |rest| == |rest.Keys| && |m| == |m.Keys|;
  }

  lemma {:induction false} SmallerSet(a: set<string>, b: set<string>)
    requires a <= b && a != b
    ensures |a| < |b|
    decreases a
  {
    if a == {} {
      assert b != {};
    } else {
      var x :| x in a;
      SmallerSet(a - {x}, b - {x});
    }
  }

  // ----- The dashboard -----

  /** service.scan, with nobody writing: visit is called for each contact once, in listing order. */
  method Scan(repository: Repository) returns (visited: seq<Contact>)
    requires Valid(repository.contacts)
    ensures DistinctIds(visited)
    ensures forall c :: c in visited <==> c.id in repository.contacts && repository.contacts[c.id] == c
  {
    visited := [];
    var m := repository.contacts;
    var cursor: Option<Pos> := None;
    while true
      invariant DistinctIds(visited)
      invariant forall c :: c in visited <==> c.id in m && m[c.id] == c && Passed(ORDER, CutAt(cursor, Beginning), PosOf(c))
      decreases |Ahead(m, CutAt(cursor, Beginning))|
    {
      var items, next := repository.List(EVERYTHING, 0, cursor, 100);
      ghost var scanned :| ListedFrom(m, scanned, EVERYTHING, 0, cursor, 100, items, next);
      ScanStep(m, visited, items, scanned, next, cursor, 100);
      visited := visited + items;
      if next.None? || next == cursor {
        return;
      }
      SmallerSet(Ahead(m, CutAt(next, Everything)), Ahead(m, CutAt(cursor, Beginning)));
      cursor := next;
    }
  }

  lemma ScanStep(m: Book, visited: seq<Contact>, items: seq<Contact>, scanned: seq<Item<Contact>>, next: Option<Pos>,
                 cursor: Option<Pos>, limit: nat)
    requires Valid(m) && DistinctIds(visited)
    requires forall c :: c in visited <==> c.id in m && m[c.id] == c && Passed(ORDER, CutAt(cursor, Beginning), PosOf(c))
    requires ExactPage(ORDER, scanned, next, Beyond(ORDER, Items(m), cursor), limit)
    requires items == Matching(EVERYTHING, 0, scanned)
    ensures DistinctIds(visited + items)
    ensures forall c :: c in visited + items <==> c.id in m && m[c.id] == c && Passed(ORDER, CutAt(next, Everything), PosOf(c))
    ensures Ahead(m, CutAt(next, Everything)) <= Ahead(m, CutAt(cursor, Beginning))
    ensures next.Some? ==> Ahead(m, CutAt(next, Everything)) != Ahead(m, CutAt(cursor, Beginning)) && next != cursor
  {
    hide ExactPage;
    hide Items;
    hide Matching;
    PageFacts(m, scanned, next, cursor, limit);
    MatchingDistinct(EVERYTHING, 0, scanned);
    MatchingIn(EVERYTHING, 0, scanned);
    if next.Some? {
      LastAdvances(m, scanned, next, cursor, limit);
      var id :| id in m && PosOf(m[id]) == next.value && !Passed(ORDER, CutAt(cursor, Beginning), next.value);
      assert id in Ahead(m, CutAt(cursor, Beginning)) && id !in Ahead(m, CutAt(next, Everything));
    }
    AheadShrinks(m, CutAt(cursor, Beginning), CutAt(next, Everything));
    hide Passed;
    forall c ensures c in items <==> c.id in m && m[c.id] == c && ItemOf(c) in scanned {
      if c.id in m && m[c.id] == c && ItemOf(c) in scanned {
        assert ItemOf(c).value == c;
      }
    }
    DistinctAppend(m, visited, items, CutAt(cursor, Beginning));
  }

  lemma DistinctAppend(m: Book, visited: seq<Contact>, items: seq<Contact>, from: Cut)
    requires DistinctIds(visited) && DistinctIds(items)
    requires forall c | c in visited :: c.id in m && m[c.id] == c && Passed(ORDER, from, PosOf(c))
    requires forall c | c in items :: c.id in m && m[c.id] == c && !Passed(ORDER, from, PosOf(c))
    ensures DistinctIds(visited + items)
  {
    hide Passed;
    forall i, j | 0 <= i < |visited| && 0 <= j < |items| ensures visited[i].id != items[j].id {
      assert visited[i] in visited && items[j] in items;
    }
  }

  datatype Summary = Summary(unread: nat, read: nat, archived: nat, deletionScheduled: nat, retentionReview: nat)

  /** What the dashboard counts. */
  datatype Test = InState(state: State) | Scheduled | ToReview(now: Time)

  predicate Holds(test: Test, c: Contact) {
    match test
    case InState(state) => c.state == state
    case Scheduled => c.deletionDueAt.Some?
    case ToReview(now) => c.reviewDueAt <= now
  }

  /** The contacts of the map for which the test holds. */
  ghost function Those(m: Book, test: Test): set<string> {
    set id | id in m && Holds(test, m[id])
  }

  ghost function Summarised(m: Book, now: Time): Summary {
    Summary(|Those(m, InState(New))|, |Those(m, InState(Read))|, |Those(m, InState(Archived))|,
            |Those(m, Scheduled)|, |Those(m, ToReview(now))|)
  }

  lemma SummaryIs(m: Book, now: Time)
    ensures Those(m, InState(New)) == set id | id in m && m[id].state == New
    ensures Those(m, InState(Read)) == set id | id in m && m[id].state == Read
    ensures Those(m, InState(Archived)) == set id | id in m && m[id].state == Archived
    ensures Those(m, Scheduled) == set id | id in m && m[id].deletionDueAt != None
    ensures Those(m, ToReview(now)) == set id | id in m && !(now < m[id].reviewDueAt)
  {
  }

  ghost function Counted(cs: seq<Contact>, test: Test): nat {
    if cs == [] then 0 else (if Holds(test, cs[|cs| - 1]) then 1 else 0) + Counted(cs[..|cs| - 1], test)
  }

  ghost function IdsWhere(cs: seq<Contact>, test: Test): set<string> {
    set c | c in cs && Holds(test, c) :: c.id
  }

  lemma IdsNext(cs: seq<Contact>, last: Contact, test: Test)
    requires DistinctIds(cs + [last])
    ensures DistinctIds(cs) && last.id !in IdsWhere(cs, test)
    ensures IdsWhere(cs + [last], test) == IdsWhere(cs, test) + if Holds(test, last) then {last.id} else {}
  {
    hide Holds;
    var all := cs + [last];
    assert all[|cs|] == last && forall i | 0 <= i < |cs| :: all[i] == cs[i];
    assert forall c | c in cs :: c.id != last.id;
    assert forall c :: c in all <==> c in cs || c == last;
  }

  /** Counting a list of different contacts counts the set. */
  lemma {:induction false} CountedIsSize(cs: seq<Contact>, test: Test)
    requires DistinctIds(cs)
    ensures Counted(cs, test) == |IdsWhere(cs, test)|
    decreases |cs|
  {
    hide Holds;
    hide DistinctIds;
    if cs == [] {
      assert IdsWhere(cs, test) == {};
    } else {
      hide IdsWhere;
      var n := |cs| - 1;
      assert cs == cs[..n] + [cs[n]];
      IdsNext(cs[..n], cs[n], test);
      CountedIsSize(cs[..n], test);
    }
  }

  lemma ScanCounts(m: Book, visited: seq<Contact>, test: Test)
    requires Valid(m) && DistinctIds(visited) && forall c :: c in visited <==> c.id in m && m[c.id] == c
    ensures Counted(visited, test) == |Those(m, test)|
  {
    hide Holds;
    forall id ensures id in Those(m, test) <==> id in IdsWhere(visited, test) {
      if id in Those(m, test) {
        assert m[id] in visited;
      }
    }
    assert Those(m, test) == IdsWhere(visited, test);
    CountedIsSize(visited, test);
  }

  lemma CountedNext(cs: seq<Contact>, i: nat, test: Test)
    requires i < |cs|
    ensures Counted(cs[..i + 1], test) == Counted(cs[..i], test) + if Holds(test, cs[i]) then 1 else 0
  {
    assert cs[..i + 1][..i] == cs[..i];
  }

  /** The closure that Dashboard passes to scan. */
  method Visit(c: Contact, now: Time, before: Summary) returns (s: Summary)
    ensures s.unread == before.unread + if Holds(InState(New), c) then 1 else 0
    ensures s.read == before.read + if Holds(InState(Read), c) then 1 else 0
    ensures s.archived == before.archived + if Holds(InState(Archived), c) then 1 else 0
    ensures s.deletionScheduled == before.deletionScheduled + if Holds(Scheduled, c) then 1 else 0
    ensures s.retentionReview == before.retentionReview + if Holds(ToReview(now), c) then 1 else 0
  {
    s := before;
    match c.state {
      case New => s := s.(unread := s.unread + 1);
      case Read => s := s.(read := s.read + 1);
      case Archived => s := s.(archived := s.archived + 1);
    }
    if c.deletionDueAt.Some? {
      s := s.(deletionScheduled := s.deletionScheduled + 1);
    }
    if c.reviewDueAt <= now {
      s := s.(retentionReview := s.retentionReview + 1);
    }
  }

  /** service.Dashboard: every count is the number of such contacts. */
  method Dashboard(repository: Repository, now: Time) returns (summary: Summary)
    requires Valid(repository.contacts)
    ensures summary == Summarised(repository.contacts, now)
    ensures var m := repository.contacts;
            && summary.unread == |set id | id in m && m[id].state == New|
            && summary.read == |set id | id in m && m[id].state == Read|
            && summary.archived == |set id | id in m && m[id].state == Archived|
            && summary.deletionScheduled == |set id | id in m && m[id].deletionDueAt != None|
            && summary.retentionReview == |set id | id in m && !(now < m[id].reviewDueAt)|
  {
    SummaryIs(repository.contacts, now);
    hide Holds;
    hide Counted;
    hide Those;
    var visited := Scan(repository);
    summary := Summary(0, 0, 0, 0, 0);
    NoneCounted();
    assert visited[..0] == [];
    for i := 0 to |visited|
      invariant summary.unread == Counted(visited[..i], InState(New))
      invariant summary.read == Counted(visited[..i], InState(Read))
      invariant summary.archived == Counted(visited[..i], InState(Archived))
      invariant summary.deletionScheduled == Counted(visited[..i], Scheduled)
      invariant summary.retentionReview == Counted(visited[..i], ToReview(now))
    {
      CountedNext(visited, i, InState(New));
      CountedNext(visited, i, InState(Read));
      CountedNext(visited, i, InState(Archived));
      CountedNext(visited, i, Scheduled);
      CountedNext(visited, i, ToReview(now));
      summary := Visit(visited[i], now, summary);
    }
    assert visited[..|visited|] == visited;
    ScanCounts(repository.contacts, visited, InState(New));
    ScanCounts(repository.contacts, visited, InState(Read));
    ScanCounts(repository.contacts, visited, InState(Archived));
    ScanCounts(repository.contacts, visited, Scheduled);
    ScanCounts(repository.contacts, visited, ToReview(now));
  }

  lemma NoneCounted()
    ensures forall test :: Counted([], test) == 0
  {
  }
}
