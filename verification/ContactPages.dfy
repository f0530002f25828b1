/**
  The contact listing of the Azure repository, whose cursor holds both the last
  contact seen and the service's continuation, and what a client sees that
  follows the cursors while others change the contacts.
  internal/storage/azure/contacts.go, contact_cursor.go.
 */
module ContactPages {
  import opened Outcomes
  import opened ArticleModel
  import opened Paging
  import opened Contacts

  /** boundary is the last contact scanned, following the position where the service continues. */
  datatype Cursor = Cursor(boundary: Pos, following: Pos)

  /** The cursors that List hands out: the service continues behind the boundary. */
  predicate CursorOk(cursor: Option<Cursor>) {
    cursor.Some? ==> Before(ORDER, cursor.value.boundary, cursor.value.following)
  }

  function CutOf(cursor: Option<Cursor>, whenNone: Cut): Cut {
    if cursor.Some? then UpTo(cursor.value.following) else whenNone
  }

  /** The contacts in the order of their row keys. */
  predicate InOrder(rows: seq<Contact>) {
    forall i, j | 0 <= i < j < |rows| :: Before(ORDER, PosOf(rows[i]), PosOf(rows[j]))
  }

  ghost function Stored(rows: seq<Contact>): set<Pos> {
    set c | c in rows :: PosOf(c)
  }

  // ----- The service -----

  /** What one call of ListPage returns: size rows from start on, and the continuation. */
  datatype Served = Served(start: nat, size: nat, following: Option<Pos>)

  /** The first n rows are exactly those before the position. */
  ghost predicate Splits(rows: seq<Contact>, n: nat, p: Pos) {
    forall i | 0 <= i < |rows| :: i < n <==> Before(ORDER, PosOf(rows[i]), p)
  }

  /**
    The service's promise: it starts at the continuation, returns at most as many
    rows as asked, perhaps none, and its own continuation lies behind them. It
    may give one though no rows are left.
   */
  ghost predicate ServedOk(rows: seq<Contact>, cursor: Option<Cursor>, limit: nat, s: Served) {
    && s.start + s.size <= |rows| && s.size <= limit
    && (if cursor.Some? then Splits(rows, s.start, cursor.value.following) else s.start == 0)
    && (if s.following.Some? then Splits(rows, s.start + s.size, s.following.value) else s.start + s.size == |rows|)
    && (cursor.Some? && s.following.Some? ==> !Before(ORDER, s.following.value, cursor.value.following))
  }

  // ----- List -----

  /** The contacts beyond the boundary. */
  function Beyonds(page: seq<Contact>, boundary: Option<Pos>): seq<Item<Contact>> {
    if page == [] then []
    else
      var n := |page| - 1;
      Beyonds(page[..n], boundary) + if AfterCursor(ORDER, boundary, PosOf(page[n])) then [ItemOf(page[n])] else []
  }

  function BoundaryOf(cursor: Option<Cursor>): Option<Pos> {
    if cursor.Some? then Some(cursor.value.boundary) else None
  }

  /** The last position scanned. */
  function LastOf(scanned: seq<Item<Contact>>, otherwise: Option<Pos>): Option<Pos> {
    if scanned == [] then otherwise else Some(scanned[|scanned| - 1].pos)
  }

  /** List fails exactly when the service makes no progress, or has a continuation but no contact to start a cursor with. */
  predicate Fails(cursor: Option<Cursor>, s: Served, scanned: seq<Item<Contact>>) {
    s.following.Some? &&
    ((cursor.Some? && s.following.value == cursor.value.following) || LastOf(scanned, BoundaryOf(cursor)).None?)
  }

  lemma BeyondsMore(page: seq<Contact>, i: nat, boundary: Option<Pos>)
    requires i < |page|
    ensures Beyonds(page[..i + 1], boundary) ==
            Beyonds(page[..i], boundary) + if AfterCursor(ORDER, boundary, PosOf(page[i])) then [ItemOf(page[i])] else []
  {
    assert page[..i + 1][..i] == page[..i];
  }

  lemma {:induction false} MatchingMore(f: Filter, now: Time, scanned: seq<Item<Contact>>, x: Item<Contact>)
    ensures Matching(f, now, scanned + [x]) == Matching(f, now, scanned) + if Matches(f, now, x.value) then [x.value] else []
  {
    if scanned == [] {
      assert [] + [x] == [x] && [x][1..] == [];
    } else {
      assert (scanned + [x])[0] == scanned[0] && (scanned + [x])[1..] == scanned[1..] + [x];
      MatchingMore(f, now, scanned[1..], x);
    }
  }

  /** What List returns without an error: those of the scanned contacts that match, and a cursor exactly for a continuation. */
  ghost predicate Lists(rows: seq<Contact>, s: Served, f: Filter, now: Time, cursor: Option<Cursor>,
                        items: seq<Contact>, next: Option<Cursor>, scanned: seq<Item<Contact>>) {
    && s.start + s.size <= |rows| && scanned == Beyonds(rows[s.start..s.start + s.size], BoundaryOf(cursor))
    && !Fails(cursor, s, scanned) && items == Matching(f, now, scanned)
    && next == if s.following.Some? then Some(Cursor(LastOf(scanned, BoundaryOf(cursor)).value, s.following.value)) else None
  }

  /** List, for any cursor a caller may send; s is the service's answer. */
  method List(rows: seq<Contact>, s: Served, f: Filter, now: Time, cursor: Option<Cursor>, ghost limit: nat)
    returns (items: seq<Contact>, next: Option<Cursor>, error: Option<Error>, ghost scanned: seq<Item<Contact>>)
    requires ServedOk(rows, cursor, limit, s)
    ensures error.Some? <==> Fails(cursor, s, Beyonds(rows[s.start..s.start + s.size], BoundaryOf(cursor)))
    ensures error.Some? ==> error == Some(Storage) && items == [] && next == None
    ensures error.None? ==> Lists(rows, s, f, now, cursor, items, next, scanned)
    ensures next.Some? ==>
              && s.following == Some(next.value.following)
              && if scanned != [] then next.value.boundary == scanned[|scanned| - 1].pos
                 else cursor.Some? && next.value.boundary == cursor.value.boundary
  {
    items, next, error, scanned := [], None, None, [];
    if s.following.Some? && cursor.Some? && s.following.value == cursor.value.following {
      return [], None, Some(Storage), [];
    }
    var page := rows[s.start..s.start + s.size];
    var boundary := BoundaryOf(cursor);
    for i := 0 to |page|
      invariant scanned == Beyonds(page[..i], BoundaryOf(cursor)) && items == Matching(f, now, scanned)
      invariant boundary == LastOf(scanned, BoundaryOf(cursor))
    {
      BeyondsMore(page, i, BoundaryOf(cursor));
      if cursor.None? || Before(ORDER, cursor.value.boundary, PosOf(page[i])) {
        MatchingMore(f, now, scanned, ItemOf(page[i]));
        scanned := scanned + [ItemOf(page[i])];
        boundary := Some(PosOf(page[i]));
        if Matches(f, now, page[i]) {
          items := items + [page[i]];
        }
      }
    }
    assert page[..|page|] == page;
    if s.following.Some? {
      if boundary.None? {
        return [], None, Some(Storage), scanned;
      }
      next := Some(Cursor(boundary.value, s.following.value));
    }
  }

  /** What is scanned of a page, for any cursor: exactly the contacts beyond its boundary, in their order. */
  lemma {:induction false} ScansExactly(page: seq<Contact>, boundary: Option<Pos>)
    requires InOrder(page)
    ensures forall c :: ItemOf(c) in Beyonds(page, boundary) <==> c in page && (boundary == None || Before(ORDER, boundary.value, PosOf(c)))
    ensures forall x | x in Beyonds(page, boundary) :: x == ItemOf(x.value)
    ensures Sorted(ORDER, Beyonds(page, boundary))
  {
    if page != [] {
      var n := |page| - 1;
      ScansExactly(page[..n], boundary);
      assert page == page[..n] + [page[n]];
      var before := Beyonds(page[..n], boundary);
      forall k | 0 <= k < |before| ensures Before(ORDER, before[k].pos, PosOf(page[n])) {
        assert before[k] in before && ItemOf(before[k].value) in before;
        assert before[k].value in page[..n];
        var i :| 0 <= i < n && page[i] == before[k].value;
      }
    }
  }

  // ----- Pages as steps of a traversal -----

  /** Behind a cursor that List handed out, nothing is filtered away. */
  lemma {:induction false} NothingSkipped(page: seq<Contact>, boundary: Option<Pos>)
    requires forall c | c in page :: AfterCursor(ORDER, boundary, PosOf(c))
    ensures Beyonds(page, boundary) == seq(|page|, i requires 0 <= i < |page| => ItemOf(page[i]))
  {
    if page != [] {
      var n := |page| - 1;
      assert page[n] in page;
      NothingSkipped(page[..n], boundary);
    }
  }

  lemma BehindBoundary(rows: seq<Contact>, cursor: Option<Cursor>, limit: nat, s: Served)
    requires InOrder(rows) && CursorOk(cursor) && ServedOk(rows, cursor, limit, s)
    ensures forall i | s.start <= i < |rows| :: AfterCursor(ORDER, BoundaryOf(cursor), PosOf(rows[i]))
  {
    if cursor.Some? {
      forall i | s.start <= i < |rows| ensures Before(ORDER, cursor.value.boundary, PosOf(rows[i])) {
        BeforeTotal(ORDER, PosOf(rows[i]), cursor.value.following);
        if PosOf(rows[i]) != cursor.value.following {
          BeforeTransitive(ORDER, cursor.value.boundary, cursor.value.following, PosOf(rows[i]));
        }
      }
    }
  }

  /** With such a cursor, List fails exactly on a continuation that is the old one, or on a first page without contacts that has one. */
  lemma FailsExactly(rows: seq<Contact>, cursor: Option<Cursor>, limit: nat, s: Served)
    requires InOrder(rows) && CursorOk(cursor) && ServedOk(rows, cursor, limit, s)
    ensures Fails(cursor, s, Beyonds(rows[s.start..s.start + s.size], BoundaryOf(cursor))) <==>
            s.following.Some? && s.size == 0 &&
            (cursor.None? || s.following.value == cursor.value.following)
  {
    var page := rows[s.start..s.start + s.size];
    BehindBoundary(rows, cursor, limit, s);
    NothingSkipped(page, BoundaryOf(cursor));
    if s.following.Some? && cursor.Some? && s.following.value == cursor.value.following {
      SplitOnce(rows, s.start, s.start + s.size, s.following.value);
    }
  }

  lemma SplitOnce(rows: seq<Contact>, n: nat, m: nat, p: Pos)
    requires Splits(rows, n, p) && Splits(rows, m, p) && n <= m <= |rows|
    ensures n == m
  {
    assert n < |rows| ==> (Before(ORDER, PosOf(rows[n]), p) <==> n < m);
  }

  /** What List scans lies exactly between the two cursors, and its cursor is again of that kind. */
  lemma ListSpans(rows: seq<Contact>, s: Served, f: Filter, now: Time, cursor: Option<Cursor>, limit: nat,
                  items: seq<Contact>, next: Option<Cursor>, scanned: seq<Item<Contact>>)
    requires InOrder(rows) && CursorOk(cursor) && ServedOk(rows, cursor, limit, s)
    requires Lists(rows, s, f, now, cursor, items, next, scanned)
    ensures CursorOk(next)
    ensures Positions(scanned) == PagePos(rows, s)
    ensures Spans(ORDER, Positions(scanned), Stored(rows), CutOf(cursor, Beginning), CutOf(next, Everything))
    ensures Advances(ORDER, CutOf(cursor, Beginning), CutOf(next, Everything))
  {
    var page := rows[s.start..s.start + s.size];
    BehindBoundary(rows, cursor, limit, s);
    NothingSkipped(page, BoundaryOf(cursor));
    NextOk(rows, s, cursor, limit);
    PageSpans(rows, s, cursor, limit);
  }

  function PagePos(rows: seq<Contact>, s: Served): (r: seq<Pos>)
    requires s.start + s.size <= |rows|
    ensures |r| == s.size && forall i | 0 <= i < s.size :: r[i] == PosOf(rows[s.start + i])
  {
    seq(s.size, i requires 0 <= i < s.size => PosOf(rows[s.start + i]))
  }

  lemma NextOk(rows: seq<Contact>, s: Served, cursor: Option<Cursor>, limit: nat)
    requires InOrder(rows) && CursorOk(cursor) && ServedOk(rows, cursor, limit, s)
    ensures s.following.Some? && s.size > 0 ==> Before(ORDER, PosOf(rows[s.start + s.size - 1]), s.following.value)
    ensures s.following.Some? && cursor.Some? ==> Before(ORDER, cursor.value.boundary, s.following.value)
  {
    if s.following.Some? && cursor.Some? {
      BeforeTotal(ORDER, s.following.value, cursor.value.following);
      if s.following.value != cursor.value.following {
        BeforeTransitive(ORDER, cursor.value.boundary, cursor.value.following, s.following.value);
      }
    }
  }

  function ServedCut(s: Served): Cut {
    if s.following.Some? then UpTo(s.following.value) else Everything
  }

  lemma PageSpans(rows: seq<Contact>, s: Served, cursor: Option<Cursor>, limit: nat)
    requires InOrder(rows) && ServedOk(rows, cursor, limit, s)
    ensures Spans(ORDER, PagePos(rows, s), Stored(rows), CutOf(cursor, Beginning), ServedCut(s))
    ensures Advances(ORDER, CutOf(cursor, Beginning), ServedCut(s))
  {
    var from, to, page := CutOf(cursor, Beginning), ServedCut(s), PagePos(rows, s);
    forall p ensures p in page <==> p in Stored(rows) && !Passed(ORDER, from, p) && Passed(ORDER, to, p) {
      InPage(rows, s, cursor, limit, p);
    }
    hide ServedOk;
    hide Stored;
    if cursor.Some? && s.following.Some? {
      ServedAdvances(rows, s, cursor, limit);
    }
  }

  lemma ServedAdvances(rows: seq<Contact>, s: Served, cursor: Option<Cursor>, limit: nat)
    requires ServedOk(rows, cursor, limit, s) && cursor.Some? && s.following.Some?
    ensures Advances(ORDER, UpTo(cursor.value.following), UpTo(s.following.value))
  {
    hide Splits;
    forall p | Before(ORDER, p, cursor.value.following) ensures Before(ORDER, p, s.following.value) {
      BeforeTotal(ORDER, s.following.value, cursor.value.following);
      if s.following.value != cursor.value.following {
        BeforeTransitive(ORDER, p, cursor.value.following, s.following.value);
      }
    }
  }

  /** Where a row lies, in terms of the two cuts. */
  lemma RowCut(rows: seq<Contact>, s: Served, cursor: Option<Cursor>, limit: nat, i: nat)
    requires ServedOk(rows, cursor, limit, s) && i < |rows|
    ensures Passed(ORDER, CutOf(cursor, Beginning), PosOf(rows[i])) <==> i < s.start
    ensures Passed(ORDER, ServedCut(s), PosOf(rows[i])) <==> i < s.start + s.size
  {
  }

  lemma InPage(rows: seq<Contact>, s: Served, cursor: Option<Cursor>, limit: nat, p: Pos)
    requires ServedOk(rows, cursor, limit, s)
    ensures p in PagePos(rows, s) <==>
            p in Stored(rows) && !Passed(ORDER, CutOf(cursor, Beginning), p) && Passed(ORDER, ServedCut(s), p)
  {
    var page := PagePos(rows, s);
    if p in page {
      var k :| 0 <= k < |page| && page[k] == p;
      assert rows[s.start + k] in rows;
      RowCut(rows, s, cursor, limit, s.start + k);
    }
    if p in Stored(rows) {
      var c :| c in rows && PosOf(c) == p;
      var i :| 0 <= i < |rows| && rows[i] == c;
      RowCut(rows, s, cursor, limit, i);
      assert s.start <= i < s.start + s.size ==> page[i - s.start] == p;
    }
  }

  // ----- Following the cursors -----

  /** One call while the contacts were rows. */
  datatype Visit = Visit(rows: seq<Contact>, served: Served, limit: nat, now: Time,
                         items: seq<Contact>, next: Option<Cursor>, scanned: seq<Item<Contact>>)

  function CursorBefore(visits: seq<Visit>, i: nat): Option<Cursor>
    requires i <= |visits|
  {
    if i == 0 then None else visits[i - 1].next
  }

  ghost predicate VisitOk(visits: seq<Visit>, f: Filter, i: nat)
    requires i < |visits|
  {
    var v, cursor := visits[i], CursorBefore(visits, i);
    && InOrder(v.rows) && ServedOk(v.rows, cursor, v.limit, v.served)
    && Lists(v.rows, v.served, f, v.now, cursor, v.items, v.next, v.scanned)
  }

  /** A client lists from the start, hands each cursor to the next call, and stops when there is none. */
  ghost predicate FollowsContacts(visits: seq<Visit>, f: Filter) {
    && visits != [] && visits[|visits| - 1].next.None?
    && (forall i | 0 <= i < |visits| - 1 :: visits[i].next.Some?)
    && (forall i | 0 <= i < |visits| :: VisitOk(visits, f, i))
  }

  function VisitPages(visits: seq<Visit>): (r: seq<seq<Pos>>)
    ensures |r| == |visits| && forall i | 0 <= i < |r| :: r[i] == Positions(visits[i].scanned)
  {
    seq(|visits|, i requires 0 <= i < |visits| => Positions(visits[i].scanned))
  }

  ghost function VisitStates(visits: seq<Visit>): (r: seq<set<Pos>>)
    ensures |r| == |visits| && forall i | 0 <= i < |r| :: r[i] == Stored(visits[i].rows)
  {
    seq(|visits|, i requires 0 <= i < |visits| => Stored(visits[i].rows))
  }

  function VisitCuts(visits: seq<Visit>): (r: seq<Cut>)
    ensures |r| == |visits| + 1 && r[0] == Beginning && forall i | 0 < i < |r| :: r[i] == CutOf(visits[i - 1].next, Everything)
  {
    seq(|visits| + 1, i requires 0 <= i <= |visits| => if i == 0 then Beginning else CutOf(visits[i - 1].next, Everything))
  }

  lemma {:induction false} CursorsOk(visits: seq<Visit>, f: Filter, i: nat)
    requires FollowsContacts(visits, f) && i <= |visits|
    ensures CursorOk(CursorBefore(visits, i))
    decreases i
  {
    assert i == 0 ==> CursorOk(CursorBefore(visits, i));
    hide Lists;
    hide ServedOk;
    hide CursorOk;
    if i > 0 {
      CursorsOk(visits, f, i - 1);
      var v := visits[i - 1];
      assert VisitOk(visits, f, i - 1);
      ListSpans(v.rows, v.served, f, v.now, CursorBefore(visits, i - 1), v.limit, v.items, v.next, v.scanned);
    }
  }

  lemma VisitStep(visits: seq<Visit>, f: Filter, i: nat)
    requires FollowsContacts(visits, f) && i < |visits|
    ensures TraversalStep(ORDER, VisitPages(visits), VisitStates(visits), VisitCuts(visits), i)
  {
    hide Lists;
    hide ServedOk;
    hide CursorOk;
    hide Spans;
    hide Advances;
    CursorsOk(visits, f, i);
    var v := visits[i];
    assert VisitOk(visits, f, i);
    ListSpans(v.rows, v.served, f, v.now, CursorBefore(visits, i), v.limit, v.items, v.next, v.scanned);
    assert VisitCuts(visits)[i] == CutOf(CursorBefore(visits, i), Beginning);
  }

  lemma FollowsIsTraversal(visits: seq<Visit>, f: Filter)
    requires FollowsContacts(visits, f)
    ensures Traversal(ORDER, VisitPages(visits), VisitStates(visits), VisitCuts(visits))
  {
    hide TraversalStep;
    hide VisitOk;
    forall i | 0 <= i < |visits| ensures TraversalStep(ORDER, VisitPages(visits), VisitStates(visits), VisitCuts(visits), i) {
      VisitStep(visits, f, i);
    }
  }

  /**
    Following the cursors to the end while others create, change and delete
    contacts: every contact that stays is scanned exactly once, and nothing twice.
   */
  lemma LastingScannedOnce(visits: seq<Visit>, f: Filter, p: Pos)
    requires FollowsContacts(visits, f) && forall i | 0 <= i < |visits| :: p in Stored(visits[i].rows)
    ensures VisitedOnce(VisitPages(visits), p)
  {
    FollowsIsTraversal(visits, f);
    hide FollowsContacts;
    StableVisitedOnce(ORDER, VisitPages(visits), VisitStates(visits), VisitCuts(visits), p);
  }

  lemma ScannedInOrder(visits: seq<Visit>, f: Filter, i: nat, j: nat, p: Pos, q: Pos)
    requires FollowsContacts(visits, f) && i < j < |visits|
    requires p in Positions(visits[i].scanned) && q in Positions(visits[j].scanned)
    ensures Before(ORDER, p, q) && p != q
  {
    FollowsIsTraversal(visits, f);
    VisitedInOrder(ORDER, VisitPages(visits), VisitStates(visits), VisitCuts(visits), i, j, p, q);
  }

  /** The contacts that a page lists are those it scanned that match. */
  lemma ItemScanned(visits: seq<Visit>, f: Filter, i: nat, c: Contact)
    requires FollowsContacts(visits, f) && i < |visits|
    ensures c in visits[i].items ==> PosOf(c) in Positions(visits[i].scanned)
    ensures PosOf(c) in Positions(visits[i].scanned) && c in visits[i].rows && Matches(f, visits[i].now, c) ==> c in visits[i].items
  {
    var v := visits[i];
    assert VisitOk(visits, f, i);
    CursorsOk(visits, f, i);
    hide ServedOk;
    BeyondsOf(v.rows, v.served, f, v.now, CursorBefore(visits, i), v.limit, v.items, v.next, v.scanned);
    MatchingIn(f, v.now, v.scanned);
    if c in v.items {
      var x :| x in v.scanned && x.value == c;
      var k :| 0 <= k < |v.scanned| && v.scanned[k] == x;
      assert Positions(v.scanned)[k] == PosOf(c);
    }
    if PosOf(c) in Positions(v.scanned) && c in v.rows {
      var k :| 0 <= k < |v.scanned| && Positions(v.scanned)[k] == PosOf(c);
      SamePosSame(v.rows, c, v.scanned[k].value);
    }
  }

  lemma BeyondsOf(rows: seq<Contact>, s: Served, f: Filter, now: Time, cursor: Option<Cursor>, limit: nat,
                  items: seq<Contact>, next: Option<Cursor>, scanned: seq<Item<Contact>>)
    requires InOrder(rows) && CursorOk(cursor) && ServedOk(rows, cursor, limit, s)
    requires Lists(rows, s, f, now, cursor, items, next, scanned)
    ensures forall k | 0 <= k < |scanned| :: scanned[k] == ItemOf(scanned[k].value) && scanned[k].value in rows
    ensures items == Matching(f, now, scanned)
  {
    BehindBoundary(rows, cursor, limit, s);
    NothingSkipped(rows[s.start..s.start + s.size], BoundaryOf(cursor));
  }

  lemma SamePosSame(rows: seq<Contact>, c: Contact, d: Contact)
    requires InOrder(rows) && c in rows && d in rows && PosOf(c) == PosOf(d)
    ensures c == d
  {
    var i :| 0 <= i < |rows| && rows[i] == c;
    var j :| 0 <= j < |rows| && rows[j] == d;
    OnePlace(rows, i, j);
  }

  lemma OnePlace(rows: seq<Contact>, i: nat, j: nat)
    requires InOrder(rows) && i < |rows| && j < |rows|
    ensures PosOf(rows[i]) == PosOf(rows[j]) ==> i == j
  {
    BeforeTotal(ORDER, PosOf(rows[i]), PosOf(rows[i]));
    if i < j {
      assert Before(ORDER, PosOf(rows[i]), PosOf(rows[j]));
    } else if j < i {
      assert Before(ORDER, PosOf(rows[j]), PosOf(rows[i]));
    }
  }

  /**
    What the client is given: a contact that stays as it is and matches the whole
    time is on exactly one page.
   */
  lemma LastingListedOnce(visits: seq<Visit>, f: Filter, c: Contact)
    requires FollowsContacts(visits, f)
    requires forall i | 0 <= i < |visits| :: c in visits[i].rows && Matches(f, visits[i].now, c)
    ensures exists i :: 0 <= i < |visits| && c in visits[i].items && forall j | 0 <= j < |visits| && c in visits[j].items :: j == i
  {
    forall i | 0 <= i < |visits| ensures PosOf(c) in Stored(visits[i].rows) {
      assert c in visits[i].rows;
    }
    LastingScannedOnce(visits, f, PosOf(c));
    var pages := VisitPages(visits);
    var i, k :| 0 <= i < |pages| && 0 <= k < |pages[i]| && pages[i][k] == PosOf(c)
      && forall i', k' | 0 <= i' < |pages| && 0 <= k' < |pages[i']| && pages[i'][k'] == PosOf(c) :: i' == i && k' == k;
    ItemScanned(visits, f, i, c);
    forall j | 0 <= j < |visits| && c in visits[j].items ensures j == i {
      ItemScanned(visits, f, j, c);
      var k' :| 0 <= k' < |pages[j]| && pages[j][k'] == PosOf(c);
    }
  }
}
