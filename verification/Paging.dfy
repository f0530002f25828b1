/**
  Keyset paging: the order of listings, what a page is, and what a client sees
  that follows cursors to the end while other clients change the stored set.
  internal/storage/memory/articles.go, contacts.go and cursor.go,
  internal/storage/azure/articles.go and contacts.go.
 */
module Paging {
  import opened Outcomes
  import opened ArticleModel
  import opened RowKeys

  /** What listings sort by; it never changes for an ID. */
  datatype Pos = Pos(createdAt: Time, id: string)

  /** Articles list the greatest ID of one instant first, contacts the least. */
  datatype Order = GreatestIdFirst | LeastIdFirst

  datatype Item<T> = Item(pos: Pos, value: T)

  predicate Before(o: Order, p: Pos, q: Pos) {
    p.createdAt > q.createdAt ||
    (p.createdAt == q.createdAt && if o.GreatestIdFirst? then Less(q.id, p.id) else Less(p.id, q.id))
  }

  lemma BeforeTotal(o: Order, p: Pos, q: Pos)
    ensures p == q || Before(o, p, q) || Before(o, q, p)
    ensures !(Before(o, p, q) && Before(o, q, p)) && !Before(o, p, p)
  {
    LessTotal(p.id, q.id);
    LessTotal(p.id, p.id);
  }

  lemma BeforeTransitive(o: Order, p: Pos, q: Pos, r: Pos)
    requires Before(o, p, q) && Before(o, q, r)
    ensures Before(o, p, r)
  {
    if p.createdAt == q.createdAt == r.createdAt {
      if o.GreatestIdFirst? {
        LessTransitive(r.id, q.id, p.id);
      } else {
        LessTransitive(p.id, q.id, r.id);
      }
    }
  }

  /** boundedLimit */
  method BoundedLimit(limit: int) returns (r: Result<nat>)
    ensures r.Err? <==> limit < 0
    ensures r.Err? ==> r.error == Validation
    ensures r.Ok? ==> 1 <= r.value <= 100 && (1 <= limit <= 100 ==> r.value == limit)
    ensures limit == 0 ==> r == Ok(25)
    ensures limit > 100 ==> r == Ok(100)
  {
    if limit < 0 { return Err(Validation); }
    if limit == 0 { return Ok(25); }
    if limit > 100 { return Ok(100); }
    return Ok(limit);
  }

  // ----- Pages -----

  ghost predicate Sorted<T>(o: Order, s: seq<Item<T>>) {
    forall i, j | 0 <= i < j < |s| :: Before(o, s[i].pos, s[j].pos)
  }

  ghost predicate UniqueIds<T>(s: set<Item<T>>) {
    forall x, y | x in s && y in s && x.pos.id == y.pos.id :: x == y
  }

  /** top holds the first n items of s, or all of them, in order. */
  ghost predicate IsTop<T>(o: Order, top: seq<Item<T>>, s: set<Item<T>>, n: nat) {
    && Sorted(o, top) && |top| <= n
    && (forall x | x in top :: x in s)
    && (forall x | x in s && x !in top :: |top| == n && forall i | 0 <= i < |top| :: Before(o, top[i].pos, x.pos))
  }

  predicate AfterCursor(o: Order, cursor: Option<Pos>, p: Pos) {
    cursor.None? || Before(o, cursor.value, p)
  }

  ghost function Beyond<T>(o: Order, s: set<Item<T>>, cursor: Option<Pos>): set<Item<T>> {
    set x | x in s && AfterCursor(o, cursor, x.pos)
  }

  /** A page of the items s: the first of them, and a cursor at its last item unless nothing is left. */
  ghost predicate PageOf<T>(o: Order, items: seq<Item<T>>, next: Option<Pos>, s: set<Item<T>>, limit: nat) {
    && IsTop(o, items, s, limit)
    && (next.Some? ==> items != [] && next.value == items[|items| - 1].pos)
    && (next.None? ==> forall x | x in s :: x in items)
  }

  /** The page has a cursor exactly when something is left. */
  ghost predicate ExactPage<T>(o: Order, items: seq<Item<T>>, next: Option<Pos>, s: set<Item<T>>, limit: nat) {
    PageOf(o, items, next, s, limit) && (next.Some? <==> exists x :: x in s && x !in items)
  }

  lemma TopHead<T>(o: Order, top: seq<Item<T>>, s: set<Item<T>>, n: nat)
    requires IsTop(o, top, s, n) && top != []
    ensures forall x | x in s && x != top[0] :: Before(o, top[0].pos, x.pos)
    ensures IsTop(o, top[1..], s - {top[0]}, n - 1)
  {
    forall x | x in s && x != top[0] ensures Before(o, top[0].pos, x.pos) {
      if x in top {
        var i :| 0 <= i < |top| && top[i] == x;
      }
    }
    forall x | x in top[1..] ensures x in s - {top[0]} {
      BeforeTotal(o, top[0].pos, top[0].pos);
      var i :| 0 <= i < |top[1..]| && top[1..][i] == x;
      assert Before(o, top[0].pos, top[i + 1].pos);
    }
    forall x | x in s - {top[0]} && x !in top[1..]
      ensures |top[1..]| == n - 1 && forall i | 0 <= i < |top[1..]| :: Before(o, top[1..][i].pos, x.pos)
    {
      assert top == [top[0]] + top[1..];
    }
  }

  /** A page is empty only when nothing is wanted or nothing is there. */
  lemma TopEmptyIff<T>(o: Order, top: seq<Item<T>>, s: set<Item<T>>, n: nat)
    requires IsTop(o, top, s, n)
    ensures top == [] <==> n == 0 || s == {}
  {
    if top != [] {
      assert top[0] in top;
    } else if s != {} {
      var x :| x in s;
      assert x !in top;
    }
  }

  /** The first n items are determined: two listings of one set return the same page. */
  lemma {:induction false} TopUnique<T>(o: Order, top: seq<Item<T>>, top': seq<Item<T>>, s: set<Item<T>>, n: nat)
    requires IsTop(o, top, s, n) && IsTop(o, top', s, n)
    ensures top == top'
    decreases |top|
  {
    TopEmptyIff(o, top, s, n);
    TopEmptyIff(o, top', s, n);
    if top != [] {
      TopHead(o, top, s, n);
      TopHead(o, top', s, n);
      BeforeTotal(o, top[0].pos, top'[0].pos);
      assert top[0] in s && top'[0] in s;
      TopUnique(o, top[1..], top'[1..], s - {top[0]}, n - 1);
      assert top == [top[0]] + top[1..] && top' == [top'[0]] + top'[1..];
    }
  }

  // ----- Sorting -----

  /** sort.Slice by the listing order, for items at different positions. */
  method SortItems<T(==)>(o: Order, items: seq<Item<T>>) returns (sorted: seq<Item<T>>)
    requires forall i, j | 0 <= i < j < |items| :: items[i].pos != items[j].pos
    ensures Sorted(o, sorted) && multiset(sorted) == multiset(items)
  {
    sorted := [];
    for n := 0 to |items|
      invariant Sorted(o, sorted) && multiset(sorted) == multiset(items[..n])
    {
      assert items[..n + 1] == items[..n] + [items[n]];
      forall i | 0 <= i < |sorted| ensures sorted[i].pos != items[n].pos {
        assert sorted[i] in multiset(sorted);
        var j :| 0 <= j < n && items[..n][j] == sorted[i];
      }
      sorted := InsertItem(o, sorted, items[n]);
    }
    assert items[..|items|] == items;
  }

  method InsertItem<T>(o: Order, sorted: seq<Item<T>>, x: Item<T>) returns (r: seq<Item<T>>)
    requires Sorted(o, sorted) && forall i | 0 <= i < |sorted| :: sorted[i].pos != x.pos
    ensures Sorted(o, r) && multiset(r) == multiset(sorted) + multiset{x}
  {
    var at := 0;
    while at < |sorted| && Before(o, sorted[at].pos, x.pos)
      invariant 0 <= at <= |sorted|
      invariant forall i | 0 <= i < at :: Before(o, sorted[i].pos, x.pos)
    {
      at := at + 1;
    }
    forall i | at <= i < |sorted| ensures Before(o, x.pos, sorted[i].pos) {
      BeforeTotal(o, x.pos, sorted[at].pos);
      if i > at {
        BeforeTransitive(o, x.pos, sorted[at].pos, sorted[i].pos);
      }
    }
    r := sorted[..at] + [x] + sorted[at..];
    assert sorted == sorted[..at] + sorted[at..];
  }

  // ----- Listing everything in memory -----

  ghost function Elements<T>(s: seq<T>): set<T> {
    set x | x in s
  }

  ghost predicate AllDifferent<T>(stored: seq<Item<T>>) {
    forall i, j | 0 <= i < j < |stored| :: stored[i].pos.id != stored[j].pos.id
  }

  /**
    The memory repositories: copy what is stored in any order, sort it, start
    at the first item after the cursor and cut off at the limit.
   */
  method ListInMemory<T(==)>(o: Order, stored: seq<Item<T>>, cursor: Option<Pos>, limit: nat)
    returns (items: seq<Item<T>>, next: Option<Pos>)
    requires limit > 0 && AllDifferent(stored)
    ensures ExactPage(o, items, next, Beyond(o, Elements(stored), cursor), limit)
  {
    var sorted := SortItems(o, stored);
    SameElements(sorted, stored);
    var start := 0;
    if cursor.Some? {
      while start < |sorted| && !Before(o, cursor.value, sorted[start].pos)
        invariant 0 <= start <= |sorted|
        invariant forall i | 0 <= i < start :: !Before(o, cursor.value, sorted[i].pos)
      {
        start := start + 1;
      }
    }
    var end := if start + limit < |sorted| then start + limit else |sorted|;
    items := sorted[start..end];
    next := if end < |sorted| then Some(items[|items| - 1].pos) else None;
    SliceIsPage(o, sorted, start, end, stored, cursor, limit);
  }

  lemma SameElements<T>(a: seq<Item<T>>, b: seq<Item<T>>)
    requires multiset(a) == multiset(b)
    ensures forall x :: x in a <==> x in b
  {
    forall x ensures x in a <==> x in b {
      assert x in multiset(a) <==> x in multiset(b);
    }
  }

  ghost predicate StartsAt<T>(o: Order, sorted: seq<Item<T>>, cursor: Option<Pos>, start: nat) {
    && start <= |sorted|
    && (cursor.None? ==> start == 0)
    && (cursor.Some? ==> forall i | 0 <= i < start :: !Before(o, cursor.value, sorted[i].pos))
    && (cursor.Some? && start < |sorted| ==> Before(o, cursor.value, sorted[start].pos))
  }

  /** In a sorted list, the items beyond the cursor are those from the start index on. */
  lemma BeyondIsSuffix<T>(o: Order, sorted: seq<Item<T>>, stored: seq<Item<T>>, cursor: Option<Pos>, start: nat)
    requires Sorted(o, sorted) && (forall x :: x in sorted <==> x in stored) && StartsAt(o, sorted, cursor, start)
    ensures forall x :: x in Beyond(o, Elements(stored), cursor) <==> x in sorted[start..]
  {
    forall i | start <= i < |sorted| ensures AfterCursor(o, cursor, sorted[i].pos) {
      if cursor.Some? && i > start {
        BeforeTransitive(o, cursor.value, sorted[start].pos, sorted[i].pos);
      }
    }
    forall x | x in Beyond(o, Elements(stored), cursor) ensures x in sorted[start..] {
      var i :| 0 <= i < |sorted| && sorted[i] == x;
      assert i >= start && sorted[start..][i - start] == x;
    }
    forall x | x in sorted[start..] ensures x in Beyond(o, Elements(stored), cursor) {
      var i :| 0 <= i < |sorted[start..]| && sorted[start..][i] == x;
      assert sorted[start + i] == x && x in sorted;
    }
  }

  /** The first items of a sorted list are a page of its elements. */
  lemma PrefixIsPage<T>(o: Order, all: seq<Item<T>>, s: set<Item<T>>, end: nat, limit: nat)
    requires Sorted(o, all) && (forall x :: x in s <==> x in all)
    requires end <= |all| && limit > 0 && end == if limit < |all| then limit else |all|
    ensures ExactPage(o, all[..end], if end < |all| then Some(all[end - 1].pos) else None, s, limit)
  {
    var items := all[..end];
    forall x | x in s && x !in items ensures end == limit < |all| && forall i | 0 <= i < |items| :: Before(o, items[i].pos, x.pos) {
      var k :| 0 <= k < |all| && all[k] == x;
      assert forall i | 0 <= i < end :: all[i] in items;
    }
    if end < |all| {
      var x := all[end];
      forall i | 0 <= i < |items| ensures items[i] != x {
        assert Before(o, all[i].pos, all[end].pos);
        BeforeTotal(o, x.pos, x.pos);
      }
      assert x in s && x !in items;
    }
  }

  lemma SliceIsPage<T>(o: Order, sorted: seq<Item<T>>, start: nat, end: nat, stored: seq<Item<T>>,
                       cursor: Option<Pos>, limit: nat)
    requires Sorted(o, sorted) && (forall x :: x in sorted <==> x in stored) && StartsAt(o, sorted, cursor, start)
    requires end == (if start + limit < |sorted| then start + limit else |sorted|) && limit > 0
    ensures var items := sorted[start..end];
            ExactPage(o, items, if end < |sorted| then Some(items[|items| - 1].pos) else None,
                      Beyond(o, Elements(stored), cursor), limit)
  {
    hide ExactPage;
    BeyondIsSuffix(o, sorted, stored, cursor, start);
    var all := sorted[start..];
    assert all[..end - start] == sorted[start..end];
    PrefixIsPage(o, all, Beyond(o, Elements(stored), cursor), end - start, limit);
  }

  // ----- Physical pages -----

  function Flatten<T>(pages: seq<seq<T>>): seq<T> {
    if pages == [] then [] else Flatten(pages[..|pages| - 1]) + pages[|pages| - 1]
  }

  lemma {:induction false} FlattenPrefix<T>(pages: seq<seq<T>>, n: nat)
    requires n <= |pages|
    ensures |Flatten(pages[..n])| <= |Flatten(pages)| && Flatten(pages[..n]) == Flatten(pages)[..|Flatten(pages[..n])|]
    decreases |pages|
  {
    if n == |pages| {
      assert pages[..n] == pages;
    } else {
      var m := |pages| - 1;
      assert pages[..m][..n] == pages[..n];
      FlattenPrefix(pages[..m], n);
    }
  }

  lemma FlattenNext<T>(pages: seq<seq<T>>, p: nat)
    requires p < |pages|
    ensures Flatten(pages[..0]) == [] && Flatten(pages[..p + 1]) == Flatten(pages[..p]) + pages[p]
  {
    assert pages[..p + 1][..p] == pages[..p];
  }

  lemma ScannedPrefix<T>(pages: seq<seq<T>>, p: nat, i: nat)
    requires p < |pages| && i < |pages[p]|
    ensures var rows := Flatten(pages[..p]) + pages[p][..i];
            |rows| < |Flatten(pages)| && rows + [pages[p][i]] == Flatten(pages)[..|rows| + 1]
  {
    FlattenPrefix(pages, p + 1);
    assert pages[..p + 1][..p] == pages[..p];
    assert Flatten(pages[..p + 1]) == Flatten(pages[..p]) + pages[p];
    assert pages[p] == pages[p][..i] + [pages[p][i]] + pages[p][i + 1..];
  }

  // ----- Traversals -----

  /** How far a traversal has come: past a position, or up to but not including one. */
  datatype Cut = Beginning | Past(pos: Pos) | UpTo(pos: Pos) | Everything

  predicate Passed(o: Order, cut: Cut, p: Pos) {
    match cut
    case Beginning => false
    case Past(q) => p == q || Before(o, p, q)
    case UpTo(q) => Before(o, p, q)
    case Everything => true
  }

  /** What is passed is what comes first. */
  lemma PassedFirst(o: Order, cut: Cut, p: Pos, q: Pos)
    requires Passed(o, cut, p) && !Passed(o, cut, q)
    ensures Before(o, p, q)
  {
    BeforeTotal(o, p, q);
    if cut.Past? || cut.UpTo? {
      BeforeTotal(o, q, cut.pos);
      if Before(o, q, p) && Before(o, p, cut.pos) {
        BeforeTransitive(o, q, p, cut.pos);
      }
    }
  }

  /** The page lists, in order, exactly what the set holds between the two cuts. */
  ghost predicate Spans(o: Order, page: seq<Pos>, stored: set<Pos>, from: Cut, to: Cut) {
    && (forall i, j | 0 <= i < j < |page| :: Before(o, page[i], page[j]))
    && (forall p :: p in page <==> p in stored && !Passed(o, from, p) && Passed(o, to, p))
  }

  ghost predicate Advances(o: Order, from: Cut, to: Cut) {
    forall p | Passed(o, from, p) :: Passed(o, to, p)
  }

  ghost predicate TraversalStep(o: Order, pages: seq<seq<Pos>>, states: seq<set<Pos>>, cuts: seq<Cut>, i: nat)
    requires i < |pages| == |states| && |cuts| == |pages| + 1
  {
    Spans(o, pages[i], states[i], cuts[i], cuts[i + 1]) && Advances(o, cuts[i], cuts[i + 1])
  }

  /**
    A traversal to the end: page i was read while the set was states[i], the
    cursor between two pages being a cut. Others changed the set in between.
   */
  ghost predicate Traversal(o: Order, pages: seq<seq<Pos>>, states: seq<set<Pos>>, cuts: seq<Cut>) {
    && |states| == |pages| > 0 && |cuts| == |pages| + 1
    && cuts[0] == Beginning && cuts[|pages|] == Everything
    && (forall i | 0 <= i < |pages| :: TraversalStep(o, pages, states, cuts, i))
  }

  lemma {:induction false} CutsGrow(o: Order, pages: seq<seq<Pos>>, states: seq<set<Pos>>, cuts: seq<Cut>, i: nat, j: nat)
    requires Traversal(o, pages, states, cuts) && i <= j <= |pages|
    ensures Advances(o, cuts[i], cuts[j])
    decreases j
  {
    if i < j {
      CutsGrow(o, pages, states, cuts, i, j - 1);
      assert TraversalStep(o, pages, states, cuts, j - 1);
    }
  }

  /** Nothing is visited twice, and the pages follow each other in order. */
  lemma VisitedInOrder(o: Order, pages: seq<seq<Pos>>, states: seq<set<Pos>>, cuts: seq<Cut>, i: nat, j: nat, p: Pos, q: Pos)
    requires Traversal(o, pages, states, cuts) && i < j < |pages|
    requires p in pages[i] && q in pages[j]
    ensures Before(o, p, q) && p != q
  {
    assert TraversalStep(o, pages, states, cuts, i) && TraversalStep(o, pages, states, cuts, j);
    CutsGrow(o, pages, states, cuts, i + 1, j);
    PassedFirst(o, cuts[j], p, q);
    BeforeTotal(o, p, q);
  }

  lemma {:induction false} ReachedAt(o: Order, pages: seq<seq<Pos>>, states: seq<set<Pos>>, cuts: seq<Cut>, n: nat, p: Pos)
    requires Traversal(o, pages, states, cuts) && n <= |pages| && Passed(o, cuts[n], p)
    ensures exists i :: 0 <= i < n && !Passed(o, cuts[i], p) && Passed(o, cuts[i + 1], p)
  {
    assert n > 0;
    if Passed(o, cuts[n - 1], p) {
      ReachedAt(o, pages, states, cuts, n - 1, p);
    } else {
      assert Passed(o, cuts[n - 1 + 1], p);
    }
  }

  ghost predicate VisitedOnce(pages: seq<seq<Pos>>, p: Pos) {
    exists i, k :: 0 <= i < |pages| && 0 <= k < |pages[i]| && pages[i][k] == p
      && forall i', k' | 0 <= i' < |pages| && 0 <= k' < |pages[i']| && pages[i'][k'] == p :: i' == i && k' == k
  }

  /** Whatever is stored during the whole traversal is visited exactly once. */
  lemma StableVisitedOnce(o: Order, pages: seq<seq<Pos>>, states: seq<set<Pos>>, cuts: seq<Cut>, p: Pos)
    requires Traversal(o, pages, states, cuts)
    requires forall i | 0 <= i < |states| :: p in states[i]
    ensures VisitedOnce(pages, p)
  {
    ReachedAt(o, pages, states, cuts, |pages|, p);
    var i :| 0 <= i < |pages| && !Passed(o, cuts[i], p) && Passed(o, cuts[i + 1], p);
    assert TraversalStep(o, pages, states, cuts, i);
    assert p in pages[i];
    var k :| 0 <= k < |pages[i]| && pages[i][k] == p;
    forall i', k' | 0 <= i' < |pages| && 0 <= k' < |pages[i']| && pages[i'][k'] == p ensures i' == i && k' == k {
      if i' < i {
        VisitedInOrder(o, pages, states, cuts, i', i, p, p);
      } else if i < i' {
        VisitedInOrder(o, pages, states, cuts, i, i', p, p);
      } else {
        assert TraversalStep(o, pages, states, cuts, i);
        BeforeTotal(o, p, p);
      }
    }
  }

  function Positions<T>(items: seq<Item<T>>): (r: seq<Pos>)
    ensures |r| == |items| && forall i | 0 <= i < |r| :: r[i] == items[i].pos
  {
    seq(|items|, i requires 0 <= i < |items| => items[i].pos)
  }

  ghost function PosSet<T>(s: set<Item<T>>): set<Pos> {
    set x | x in s :: x.pos
  }

  function CutAt(cursor: Option<Pos>, whenNone: Cut): Cut {
    if cursor.Some? then Past(cursor.value) else whenNone
  }

  /** A page of what lies beyond a cursor is a step of a traversal. */
  lemma PageCovers<T>(o: Order, items: seq<Item<T>>, next: Option<Pos>, s: set<Item<T>>, cursor: Option<Pos>, limit: nat)
    requires UniqueIds(s) && PageOf(o, items, next, Beyond(o, s, cursor), limit)
    ensures Spans(o, Positions(items), PosSet(s), CutAt(cursor, Beginning), CutAt(next, Everything))
    ensures Advances(o, CutAt(cursor, Beginning), CutAt(next, Everything))
  {
    var from, to := CutAt(cursor, Beginning), CutAt(next, Everything);
    forall p ensures p in Positions(items) <==> p in PosSet(s) && !Passed(o, from, p) && Passed(o, to, p) {
      if p in Positions(items) {
        ItemCovered(o, items, next, s, cursor, limit, p);
      } else if p in PosSet(s) && !Passed(o, from, p) {
        RestNotPassed(o, items, next, s, cursor, limit, p);
      }
    }
    if cursor.Some? && next.Some? {
      var last := items[|items| - 1];
      assert last in Beyond(o, s, cursor);
      forall p | Passed(o, from, p) ensures Passed(o, to, p) {
        if p != cursor.value {
          BeforeTransitive(o, p, cursor.value, last.pos);
        }
      }
    }
  }

  lemma ItemCovered<T>(o: Order, items: seq<Item<T>>, next: Option<Pos>, s: set<Item<T>>, cursor: Option<Pos>, limit: nat, p: Pos)
    requires PageOf(o, items, next, Beyond(o, s, cursor), limit) && p in Positions(items)
    ensures p in PosSet(s) && !Passed(o, CutAt(cursor, Beginning), p) && Passed(o, CutAt(next, Everything), p)
  {
    var i :| 0 <= i < |items| && items[i].pos == p;
    assert items[i] in Beyond(o, s, cursor);
    if cursor.Some? {
      BeforeTotal(o, cursor.value, p);
    }
    if next.Some? && i < |items| - 1 {
      assert Before(o, items[i].pos, items[|items| - 1].pos);
    }
  }

  lemma RestNotPassed<T>(o: Order, items: seq<Item<T>>, next: Option<Pos>, s: set<Item<T>>, cursor: Option<Pos>, limit: nat, p: Pos)
    requires PageOf(o, items, next, Beyond(o, s, cursor), limit)
    requires p in PosSet(s) && !Passed(o, CutAt(cursor, Beginning), p) && p !in Positions(items)
    ensures !Passed(o, CutAt(next, Everything), p)
  {
    var x :| x in s && x.pos == p;
    if cursor.Some? {
      BeforeTotal(o, cursor.value, p);
    }
    assert x in Beyond(o, s, cursor);
    assert forall i | 0 <= i < |items| :: Positions(items)[i] == items[i].pos;
    if next.Some? {
      BeforeTotal(o, p, next.value);
    }
  }

  // ----- Following cursors -----

  function CursorAt(nexts: seq<Option<Pos>>, i: nat): Option<Pos>
    requires i <= |nexts|
  {
    if i == 0 then None else nexts[i - 1]
  }

  /** A client lists from the start, hands each page's cursor to the next call, and stops when there is none. */
  ghost predicate Followed<T>(o: Order, pages: seq<seq<Item<T>>>, nexts: seq<Option<Pos>>, states: seq<set<Item<T>>>, limits: seq<nat>) {
    && |pages| == |nexts| == |states| == |limits| > 0
    && (forall i | 0 <= i < |pages| ::
          UniqueIds(states[i]) && PageOf(o, pages[i], nexts[i], Beyond(o, states[i], CursorAt(nexts, i)), limits[i]))
    && (forall i | 0 <= i < |pages| - 1 :: nexts[i].Some?)
    && nexts[|pages| - 1].None?
  }

  function PagePositions<T>(pages: seq<seq<Item<T>>>): (r: seq<seq<Pos>>)
    ensures |r| == |pages| && forall i | 0 <= i < |r| :: r[i] == Positions(pages[i])
  {
    seq(|pages|, i requires 0 <= i < |pages| => Positions(pages[i]))
  }

  ghost function StatePositions<T>(states: seq<set<Item<T>>>): (r: seq<set<Pos>>)
    ensures |r| == |states| && forall i | 0 <= i < |r| :: r[i] == PosSet(states[i])
  {
    seq(|states|, i requires 0 <= i < |states| => PosSet(states[i]))
  }

  function CutsOf(nexts: seq<Option<Pos>>): (r: seq<Cut>)
    ensures |r| == |nexts| + 1 && r[0] == Beginning
    ensures forall i | 0 < i < |r| :: r[i] == CutAt(nexts[i - 1], Everything)
  {
    seq(|nexts| + 1, i requires 0 <= i <= |nexts| => if i == 0 then Beginning else CutAt(nexts[i - 1], Everything))
  }

  lemma FollowedShape<T>(o: Order, pages: seq<seq<Item<T>>>, nexts: seq<Option<Pos>>, states: seq<set<Item<T>>>, limits: seq<nat>)
    requires Followed(o, pages, nexts, states, limits)
    ensures |pages| == |nexts| == |states| > 0 && nexts[|pages| - 1].None?
  {
    hide PageOf;
    hide UniqueIds;
    hide Beyond;
  }

  lemma FollowedStep<T>(o: Order, pages: seq<seq<Item<T>>>, nexts: seq<Option<Pos>>, states: seq<set<Item<T>>>, limits: seq<nat>, i: nat)
    requires Followed(o, pages, nexts, states, limits) && i < |pages|
    ensures |pages| == |nexts| == |states|
    ensures TraversalStep(o, PagePositions(pages), StatePositions(states), CutsOf(nexts), i)
  {
    hide PageOf;
    hide Spans;
    hide Advances;
    hide UniqueIds;
    hide Beyond;
    hide PosSet;
    PageCovers(o, pages[i], nexts[i], states[i], CursorAt(nexts, i), limits[i]);
    assert CutsOf(nexts)[i] == CutAt(CursorAt(nexts, i), Beginning);
  }

  lemma FollowedIsTraversal<T>(o: Order, pages: seq<seq<Item<T>>>, nexts: seq<Option<Pos>>, states: seq<set<Item<T>>>, limits: seq<nat>)
    requires Followed(o, pages, nexts, states, limits)
    ensures Traversal(o, PagePositions(pages), StatePositions(states), CutsOf(nexts))
  {
    hide Followed;
    hide Spans;
    hide Advances;
    hide PosSet;
    hide Positions;
    hide PagePositions;
    hide StatePositions;
    hide CutsOf;
    hide TraversalStep;
    FollowedShape(o, pages, nexts, states, limits);
    forall i | 0 <= i < |pages|
      ensures TraversalStep(o, PagePositions(pages), StatePositions(states), CutsOf(nexts), i)
    {
      FollowedStep(o, pages, nexts, states, limits, i);
    }
  }

  /**
    Keyset paging under mutation: a client that follows cursors to the end sees
    whatever is stored the whole time exactly once, and nothing twice, however
    others insert, change or delete between the calls.
   */
  lemma KeysetVisitsOnce<T>(o: Order, pages: seq<seq<Item<T>>>, nexts: seq<Option<Pos>>, states: seq<set<Item<T>>>, limits: seq<nat>)
    requires Followed(o, pages, nexts, states, limits)
    ensures forall p | (forall i | 0 <= i < |states| :: p in PosSet(states[i])) :: VisitedOnce(PagePositions(pages), p)
    ensures forall i, j, p, q | 0 <= i < j < |pages| && p in Positions(pages[i]) && q in Positions(pages[j]) :: Before(o, p, q)
  {
    hide Followed;
    hide Traversal;
    hide VisitedOnce;
    hide PosSet;
    hide CutsOf;
    FollowedShape(o, pages, nexts, states, limits);
    FollowedIsTraversal(o, pages, nexts, states, limits);
    forall p | forall i | 0 <= i < |states| :: p in PosSet(states[i]) ensures VisitedOnce(PagePositions(pages), p) {
      StableVisitedOnce(o, PagePositions(pages), StatePositions(states), CutsOf(nexts), p);
    }
    forall i, j, p, q | 0 <= i < j < |pages| && p in Positions(pages[i]) && q in Positions(pages[j]) ensures Before(o, p, q) {
      VisitedInOrder(o, PagePositions(pages), StatePositions(states), CutsOf(nexts), i, j, p, q);
    }
  }
}
