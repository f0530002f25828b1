/**
  listCurrent of the Azure article repository, over sorted current rows and
  whatever pages and continuations the service returns: exactly when it fails,
  exactly when a cursor leads to nothing, and what a client sees that follows
  the cursors. internal/storage/azure/articles.go.
 */
module CurrentListing {
  import opened Outcomes
  import opened ArticleModel
  import opened Paging
  import opened RowKeys
  import opened Listing

  /** The continuation that the service returned: the index where the next physical page begins. */
  type Continuation = Option<nat>

  ghost predicate CurrentSorted<A>(rows: seq<Item<Raw<A>>>) {
    forall i, j | 0 <= i < j < |rows| && rows[i].value.place.Current? && rows[j].value.place.Current? ::
      Before(ORDER, rows[i].pos, rows[j].pos)
  }

  ghost function CurrentRows<A>(rows: seq<Item<Raw<A>>>): set<Item<Raw<A>>> {
    set x | x in rows && x.value.place.Current?
  }

  /** One call of ListPage: where it starts, how many rows were asked for and came back, and the continuation. */
  datatype Fetch = Fetch(at: nat, top: nat, size: nat, following: Continuation)

  function Least(a: nat, b: nat): nat { if a < b then a else b }

  /**
    What the service makes of its n-th call: it returns as many of the asked
    rows as it likes, perhaps none, and may add a continuation though nothing
    is left.
   */
  function Fetched<A>(rows: seq<Item<Raw<A>>>, at: nat, top: nat, answer: (nat, bool)): (f: Fetch)
    requires at <= |rows|
    ensures f.at == at && f.top == top && at + f.size <= |rows| && f.size <= top
  {
    var size := Least(Least(answer.0, top), |rows| - at);
    Fetch(at, top, size, if at + size < |rows| || answer.1 then Some(at + size) else None)
  }

  /** The current ones among the rows, in order. */
  ghost function CurrentSeq<A>(rows: seq<Item<Raw<A>>>): seq<Item<Raw<A>>> {
    if rows == [] then []
    else
      var n := |rows| - 1;
      CurrentSeq(rows[..n]) + if rows[n].value.place.Current? then [rows[n]] else []
  }

  /** The continuation is the one the call began with. */
  predicate Stuck(fetches: seq<Fetch>, n: nat)
    requires n < |fetches|
  {
    n > 0 && fetches[n].size == 0 && fetches[n].following.Some?
  }

  predicate HasMisplaced<A>(rows: seq<Item<Raw<A>>>, f: Fetch)
    requires f.at + f.size <= |rows|
  {
    exists i :: f.at <= i < f.at + f.size && rows[i].value.place.Misplaced?
  }

  /** The n-th call asks for what is still missing, at most 100 rows. */
  ghost predicate FetchOk<A>(rows: seq<Item<Raw<A>>>, limit: nat, service: (nat, nat) -> (nat, bool), fetches: seq<Fetch>, n: nat)
    requires n < |fetches|
  {
    var f := fetches[n];
    && f.at <= |rows| && |CurrentSeq(rows[..f.at])| < limit
    && f.top == Least(limit - |CurrentSeq(rows[..f.at])|, 100)
    && f == Fetched(rows, f.at, f.top, service(n, f.top))
  }

  /** The next call goes on where this one ended. */
  ghost predicate GoesOn<A>(rows: seq<Item<Raw<A>>>, fetches: seq<Fetch>, n: nat)
    requires n + 1 < |fetches|
  {
    && fetches[n].following == Some(fetches[n + 1].at) && !Stuck(fetches, n)
    && fetches[n].at + fetches[n].size <= |rows| && !HasMisplaced(rows, fetches[n])
  }

  ghost predicate Fetching<A>(rows: seq<Item<Raw<A>>>, limit: nat, service: (nat, nat) -> (nat, bool), fetches: seq<Fetch>) {
    && (forall n | 0 <= n < |fetches| :: FetchOk(rows, limit, service, fetches, n))
    && (fetches != [] ==> fetches[0].at == 0)
    && (forall n | 0 <= n < |fetches| - 1 :: GoesOn(rows, fetches, n))
  }

  /**
    What listCurrent returns after these calls. It fails exactly if the last call
    made no progress or brought a misplaced row; otherwise the last call filled
    the page or was the first without a continuation, and there is a cursor
    exactly if the last call returned a continuation.
   */
  ghost predicate ListsCurrent<A>(rows: seq<Item<Raw<A>>>, limit: nat, service: (nat, nat) -> (nat, bool), fetches: seq<Fetch>,
                                        items: seq<Item<Raw<A>>>, next: Option<Pos>, error: Option<Error>) {
    && Fetching(rows, limit, service, fetches) && fetches != []
    && var last := fetches[|fetches| - 1]; var end := last.at + last.size;
       && end <= |rows|
       && (error.Some? <==> Stuck(fetches, |fetches| - 1) || HasMisplaced(rows, last))
       && (error.Some? ==> error.value == Storage)
       && (error.None? ==>
             && items == CurrentSeq(rows[..end])
             && (last.following.Some? ==> |items| == limit > 0)
             && next == if last.following.Some? then Some(items[|items| - 1].pos) else None)
  }

  lemma {:induction false} CurrentSeqRows<A>(rows: seq<Item<Raw<A>>>)
    ensures forall x :: x in CurrentSeq(rows) <==> x in CurrentRows(rows)
  {
    if rows != [] {
      var n := |rows| - 1;
      CurrentSeqRows(rows[..n]);
      assert rows == rows[..n] + [rows[n]];
    }
  }

  lemma CurrentSeqMore<A>(rows: seq<Item<Raw<A>>>, i: nat)
    requires i < |rows|
    ensures CurrentSeq(rows[..i + 1]) == CurrentSeq(rows[..i]) + if rows[i].value.place.Current? then [rows[i]] else []
  {
    assert rows[..i + 1][..i] == rows[..i];
  }

  /** One more call. */
  lemma FetchingMore<A>(rows: seq<Item<Raw<A>>>, limit: nat, service: (nat, nat) -> (nat, bool), fetches: seq<Fetch>, f: Fetch)
    requires Fetching(rows, limit, service, fetches)
    requires FetchOk(rows, limit, service, fetches + [f], |fetches|)
    requires if fetches == [] then f.at == 0 else GoesOn(rows, fetches + [f], |fetches| - 1)
    ensures Fetching(rows, limit, service, fetches + [f])
  {
    var all := fetches + [f];
    forall n | 0 <= n < |all| ensures FetchOk(rows, limit, service, all, n) {
      if n < |fetches| {
        assert FetchOk(rows, limit, service, fetches, n) && all[n] == fetches[n];
      }
    }
    forall n | 0 <= n < |all| - 1 ensures GoesOn(rows, all, n) {
      if n < |fetches| - 1 {
        assert GoesOn(rows, fetches, n) && all[n] == fetches[n] && all[n + 1] == fetches[n + 1];
      }
    }
  }

  /** The rows of one physical page: legacy rows are skipped, a misplaced row is an error. */
  method TakePage<A>(rows: seq<Item<Raw<A>>>, at: nat, size: nat, items: seq<Item<Raw<A>>>)
    returns (r: seq<Item<Raw<A>>>, bad: bool)
    requires at + size <= |rows| && items == CurrentSeq(rows[..at])
    ensures bad <==> exists i :: at <= i < at + size && rows[i].value.place.Misplaced?
    ensures !bad ==> r == CurrentSeq(rows[..at + size]) && |items| <= |r| <= |items| + size
  {
    r, bad := items, false;
    for i := at to at + size
      invariant r == CurrentSeq(rows[..i]) && |items| <= |r| <= |items| + (i - at)
      invariant forall k | at <= k < i :: !rows[k].value.place.Misplaced?
    {
      CurrentSeqMore(rows, i);
      if rows[i].value.place.Misplaced? {
        return items, true;
      }
      if rows[i].value.place.Current? {
        r := r + [rows[i]];
      }
    }
  }

  /**
    listCurrent: rows are what the filter selects (entity type, status, and row
    keys greater than the cursor's), in key order. service(n, top) is what the
    service does at its n-th call, as in Fetched.
   */
  method ListCurrent<A>(rows: seq<Item<Raw<A>>>, limit: nat, service: (nat, nat) -> (nat, bool))
    returns (items: seq<Item<Raw<A>>>, next: Option<Pos>, error: Option<Error>, ghost fetches: seq<Fetch>)
    requires limit > 0
    ensures ListsCurrent(rows, limit, service, fetches, items, next, error)
    ensures error.None? && CurrentSorted(rows) ==> PageOf(ORDER, items, next, CurrentRows(rows), limit)
  {
    items, next, error, fetches := [], None, None, [];
    var at: nat, calls: nat := 0, 0;
    var continuation: Continuation := None;
    var more, done := false, false;
    while |items| < limit && !done
      invariant at <= |rows| && |items| <= limit && items == CurrentSeq(rows[..at])
      invariant calls == |fetches| && Fetching(rows, limit, service, fetches)
      invariant fetches == [] ==> at == 0 && !done && continuation.None?
      invariant fetches != [] ==>
                  var last := fetches[|fetches| - 1];
                  && last.at + last.size == at && !Stuck(fetches, |fetches| - 1) && !HasMisplaced(rows, last)
                  && (if done then last.following.Some? == more else last.following == Some(at))
      invariant !done ==> |items| < limit && (fetches != [] ==> continuation == Some(at))
      invariant more ==> |items| == limit
      decreases if done then 0 else 1, |rows| - at, if continuation.None? then 1 else 0
    {
      var top := Least(limit - |items|, 100);
      var f := Fetched(rows, at, top, service(calls, top));
      FetchingMore(rows, limit, service, fetches, f);
      fetches := fetches + [f];
      calls := calls + 1;
      if f.following.Some? && continuation.Some? && f.following == continuation {
        return items, None, Some(Storage), fetches;
      }
      var page, bad := TakePage(rows, at, f.size, items);
      if bad {
        return items, None, Some(Storage), fetches;
      }
      items := page;
      at := at + f.size;
      if f.following.None? {
        done := true;
      } else if |items| == limit {
        more := true;
        done := true;
      } else {
        continuation := f.following;
      }
    }
    if more {
      next := Some(items[|items| - 1].pos);
    }
    LastFetch(rows, limit, service, fetches);
    if CurrentSorted(rows) {
      CurrentPageOf(rows, limit, service, fetches, items, next);
    }
  }

  /** Without an error, listCurrent returns a page of the current rows. */
  lemma CurrentPageOf<A>(rows: seq<Item<Raw<A>>>, limit: nat, service: (nat, nat) -> (nat, bool), fetches: seq<Fetch>,
                         items: seq<Item<Raw<A>>>, next: Option<Pos>)
    requires ListsCurrent(rows, limit, service, fetches, items, next, None) && CurrentSorted(rows) && |items| <= limit
    ensures PageOf(ORDER, items, next, CurrentRows(rows), limit)
  {
    var last := fetches[|fetches| - 1];
    LastFetch(rows, limit, service, fetches);
    hide Fetching;
    hide HasMisplaced;
    CurrentPage(rows, last.at + last.size, items, limit, last.following);
  }

  lemma CurrentSeqSorted<A>(rows: seq<Item<Raw<A>>>, n: nat)
    requires CurrentSorted(rows) && n <= |rows|
    ensures Sorted(ORDER, CurrentSeq(rows[..n]))
    decreases n
  {
    if n > 0 {
      CurrentSeqMore(rows, n - 1);
      CurrentSeqSorted(rows, n - 1);
      var r := CurrentSeq(rows[..n - 1]);
      forall k | 0 <= k < |r| && rows[n - 1].value.place.Current? ensures Before(ORDER, r[k].pos, rows[n - 1].pos) {
        EarlierBefore(rows, n - 1, r[k]);
      }
    }
  }

  lemma EarlierBefore<A>(rows: seq<Item<Raw<A>>>, n: nat, x: Item<Raw<A>>)
    requires CurrentSorted(rows) && n < |rows| && rows[n].value.place.Current? && x in CurrentSeq(rows[..n])
    ensures Before(ORDER, x.pos, rows[n].pos)
  {
    CurrentSeqRows(rows[..n]);
    var j :| 0 <= j < n && rows[..n][j] == x;
    assert rows[j] == x;
  }

  lemma CurrentPage<A>(rows: seq<Item<Raw<A>>>, at: nat, items: seq<Item<Raw<A>>>, limit: nat, following: Continuation)
    requires at <= |rows| && CurrentSorted(rows) && items == CurrentSeq(rows[..at]) && |items| <= limit
    requires if following.Some? then |items| == limit else at == |rows|
    ensures IsTop(ORDER, items, CurrentRows(rows), limit)
    ensures at == |rows| ==> forall x | x in CurrentRows(rows) :: x in items
  {
    CurrentSeqSorted(rows, at);
    CurrentSeqRows(rows[..at]);
    assert at == |rows| ==> rows[..at] == rows;
    forall x | x in items ensures x in CurrentRows(rows) {
      var i :| 0 <= i < at && rows[..at][i] == x;
      assert rows[i] == x;
    }
    forall x | x in CurrentRows(rows) && x !in items
      ensures |items| == limit && forall i | 0 <= i < |items| :: Before(ORDER, items[i].pos, x.pos)
    {
      var k :| 0 <= k < |rows| && rows[k] == x;
      assert forall i | 0 <= i < at :: rows[..at][i] == rows[i];
      forall i | 0 <= i < |items| ensures Before(ORDER, items[i].pos, x.pos) {
        assert items[i] in items;
        var j :| 0 <= j < at && rows[..at][j] == items[i];
        assert rows[j] == items[i];
      }
    }
  }

  // ----- When a cursor leads to nothing -----

  /** There is a cursor, but no current row that is not on the page. */
  ghost predicate LeadsNowhere<A>(rows: seq<Item<Raw<A>>>, items: seq<Item<Raw<A>>>, next: Option<Pos>) {
    next.Some? && forall x | x in CurrentRows(rows) :: x in items
  }

  /** In terms of the calls: the last one returned a continuation, and no current row follows. */
  lemma EmptyRestFetched<A>(rows: seq<Item<Raw<A>>>, limit: nat, service: (nat, nat) -> (nat, bool), fetches: seq<Fetch>,
                                  items: seq<Item<Raw<A>>>, next: Option<Pos>)
    requires ListsCurrent(rows, limit, service, fetches, items, next, None) && CurrentSorted(rows)
    ensures LeadsNowhere(rows, items, next) <==>
            var last := fetches[|fetches| - 1];
            last.following.Some? && forall i | last.at + last.size <= i < |rows| :: !rows[i].value.place.Current?
  {
    var last := fetches[|fetches| - 1];
    var end := last.at + last.size;
    LastFetch(rows, limit, service, fetches);
    hide Fetching;
    hide HasMisplaced;
    CurrentSeqRows(rows[..end]);
    forall i | end <= i < |rows| && rows[i].value.place.Current? ensures rows[i] in CurrentRows(rows) && rows[i] !in items {
      LaterIsElsewhere(rows, end, i);
    }
    forall x | x in CurrentRows(rows) && x !in items ensures exists i :: end <= i < |rows| && rows[i] == x {
      var i :| 0 <= i < |rows| && rows[i] == x;
      EarlierIsThere(rows, end, i);
    }
  }

  lemma EarlierIsThere<T>(rows: seq<T>, end: nat, i: nat)
    requires end <= |rows| && i < |rows|
    ensures i < end ==> rows[i] in rows[..end]
  {
    assert i < end ==> rows[..end][i] == rows[i];
  }

  lemma LastFetch<A>(rows: seq<Item<Raw<A>>>, limit: nat, service: (nat, nat) -> (nat, bool), fetches: seq<Fetch>)
    requires Fetching(rows, limit, service, fetches) && fetches != []
    ensures var last := fetches[|fetches| - 1];
            last.at + last.size <= |rows| && (last.following.None? ==> last.at + last.size == |rows|)
  {
    assert FetchOk(rows, limit, service, fetches, |fetches| - 1);
  }

  lemma LaterIsElsewhere<A>(rows: seq<Item<Raw<A>>>, end: nat, i: nat)
    requires CurrentSorted(rows) && end <= i < |rows| && rows[i].value.place.Current?
    ensures rows[i] !in rows[..end]
  {
    forall j | 0 <= j < end ensures rows[..end][j] != rows[i] {
      BeforeTotal(ORDER, rows[i].pos, rows[i].pos);
      assert rows[j].value.place.Current? ==> Before(ORDER, rows[j].pos, rows[i].pos);
    }
  }

  /** Rows from end on add current rows, or none. */
  lemma {:induction false} CountRest<A>(rows: seq<Item<Raw<A>>>, end: nat)
    requires end <= |rows|
    ensures |CurrentSeq(rows[..end])| <= |CurrentSeq(rows)|
    ensures |CurrentSeq(rows[..end])| == |CurrentSeq(rows)| <==> forall i | end <= i < |rows| :: !rows[i].value.place.Current?
    decreases |rows| - end
  {
    if end < |rows| {
      CurrentSeqMore(rows, end);
      CountRest(rows, end + 1);
    } else {
      assert rows[..end] == rows;
    }
  }

  /** Some rows in between are current, not all if the last of them is not. */
  lemma {:induction false} CountBetween<A>(rows: seq<Item<Raw<A>>>, at: nat, end: nat)
    requires at <= end <= |rows|
    ensures |CurrentSeq(rows[..end])| <= |CurrentSeq(rows[..at])| + (end - at)
    ensures at < end && !rows[end - 1].value.place.Current? ==> |CurrentSeq(rows[..end])| < |CurrentSeq(rows[..at])| + (end - at)
    decreases end
  {
    if at < end {
      CurrentSeqMore(rows, end - 1);
      CountBetween(rows, at, end - 1);
    }
  }

  /** A cursor that leads to nothing needs exactly limit current rows, all of them on the page. */
  lemma NowhereCounts<A>(rows: seq<Item<Raw<A>>>, limit: nat, service: (nat, nat) -> (nat, bool), fetches: seq<Fetch>,
                         items: seq<Item<Raw<A>>>, next: Option<Pos>)
    requires ListsCurrent(rows, limit, service, fetches, items, next, None) && CurrentSorted(rows)
    ensures LeadsNowhere(rows, items, next) <==> next.Some? && |CurrentSeq(rows)| == limit
    ensures next.None? ==> forall x | x in CurrentRows(rows) :: x in items
  {
    var last := fetches[|fetches| - 1];
    EmptyRestFetched(rows, limit, service, fetches, items, next);
    LastFetch(rows, limit, service, fetches);
    CurrentSeqRows(rows);
    hide Fetching;
    hide HasMisplaced;
    hide LeadsNowhere;
    hide CurrentSorted;
    CountRest(rows, last.at + last.size);
    assert next.None? ==> rows[..last.at + last.size] == rows;
  }

  /**
    Whatever the service does: unless the current rows fill exactly one page, a
    cursor means that something is left.
   */
  lemma CursorMeansMore<A>(rows: seq<Item<Raw<A>>>, limit: nat, service: (nat, nat) -> (nat, bool), fetches: seq<Fetch>,
                           items: seq<Item<Raw<A>>>, next: Option<Pos>)
    requires ListsCurrent(rows, limit, service, fetches, items, next, None) && CurrentSorted(rows)
    requires |CurrentSeq(rows)| != limit
    ensures next.Some? <==> exists x :: x in CurrentRows(rows) && x !in items
  {
    hide ListsCurrent;
    NowhereCounts(rows, limit, service, fetches, items, next);
  }

  /** A continuation is only returned when rows are left. */
  ghost predicate Honest(service: (nat, nat) -> (nat, bool)) {
    forall n, top :: !service(n, top).1
  }

  /** The page that takes the last row cannot end with a row that is not current and be full. */
  lemma FullBeforeEnd<A>(rows: seq<Item<Raw<A>>>, limit: nat, service: (nat, nat) -> (nat, bool), fetches: seq<Fetch>,
                         items: seq<Item<Raw<A>>>, next: Option<Pos>)
    requires ListsCurrent(rows, limit, service, fetches, items, next, None) && Honest(service) && rows != []
    requires |CurrentSeq(rows)| == limit
    ensures next.None? ==> rows[|rows| - 1].value.place.Current?
    ensures next.Some? ==> fetches[|fetches| - 1].at + fetches[|fetches| - 1].size < |rows|
  {
    var last := fetches[|fetches| - 1];
    LastFetch(rows, limit, service, fetches);
    assert FetchOk(rows, limit, service, fetches, |fetches| - 1);
    hide Fetching;
    hide HasMisplaced;
    if next.None? {
      assert rows[..|rows|] == rows;
      CountBetween(rows, last.at, |rows|);
    }
  }

  /**
    If the service returns no continuation at the end: a cursor leads to nothing
    exactly if the current rows fill one page and the last row is not current.
   */
  lemma NowhereHonestly<A>(rows: seq<Item<Raw<A>>>, limit: nat, service: (nat, nat) -> (nat, bool), fetches: seq<Fetch>,
                           items: seq<Item<Raw<A>>>, next: Option<Pos>)
    requires ListsCurrent(rows, limit, service, fetches, items, next, None) && CurrentSorted(rows) && Honest(service)
    ensures LeadsNowhere(rows, items, next) <==>
            |CurrentSeq(rows)| == limit && rows != [] && !rows[|rows| - 1].value.place.Current?
  {
    NowhereCounts(rows, limit, service, fetches, items, next);
    EmptyRestFetched(rows, limit, service, fetches, items, next);
    if |CurrentSeq(rows)| == limit && rows != [] {
      FullBeforeEnd(rows, limit, service, fetches, items, next);
    }
    hide Fetching;
    hide HasMisplaced;
    hide LeadsNowhere;
    hide CurrentSorted;
    if rows == [] && next.Some? {
      LastOfNone(rows, limit, service, fetches);
    }
  }

  lemma LastOfNone<A>(rows: seq<Item<Raw<A>>>, limit: nat, service: (nat, nat) -> (nat, bool), fetches: seq<Fetch>)
    requires Fetching(rows, limit, service, fetches) && fetches != [] && Honest(service) && rows == []
    ensures fetches[|fetches| - 1].following.None?
  {
    assert FetchOk(rows, limit, service, fetches, |fetches| - 1);
  }

  /** So on a migrated table with such a service a cursor means exactly that something is left. */
  lemma MigratedCursorMeansMore<A>(rows: seq<Item<Raw<A>>>, limit: nat, service: (nat, nat) -> (nat, bool), fetches: seq<Fetch>,
                                   items: seq<Item<Raw<A>>>, next: Option<Pos>)
    requires ListsCurrent(rows, limit, service, fetches, items, next, None) && CurrentSorted(rows) && Honest(service)
    requires forall x | x in rows :: x.value.place.Current?
    ensures next.Some? <==> exists x :: x in CurrentRows(rows) && x !in items
  {
    NowhereHonestly(rows, limit, service, fetches, items, next);
    NowhereCounts(rows, limit, service, fetches, items, next);
    hide ListsCurrent;
    hide CurrentSorted;
    assert rows != [] ==> rows[|rows| - 1] in rows;
  }

  /** No misplaced row before a current one. */
  ghost predicate CleanUpToLast<A>(rows: seq<Item<Raw<A>>>) {
    forall i, j | 0 <= i < j < |rows| && rows[i].value.place.Misplaced? :: !rows[j].value.place.Current?
  }

  /** Some service makes listCurrent return a cursor that leads to nothing. */
  ghost predicate CanLeadNowhere<A(!new)>(rows: seq<Item<Raw<A>>>, limit: nat) {
    exists service, fetches, items, next ::
      ListsCurrent(rows, limit, service, fetches, items, next, None) && LeadsNowhere(rows, items, next)
  }

  /** What the calls have gone over holds no misplaced row. */
  lemma {:induction false} NoneMisplaced<A>(rows: seq<Item<Raw<A>>>, limit: nat, service: (nat, nat) -> (nat, bool), fetches: seq<Fetch>, n: nat)
    requires Fetching(rows, limit, service, fetches) && n < |fetches|
    ensures forall i | 0 <= i < fetches[n].at :: i < |rows| && !rows[i].value.place.Misplaced?
    decreases n
  {
    if n > 0 {
      NoneMisplaced(rows, limit, service, fetches, n - 1);
      assert GoesOn(rows, fetches, n - 1);
      assert FetchOk(rows, limit, service, fetches, n - 1);
    }
  }

  lemma NowhereIsClean<A>(rows: seq<Item<Raw<A>>>, limit: nat, service: (nat, nat) -> (nat, bool), fetches: seq<Fetch>,
                          items: seq<Item<Raw<A>>>, next: Option<Pos>)
    requires ListsCurrent(rows, limit, service, fetches, items, next, None) && CurrentSorted(rows) && LeadsNowhere(rows, items, next)
    ensures CleanUpToLast(rows)
  {
    EmptyRestFetched(rows, limit, service, fetches, items, next);
    NoneMisplaced(rows, limit, service, fetches, |fetches| - 1);
    hide Fetching;
    hide LeadsNowhere;
    hide CurrentSorted;
  }

  /** The calls of a service that returns one row at a time and always a continuation. */
  ghost function OneByOne<A>(rows: seq<Item<Raw<A>>>, limit: nat, m: nat): (r: seq<Fetch>)
    requires m <= |rows| && forall k | 0 <= k < m :: |CurrentSeq(rows[..k])| < limit
    ensures |r| == m
    ensures forall k | 0 <= k < m :: r[k] == Fetch(k, Least(limit - |CurrentSeq(rows[..k])|, 100), 1, Some(k + 1))
  {
    seq(m, k requires 0 <= k < m => Fetch(k, Least(limit - |CurrentSeq(rows[..k])|, 100), 1, Some(k + 1)))
  }

  lemma OneByOneFetches<A>(rows: seq<Item<Raw<A>>>, limit: nat, m: nat)
    requires 0 < m <= |rows| && forall k | 0 <= k < m :: |CurrentSeq(rows[..k])| < limit
    requires forall k | 0 <= k < m :: !rows[k].value.place.Misplaced?
    ensures Fetching(rows, limit, (n: nat, top: nat) => (1, true), OneByOne(rows, limit, m))
  {
    var service := (n: nat, top: nat) => (1, true);
    var fetches := OneByOne(rows, limit, m);
    forall n | 0 <= n < m ensures FetchOk(rows, limit, service, fetches, n) {
      assert service(n, fetches[n].top) == (1, true);
    }
    forall n | 0 <= n < m - 1 ensures GoesOn(rows, fetches, n) {
    }
  }

  /** Where the n-th current row is. */
  lemma {:induction false} NthCurrent<A>(rows: seq<Item<Raw<A>>>, n: nat) returns (m: nat)
    requires 0 < n <= |CurrentSeq(rows)|
    ensures 0 < m <= |rows| && |CurrentSeq(rows[..m])| == n && rows[m - 1].value.place.Current?
    ensures forall k | 0 <= k < m :: |CurrentSeq(rows[..k])| < n
    decreases |rows|
  {
    var last := |rows| - 1;
    assert rows[..|rows|] == rows;
    if n <= |CurrentSeq(rows[..last])| {
      m := NthCurrent(rows[..last], n);
      assert forall k | 0 <= k <= m :: rows[..last][..k] == rows[..k];
    } else {
      m := |rows|;
      forall k | 0 <= k < m ensures |CurrentSeq(rows[..k])| < n {
        CountRest(rows[..last], k);
        assert rows[..last][..k] == rows[..k];
      }
    }
  }

  lemma NowhereRun<A(!new)>(rows: seq<Item<Raw<A>>>, limit: nat)
    requires limit > 0 && CurrentSorted(rows) && |CurrentSeq(rows)| == limit && CleanUpToLast(rows)
    ensures CanLeadNowhere(rows, limit)
  {
    var m := NthCurrent(rows, limit);
    var service := (n: nat, top: nat) => (1, true);
    OneByOneFetches(rows, limit, m);
    var fetches, items := OneByOne(rows, limit, m), CurrentSeq(rows[..m]);
    var next := Some(items[limit - 1].pos);
    hide CurrentSorted;
    hide Fetching;
    assert ListsCurrent(rows, limit, service, fetches, items, next, None);
    NowhereCounts(rows, limit, service, fetches, items, next);
  }

  /**
    Some service makes a cursor lead to nothing, exactly if the current rows fill
    one page and no misplaced row comes before the last of them.
   */
  lemma EmptyRestExactly<A(!new)>(rows: seq<Item<Raw<A>>>, limit: nat)
    requires limit > 0 && CurrentSorted(rows)
    ensures CanLeadNowhere(rows, limit) <==> |CurrentSeq(rows)| == limit && CleanUpToLast(rows)
  {
    hide ListsCurrent;
    hide LeadsNowhere;
    hide CurrentSorted;
    hide CleanUpToLast;
    if CanLeadNowhere(rows, limit) {
      var service, fetches, items, next :|
        ListsCurrent(rows, limit, service, fetches, items, next, None) && LeadsNowhere(rows, items, next);
      NowhereCounts(rows, limit, service, fetches, items, next);
      NowhereIsClean(rows, limit, service, fetches, items, next);
    }
    if |CurrentSeq(rows)| == limit && CleanUpToLast(rows) {
      NowhereRun(rows, limit);
    }
  }

  /** Both happen: a continuation after the very last row, and one before a row in the old layout. */
  lemma CursorWithNothingLeft(x: Item<Raw<bool>>, y: Item<Raw<bool>>)
    requires x.value.place.Current? && y.value.place.Legacy?
    ensures exists service, fetches, next :: ListsCurrent([x], 1, service, fetches, [x], next, None) && next.Some?
    ensures exists service, fetches, next :: ListsCurrent([x, y], 1, service, fetches, [x], next, None) && next.Some?
  {
    var spurious := (n: nat, top: nat) => (top, true);
    var honest := (n: nat, top: nat) => (top, false);
    assert [x][..0] == [] && [x][..1] == [x] && [x, y][..0] == [] && [x, y][..1] == [x];
    assert CurrentSeq([x]) == [x] by {
      assert [x][..0] == [];
    }
    var fetches := [Fetch(0, 1, 1, Some(1))];
    assert ListsCurrent([x], 1, spurious, fetches, [x], Some(x.pos), None);
    assert ListsCurrent([x, y], 1, honest, fetches, [x], Some(x.pos), None);
  }

  // ----- The filter and the cursor -----

  /** A row of the table under its key. */
  datatype Keyed<A> = Keyed(key: string, item: Item<Raw<A>>)

  predicate KeyPos(p: Pos) { Bytes(p.id) && KeyTime(p.createdAt) }

  /** The table in key order; current rows are at the key of their article. */
  ghost predicate InKeyOrder<A>(table: seq<Keyed<A>>) {
    && (forall i, j | 0 <= i < j < |table| :: Less(table[i].key, table[j].key))
    && (forall i | 0 <= i < |table| && table[i].item.value.place.Current? ::
          KeyPos(table[i].item.pos) && table[i].key == ArticleKey(table[i].item.pos.id, table[i].item.pos.createdAt))
  }

  /** The filter "RowKey gt" the cursor's key. */
  predicate Passes<A>(x: Keyed<A>, cursor: Option<Pos>)
    requires cursor.Some? ==> KeyPos(cursor.value)
  {
    cursor.Some? ==> Less(ArticleKey(cursor.value.id, cursor.value.createdAt), x.key)
  }

  /** What the service selects, in key order. */
  function Selected<A>(table: seq<Keyed<A>>, cursor: Option<Pos>): seq<Item<Raw<A>>>
    requires cursor.Some? ==> KeyPos(cursor.value)
  {
    if table == [] then []
    else
      var n := |table| - 1;
      Selected(table[..n], cursor) + if Passes(table[n], cursor) then [table[n].item] else []
  }

  /** The current articles of the table. */
  ghost function CurrentItems<A>(table: seq<Keyed<A>>): set<Item<Raw<A>>> {
    set x | x in table && x.item.value.place.Current? :: x.item
  }

  /** The key filter selects exactly what lies beyond the cursor. */
  lemma KeyFilterIsCursor(cursor: Pos, p: Pos)
    requires KeyPos(cursor) && KeyPos(p)
    ensures Less(ArticleKey(cursor.id, cursor.createdAt), ArticleKey(p.id, p.createdAt)) <==> AfterCursor(ORDER, Some(cursor), p)
  {
    ArticleKeyOrder(cursor.id, cursor.createdAt, p.id, p.createdAt);
  }

  lemma {:induction false} SelectedIn<A>(table: seq<Keyed<A>>, cursor: Option<Pos>, x: Item<Raw<A>>)
    requires cursor.Some? ==> KeyPos(cursor.value)
    ensures x in Selected(table, cursor) <==> exists i :: 0 <= i < |table| && table[i].item == x && Passes(table[i], cursor)
    decreases |table|
  {
    if table != [] {
      var n := |table| - 1;
      SelectedIn(table[..n], cursor, x);
      assert forall i | 0 <= i < n :: table[..n][i] == table[i];
    }
  }

  lemma {:induction false} SelectedSorted<A>(table: seq<Keyed<A>>, cursor: Option<Pos>)
    requires InKeyOrder(table) && (cursor.Some? ==> KeyPos(cursor.value))
    ensures CurrentSorted(Selected(table, cursor))
    decreases |table|
  {
    if table != [] {
      var n := |table| - 1;
      SelectedSorted(table[..n], cursor);
      var before := Selected(table[..n], cursor);
      forall i | 0 <= i < |before| && before[i].value.place.Current? && table[n].item.value.place.Current?
        ensures Before(ORDER, before[i].pos, table[n].item.pos)
      {
        SelectedIn(table[..n], cursor, before[i]);
        var j :| 0 <= j < n && table[..n][j].item == before[i];
        assert table[j].item == before[i];
        var p, q := before[i].pos, table[n].item.pos;
        ArticleKeyOrder(p.id, p.createdAt, q.id, q.createdAt);
      }
    }
  }

  /** What listCurrent reads through the filter are the current articles beyond the cursor. */
  lemma FilterSelectsBeyond<A>(table: seq<Keyed<A>>, cursor: Option<Pos>)
    requires InKeyOrder(table) && (cursor.Some? ==> KeyPos(cursor.value))
    ensures CurrentSorted(Selected(table, cursor))
    ensures CurrentRows(Selected(table, cursor)) == Beyond(ORDER, CurrentItems(table), cursor)
  {
    SelectedSorted(table, cursor);
    var rows, beyond := CurrentRows(Selected(table, cursor)), Beyond(ORDER, CurrentItems(table), cursor);
    forall x ensures x in rows <==> x in beyond {
      SelectedIn(table, cursor, x);
      SelectedIsBeyond(table, cursor, x);
    }
    assert rows == beyond;
  }

  lemma SelectedIsBeyond<A>(table: seq<Keyed<A>>, cursor: Option<Pos>, x: Item<Raw<A>>)
    requires InKeyOrder(table) && (cursor.Some? ==> KeyPos(cursor.value))
    ensures x.value.place.Current? && (exists i :: 0 <= i < |table| && table[i].item == x && Passes(table[i], cursor)) <==>
            x in Beyond(ORDER, CurrentItems(table), cursor)
  {
    forall i | 0 <= i < |table| && table[i].item == x && x.value.place.Current? ensures Passes(table[i], cursor) <==> AfterCursor(ORDER, cursor, x.pos) {
      if cursor.Some? {
        KeyFilterIsCursor(cursor.value, x.pos);
      }
    }
    if x in Beyond(ORDER, CurrentItems(table), cursor) {
      var y :| y in table && y.item.value.place.Current? && y.item == x;
      var i :| 0 <= i < |table| && table[i] == y;
      assert Passes(table[i], cursor);
    }
  }

  /** listCurrent answers this to a client at this cursor, whatever the service does. */
  ghost predicate CurrentAnswer<A>(table: seq<Keyed<A>>, cursor: Option<Pos>, limit: nat, items: seq<Item<Raw<A>>>, next: Option<Pos>)
    requires cursor.Some? ==> KeyPos(cursor.value)
  {
    exists service, fetches ::
      ListsCurrent(Selected(table, cursor), limit, service, fetches, items, next, None) && |items| <= limit
  }

  lemma AnswerIsPage<A>(table: seq<Keyed<A>>, cursor: Option<Pos>, limit: nat, items: seq<Item<Raw<A>>>, next: Option<Pos>)
    requires InKeyOrder(table) && (cursor.Some? ==> KeyPos(cursor.value)) && CurrentAnswer(table, cursor, limit, items, next)
    ensures PageOf(ORDER, items, next, Beyond(ORDER, CurrentItems(table), cursor), limit)
    ensures next.Some? ==> KeyPos(next.value)
  {
    hide ListsCurrent;
    var service, fetches :| ListsCurrent(Selected(table, cursor), limit, service, fetches, items, next, None) && |items| <= limit;
    FilterSelectsBeyond(table, cursor);
    CurrentPageOf(Selected(table, cursor), limit, service, fetches, items, next);
    if next.Some? {
      var last := items[|items| - 1];
      assert last in items;
      var y :| y in table && y.item == last && y.item.value.place.Current?;
    }
  }

  /** A client that follows listCurrent's cursors to the end while others change the table. */
  ghost predicate FollowsCurrent<A>(tables: seq<seq<Keyed<A>>>, limits: seq<nat>, pages: seq<seq<Item<Raw<A>>>>, nexts: seq<Option<Pos>>) {
    && |tables| == |limits| == |pages| == |nexts| > 0
    && (forall i | 0 <= i < |tables| :: InKeyOrder(tables[i]) && UniqueIds(CurrentItems(tables[i])))
    && (forall i | 0 <= i < |pages| - 1 :: nexts[i].Some?) && nexts[|pages| - 1].None?
    && (forall i | 0 <= i < |pages| :: AnsweredAt(tables, limits, pages, nexts, i))
  }

  ghost predicate AnsweredAt<A>(tables: seq<seq<Keyed<A>>>, limits: seq<nat>, pages: seq<seq<Item<Raw<A>>>>, nexts: seq<Option<Pos>>, i: nat)
    requires i < |tables| == |limits| == |pages| == |nexts|
  {
    var cursor := CursorAt(nexts, i);
    (cursor.Some? ==> KeyPos(cursor.value)) && CurrentAnswer(tables[i], cursor, limits[i], pages[i], nexts[i])
  }

  ghost function CurrentStates<A>(tables: seq<seq<Keyed<A>>>): (r: seq<set<Item<Raw<A>>>>)
    ensures |r| == |tables| && forall i | 0 <= i < |r| :: r[i] == CurrentItems(tables[i])
  {
    seq(|tables|, i requires 0 <= i < |tables| => CurrentItems(tables[i]))
  }

  lemma FollowsIsFollowed<A>(tables: seq<seq<Keyed<A>>>, limits: seq<nat>, pages: seq<seq<Item<Raw<A>>>>, nexts: seq<Option<Pos>>)
    requires FollowsCurrent(tables, limits, pages, nexts)
    ensures Followed(ORDER, pages, nexts, CurrentStates(tables), limits)
  {
    hide InKeyOrder;
    hide UniqueIds;
    hide CurrentItems;
    hide PageOf;
    hide Beyond;
    forall i | 0 <= i < |pages|
      ensures PageOf(ORDER, pages[i], nexts[i], Beyond(ORDER, CurrentStates(tables)[i], CursorAt(nexts, i)), limits[i])
    {
      assert AnsweredAt(tables, limits, pages, nexts, i);
      AnswerIsPage(tables[i], CursorAt(nexts, i), limits[i], pages[i], nexts[i]);
    }
  }

  /**
    Following listCurrent's cursors to the end, spurious ones included, visits
    every article that is stored as a current row the whole time exactly once,
    and nothing twice.
   */
  lemma CurrentVisitsOnce<A>(tables: seq<seq<Keyed<A>>>, limits: seq<nat>, pages: seq<seq<Item<Raw<A>>>>, nexts: seq<Option<Pos>>)
    requires FollowsCurrent(tables, limits, pages, nexts)
    ensures forall p | (forall i | 0 <= i < |tables| :: p in PosSet(CurrentItems(tables[i]))) :: VisitedOnce(PagePositions(pages), p)
    ensures forall i, j, p, q | 0 <= i < j < |pages| && p in Positions(pages[i]) && q in Positions(pages[j]) :: Before(ORDER, p, q)
  {
    hide PosSet;
    hide CurrentItems;
    hide VisitedOnce;
    FollowsIsFollowed(tables, limits, pages, nexts);
    hide FollowsCurrent;
    hide Followed;
    KeysetVisitsOnce(ORDER, pages, nexts, CurrentStates(tables), limits);
    assert |CurrentStates(tables)| == |tables|;
    forall p | forall i | 0 <= i < |tables| :: p in PosSet(CurrentItems(tables[i])) ensures VisitedOnce(PagePositions(pages), p) {
      assert forall i | 0 <= i < |CurrentStates(tables)| :: CurrentStates(tables)[i] == CurrentItems(tables[i]);
    }
  }
}
