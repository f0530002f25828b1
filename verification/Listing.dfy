/**
  listCompat of the Azure article repository, over rows in both layouts and in
  any order. internal/storage/azure/articles.go.
 */
module Listing {
  import opened Outcomes
  import opened ArticleModel
  import opened Paging
  import opened RowKeys

  /** Where a row sits: at its current key, at its bare ID, or at neither. */
  datatype Place = Current | Legacy | Misplaced

  /** A scanned article row; state is everything of the article but ETag, ID and creation time. */
  datatype Raw<A> = Raw(state: A, etag: nat, place: Place)

  const ORDER: Order := GreatestIdFirst

  // ----- What listCompat is for -----

  predicate SameArticle<A(==)>(x: Item<Raw<A>>, y: Item<Raw<A>>) {
    x.pos == y.pos && x.value.state == y.value.state
  }

  /** Rows of one table: at one of their two keys, and the two rows of an article agree. */
  ghost predicate Consistent<A>(rows: seq<Item<Raw<A>>>) {
    && (forall x | x in rows :: !x.value.place.Misplaced?)
    && (forall i, j | 0 <= i < j < |rows| && rows[i].pos.id == rows[j].pos.id ::
          SameArticle(rows[i], rows[j]) && rows[i].value.place != rows[j].value.place)
  }

  ghost predicate HasCurrent<A>(rows: seq<Item<Raw<A>>>, id: string) {
    exists x :: x in rows && x.pos.id == id && x.value.place.Current?
  }

  /** One row for each article beyond the cursor, the current one if there is one. */
  ghost function Preferred<A>(rows: seq<Item<Raw<A>>>, cursor: Option<Pos>): set<Item<Raw<A>>> {
    set x | x in rows && AfterCursor(ORDER, cursor, x.pos) && (x.value.place.Current? || !HasCurrent(rows, x.pos.id))
  }

  // ----- One more row -----

  ghost predicate Fresh<A>(rows: seq<Item<Raw<A>>>, x: Item<Raw<A>>) {
    forall y | y in rows :: y.pos.id != x.pos.id
  }

  lemma ConsistentPrefix<A>(rows: seq<Item<Raw<A>>>, n: nat)
    requires Consistent(rows) && n <= |rows|
    ensures Consistent(rows[..n])
  {
    assert forall i | 0 <= i < n :: rows[..n][i] == rows[i] && rows[i] in rows;
  }

  /** What the last row of a table shares with the earlier rows of its article. */
  lemma LastAgrees<A>(rows: seq<Item<Raw<A>>>, x: Item<Raw<A>>, y: Item<Raw<A>>)
    requires Consistent(rows + [x]) && y in rows && y.pos.id == x.pos.id
    ensures SameArticle(y, x) && y.value.place != x.value.place
    ensures !x.value.place.Misplaced? && !y.value.place.Misplaced?
  {
    var all := rows + [x];
    var i :| 0 <= i < |rows| && rows[i] == y;
    assert all[i] == y && all[|rows|] == x;
    assert x in all && y in all;
  }

  lemma HasCurrentMore<A>(rows: seq<Item<Raw<A>>>, x: Item<Raw<A>>, id: string)
    ensures HasCurrent(rows + [x], id) <==> HasCurrent(rows, id) || (x.pos.id == id && x.value.place.Current?)
  {
    assert x in rows + [x];
    assert forall y | y in rows :: y in rows + [x];
  }

  /** A row out of reach, or of an article not seen yet. */
  lemma PreferredFresh<A>(rows: seq<Item<Raw<A>>>, x: Item<Raw<A>>, cursor: Option<Pos>)
    requires Fresh(rows, x)
    ensures Preferred(rows + [x], cursor) ==
            if AfterCursor(ORDER, cursor, x.pos) then Preferred(rows, cursor) + {x} else Preferred(rows, cursor)
  {
    forall y | y in rows || y == x
      ensures HasCurrent(rows + [x], y.pos.id) <==> HasCurrent(rows, y.pos.id) || (y == x && x.value.place.Current?)
    {
      HasCurrentMore(rows, x, y.pos.id);
    }
  }

  /** The second row of an article: the current one takes the place of the legacy one. */
  lemma PreferredAgain<A>(rows: seq<Item<Raw<A>>>, x: Item<Raw<A>>, cursor: Option<Pos>, y: Item<Raw<A>>)
    requires Consistent(rows + [x]) && y in rows && y.pos.id == x.pos.id
    ensures Preferred(rows + [x], cursor) ==
            if AfterCursor(ORDER, cursor, x.pos) && x.value.place.Current?
            then Preferred(rows, cursor) - {y} + {x} else Preferred(rows, cursor)
    ensures y in Preferred(rows, cursor) <==> AfterCursor(ORDER, cursor, x.pos)
  {
    LastAgrees(rows, x, y);
    forall z | z in rows && z.pos.id == y.pos.id ensures z == y {
      LastAgrees(rows, x, z);
      OneRowEach(rows, x, y, z);
    }
    forall id ensures HasCurrent(rows + [x], id) <==> HasCurrent(rows, id) || (x.pos.id == id && x.value.place.Current?) {
      HasCurrentMore(rows, x, id);
    }
    assert HasCurrent(rows, y.pos.id) <==> y.value.place.Current?;
    assert forall z | z in rows :: z.pos.id != y.pos.id || z == y;
  }

  lemma OneRowEach<A>(rows: seq<Item<Raw<A>>>, x: Item<Raw<A>>, y: Item<Raw<A>>, z: Item<Raw<A>>)
    requires Consistent(rows + [x]) && y in rows && z in rows && y.pos.id == z.pos.id
    requires y.value.place == z.value.place
    ensures y == z
  {
    var all := rows + [x];
    var i :| 0 <= i < |rows| && rows[i] == y;
    var j :| 0 <= j < |rows| && rows[j] == z;
    assert all[i] == y && all[j] == z;
    assert i == j;
  }

  // ----- Keeping the first n -----

  /** Appending, sorting and cutting off: the first n of one item more. */
  lemma TopInsert<T>(o: Order, top: seq<Item<T>>, s: set<Item<T>>, n: nat, x: Item<T>, sorted: seq<Item<T>>)
    requires IsTop(o, top, s, n) && x !in top
    requires Sorted(o, sorted) && multiset(sorted) == multiset(top + [x])
    ensures IsTop(o, if |sorted| > n then sorted[..n] else sorted, s + {x}, n)
  {
    SameElements(sorted, top + [x]);
    SizesEqual(sorted, top + [x]);
    var cut := if |sorted| > n then sorted[..n] else sorted;
    forall y | y in cut ensures y in s + {x} {
      assert y in sorted;
    }
    forall y | y in s + {x} && y !in cut
      ensures |cut| == n && forall i | 0 <= i < |cut| :: Before(o, cut[i].pos, y.pos)
    {
      TopInsertRest(o, top, s, n, x, sorted, cut, y);
    }
  }

  lemma SizesEqual<T>(a: seq<T>, b: seq<T>)
    requires multiset(a) == multiset(b)
    ensures |a| == |b|
  {
    assert |multiset(a)| == |a| && |multiset(b)| == |b|;
  }

  lemma TopInsertRest<T>(o: Order, top: seq<Item<T>>, s: set<Item<T>>, n: nat, x: Item<T>, sorted: seq<Item<T>>,
                         cut: seq<Item<T>>, y: Item<T>)
    requires IsTop(o, top, s, n) && Sorted(o, sorted) && |sorted| == |top| + 1
    requires forall z :: z in sorted <==> z in top || z == x
    requires cut == (if |sorted| > n then sorted[..n] else sorted)
    requires y in s + {x} && y !in cut
    ensures |cut| == n && forall i | 0 <= i < |cut| :: Before(o, cut[i].pos, y.pos)
  {
    if y in sorted {
      var k :| 0 <= k < |sorted| && sorted[k] == y;
      assert forall i | 0 <= i < |cut| :: sorted[i] in cut;
      assert k >= |cut|;
    } else {
      // y is an old item that was left out before: everything kept then precedes it.
      assert |top| == n && sorted[n] in top + [x];
      forall i | 0 <= i < n ensures Before(o, sorted[i].pos, y.pos) {
        EarlierThanAll(o, top, x, sorted, y, i);
      }
    }
  }

  lemma EarlierThanAll<T>(o: Order, top: seq<Item<T>>, x: Item<T>, sorted: seq<Item<T>>, y: Item<T>, i: nat)
    requires Sorted(o, sorted) && (forall z :: z in sorted <==> z in top || z == x)
    requires forall j | 0 <= j < |top| :: Before(o, top[j].pos, y.pos)
    requires i + 1 < |sorted|
    ensures Before(o, sorted[i].pos, y.pos)
  {
    assert sorted[i] in sorted && sorted[i + 1] in sorted;
    if sorted[i] in top {
      var j :| 0 <= j < |top| && top[j] == sorted[i];
    } else {
      BeforeTotal(o, x.pos, x.pos);
      assert Before(o, sorted[i].pos, sorted[i + 1].pos);
      var j :| 0 <= j < |top| && top[j] == sorted[i + 1];
      BeforeTransitive(o, x.pos, top[j].pos, y.pos);
    }
  }

  /** Replacing an item by one at the same position. */
  lemma TopReplace<T>(o: Order, top: seq<Item<T>>, s: set<Item<T>>, n: nat, k: nat, x: Item<T>)
    requires IsTop(o, top, s, n) && k < |top| && x.pos == top[k].pos
    requires UniqueIds(s)
    ensures IsTop(o, top[k := x], s - {top[k]} + {x}, n)
  {
    var top' := top[k := x];
    assert forall i | 0 <= i < |top| :: top'[i].pos == top[i].pos && top[i] in s;
    forall i | 0 <= i < |top| && i != k ensures top[i] != top[k] {
      BeforeTotal(o, top[k].pos, top[k].pos);
      if i < k {
        assert Before(o, top[i].pos, top[k].pos);
      } else {
        assert Before(o, top[k].pos, top[i].pos);
      }
    }
    forall y | y in s - {top[k]} + {x} && y !in top'
      ensures |top'| == n && forall i | 0 <= i < |top'| :: Before(o, top'[i].pos, y.pos)
    {
      assert top'[k] == x;
      assert y !in top by {
        assert forall i | 0 <= i < |top| && i != k :: top'[i] == top[i];
      }
    }
  }

  /** Leaving out something that was not kept. */
  lemma TopWithout<T>(o: Order, top: seq<Item<T>>, s: set<Item<T>>, n: nat, y: Item<T>)
    requires IsTop(o, top, s, n) && y !in top
    ensures IsTop(o, top, s - {y}, n)
  {
  }

  /** Adding something that comes after everything kept. */
  lemma TopWith<T>(o: Order, top: seq<Item<T>>, s: set<Item<T>>, n: nat, x: Item<T>)
    requires IsTop(o, top, s, n) && |top| == n && forall i | 0 <= i < n :: Before(o, top[i].pos, x.pos)
    ensures IsTop(o, top, s + {x}, n)
  {
  }

  lemma SortedUnique<T>(o: Order, a: seq<Item<T>>, b: seq<Item<T>>)
    requires Sorted(o, a) && Sorted(o, b) && multiset(a) == multiset(b)
    ensures a == b
  {
    SameElements(a, b);
    SizesEqual(a, b);
    TopUnique(o, a, b, Elements(a), |a|);
  }

  lemma PreferredUnique<A>(rows: seq<Item<Raw<A>>>, cursor: Option<Pos>)
    requires Consistent(rows)
    ensures UniqueIds(Preferred(rows, cursor))
  {
    forall x, y | x in Preferred(rows, cursor) && y in Preferred(rows, cursor) && x.pos.id == y.pos.id ensures x == y {
      var i :| 0 <= i < |rows| && rows[i] == x;
      var j :| 0 <= j < |rows| && rows[j] == y;
      assert !x.value.place.Misplaced? && !y.value.place.Misplaced?;
      if x.value.place != y.value.place {
        assert HasCurrent(rows, x.pos.id);
      }
    }
  }

  /** The candidate list after replacing, or after appending, sorting and cutting off. */
  lemma FoundStep<A>(rows: seq<Item<Raw<A>>>, x: Item<Raw<A>>, cursor: Option<Pos>, n: nat,
                     top: seq<Item<Raw<A>>>, k: nat)
    requires Consistent(rows + [x]) && AfterCursor(ORDER, cursor, x.pos)
    requires IsTop(ORDER, top, Preferred(rows, cursor), n) && k < |top| && top[k].pos.id == x.pos.id
    ensures SameArticle(top[k], x)
    ensures IsTop(ORDER, if x.value.place.Current? then top[k := x] else top, Preferred(rows + [x], cursor), n)
  {
    var y := top[k];
    assert y in top && y in rows;
    LastAgrees(rows, x, y);
    PreferredAgain(rows, x, cursor, y);
    assert rows == (rows + [x])[..|rows|];
    ConsistentPrefix(rows + [x], |rows|);
    PreferredUnique(rows, cursor);
    if x.value.place.Current? {
      TopReplace(ORDER, top, Preferred(rows, cursor), n, k, x);
    }
  }

  lemma NotFoundStep<A>(rows: seq<Item<Raw<A>>>, x: Item<Raw<A>>, cursor: Option<Pos>, n: nat,
                        top: seq<Item<Raw<A>>>, sorted: seq<Item<Raw<A>>>)
    requires Consistent(rows + [x]) && AfterCursor(ORDER, cursor, x.pos)
    requires IsTop(ORDER, top, Preferred(rows, cursor), n) && forall k | 0 <= k < |top| :: top[k].pos.id != x.pos.id
    requires Sorted(ORDER, sorted) && multiset(sorted) == multiset(top + [x])
    ensures IsTop(ORDER, if |sorted| > n then sorted[..n] else sorted, Preferred(rows + [x], cursor), n)
  {
    var s := Preferred(rows, cursor);
    assert x !in top;
    if Fresh(rows, x) {
      PreferredFresh(rows, x, cursor);
      TopInsert(ORDER, top, s, n, x, sorted);
    } else {
      var y :| y in rows && y.pos.id == x.pos.id;
      LastAgrees(rows, x, y);
      PreferredAgain(rows, x, cursor, y);
      assert y !in top;
      EvictedStaysOut(rows, x, cursor, n, top, sorted, y);
    }
  }

  /** A row of an article that was already cut off is cut off again. */
  lemma EvictedStaysOut<A>(rows: seq<Item<Raw<A>>>, x: Item<Raw<A>>, cursor: Option<Pos>, n: nat,
                           top: seq<Item<Raw<A>>>, sorted: seq<Item<Raw<A>>>, y: Item<Raw<A>>)
    requires IsTop(ORDER, top, Preferred(rows, cursor), n) && x !in top && y !in top
    requires y in Preferred(rows, cursor) && y.pos == x.pos
    requires Preferred(rows + [x], cursor) ==
             if x.value.place.Current? then Preferred(rows, cursor) - {y} + {x} else Preferred(rows, cursor)
    requires Sorted(ORDER, sorted) && multiset(sorted) == multiset(top + [x])
    ensures IsTop(ORDER, if |sorted| > n then sorted[..n] else sorted, Preferred(rows + [x], cursor), n)
  {
    var s := Preferred(rows, cursor);
    if x.value.place.Current? {
      TopWithout(ORDER, top, s, n, y);
      TopInsert(ORDER, top, s - {y}, n, x, sorted);
    } else {
      TopInsert(ORDER, top, s, n, x, sorted);
      TopWith(ORDER, top, s, n, x);
      TopUnique(ORDER, top, if |sorted| > n then sorted[..n] else sorted, s + {x}, n);
    }
  }

  // ----- Conflicts -----

  /**
    What the candidates say of a row that was considered, whatever rows there
    are: its article is among them with the same state, or they are n and all
    come before it.
   */
  ghost predicate AccountedRow<A>(candidates: seq<Item<Raw<A>>>, n: nat, y: Item<Raw<A>>) {
    || (exists c :: c in candidates && SameArticle(c, y))
    || (|candidates| == n && forall c | c in candidates :: Before(ORDER, c.pos, y.pos))
  }

  ghost predicate Accounted<A>(candidates: seq<Item<Raw<A>>>, rows: seq<Item<Raw<A>>>, cursor: Option<Pos>, n: nat) {
    && |candidates| <= n
    && (forall y | y in rows && AfterCursor(ORDER, cursor, y.pos) :: AccountedRow(candidates, n, y))
    && (forall y | y in rows :: !y.value.place.Misplaced?)
  }

  lemma AccountedSkip<A>(candidates: seq<Item<Raw<A>>>, rows: seq<Item<Raw<A>>>, cursor: Option<Pos>, n: nat, x: Item<Raw<A>>)
    requires Accounted(candidates, rows, cursor, n) && !AfterCursor(ORDER, cursor, x.pos) && !x.value.place.Misplaced?
    ensures Accounted(candidates, rows + [x], cursor, n)
  {
    hide AccountedRow;
  }

  /** The article was found: another row of it may take the place. */
  lemma AccountedFound<A>(candidates: seq<Item<Raw<A>>>, rows: seq<Item<Raw<A>>>, cursor: Option<Pos>, n: nat, x: Item<Raw<A>>,
                          k: nat, sorted: seq<Item<Raw<A>>>)
    requires Accounted(candidates, rows, cursor, n) && !x.value.place.Misplaced? && k < |candidates| && SameArticle(candidates[k], x)
    requires var next := if x.value.place.Current? then candidates[k := x] else candidates;
             |sorted| == |next| && forall c :: c in sorted <==> c in next
    ensures Accounted(sorted, rows + [x], cursor, n)
  {
    var next := if x.value.place.Current? then candidates[k := x] else candidates;
    assert SameArticle(next[k], x) && next[k] in sorted;
    forall y | y in rows && AfterCursor(ORDER, cursor, y.pos) ensures AccountedRow(sorted, n, y) {
      assert AccountedRow(candidates, n, y);
      if c :| c in candidates && SameArticle(c, y) {
        var i :| 0 <= i < |candidates| && candidates[i] == c;
        assert next[i] in sorted && SameArticle(next[i], y);
      } else {
        forall c | c in sorted ensures Before(ORDER, c.pos, y.pos) {
          var i :| 0 <= i < |next| && next[i] == c;
          assert c.pos == candidates[i].pos;
        }
      }
    }
  }

  /** The article was not found: it is put in, and whatever is cut off comes after everything that is kept. */
  lemma AccountedNew<A>(candidates: seq<Item<Raw<A>>>, rows: seq<Item<Raw<A>>>, cursor: Option<Pos>, n: nat, x: Item<Raw<A>>,
                        sorted: seq<Item<Raw<A>>>)
    requires Accounted(candidates, rows, cursor, n) && !x.value.place.Misplaced?
    requires Sorted(ORDER, sorted) && |sorted| == |candidates| + 1 && forall c :: c in sorted <==> c in candidates || c == x
    ensures Accounted(if |sorted| > n then sorted[..n] else sorted, rows + [x], cursor, n)
  {
    var cut := if |sorted| > n then sorted[..n] else sorted;
    forall y | y in rows + [x] && AfterCursor(ORDER, cursor, y.pos) ensures AccountedRow(cut, n, y) {
      if c :| c in sorted && SameArticle(c, y) {
        AccountedKept(sorted, n, c, y);
      } else {
        assert SameArticle(x, x) && y in rows && AccountedRow(candidates, n, y);
        AccountedCut(candidates, n, x, sorted, y);
      }
    }
  }

  lemma AccountedKept<A>(sorted: seq<Item<Raw<A>>>, n: nat, c: Item<Raw<A>>, y: Item<Raw<A>>)
    requires Sorted(ORDER, sorted) && |sorted| <= n + 1 && c in sorted && SameArticle(c, y)
    ensures AccountedRow(if |sorted| > n then sorted[..n] else sorted, n, y)
  {
    var cut := if |sorted| > n then sorted[..n] else sorted;
    var i :| 0 <= i < |sorted| && sorted[i] == c;
    if i < |cut| {
      assert cut[i] == c;
    } else {
      forall d | d in cut ensures Before(ORDER, d.pos, y.pos) {
        var j :| 0 <= j < |cut| && cut[j] == d;
        assert Before(ORDER, sorted[j].pos, sorted[n].pos);
      }
    }
  }

  lemma AccountedCut<A>(candidates: seq<Item<Raw<A>>>, n: nat, x: Item<Raw<A>>, sorted: seq<Item<Raw<A>>>, y: Item<Raw<A>>)
    requires Sorted(ORDER, sorted) && |sorted| == n + 1 && forall c :: c in sorted <==> c in candidates || c == x
    requires |candidates| == n && forall c | c in candidates :: Before(ORDER, c.pos, y.pos)
    ensures AccountedRow(sorted[..n], n, y)
  {
    forall d | d in sorted[..n] ensures Before(ORDER, d.pos, y.pos) {
      var j :| 0 <= j < n && sorted[..n][j] == d;
      assert Before(ORDER, sorted[j].pos, sorted[n].pos);
      if d !in candidates {
        assert d == x && sorted[n] in sorted;
        BeforeTotal(ORDER, x.pos, x.pos);
        assert sorted[n] in candidates;
        BeforeTransitive(ORDER, d.pos, sorted[n].pos, y.pos);
      }
    }
  }

  /** What a page without a conflict says of every row: the shown articles are shown in the state of all rows at their place. */
  lemma AccountedPage<A>(candidates: seq<Item<Raw<A>>>, rows: seq<Item<Raw<A>>>, cursor: Option<Pos>, n: nat, x: Item<Raw<A>>, y: Item<Raw<A>>)
    requires Accounted(candidates, rows, cursor, n) && AllDifferent(candidates)
    requires x in candidates && y in rows && AfterCursor(ORDER, cursor, y.pos) && y.pos.id == x.pos.id
    ensures SameArticle(x, y) || Before(ORDER, x.pos, y.pos)
  {
    assert AccountedRow(candidates, n, y);
    if c :| c in candidates && SameArticle(c, y) {
      var i :| 0 <= i < |candidates| && candidates[i] == c;
      var j :| 0 <= j < |candidates| && candidates[j] == x;
      assert i == j;
    }
  }

  lemma AccountedNothing<A>(cursor: Option<Pos>, n: nat)
    ensures Accounted<A>([], [], cursor, n)
  {
  }

  lemma AccountedPages<A>(candidates: seq<Item<Raw<A>>>, rows: seq<Item<Raw<A>>>, cursor: Option<Pos>, n: nat)
    requires Accounted(candidates, rows, cursor, n) && AllDifferent(candidates)
    ensures forall y | y in rows :: !y.value.place.Misplaced?
    ensures forall x, y | x in candidates && y in rows && AfterCursor(ORDER, cursor, y.pos) && y.pos.id == x.pos.id ::
              (x.pos == y.pos && x.value.state == y.value.state) || Before(ORDER, x.pos, y.pos)
  {
    forall x, y | x in candidates && y in rows && AfterCursor(ORDER, cursor, y.pos) && y.pos.id == x.pos.id
      ensures (x.pos == y.pos && x.value.state == y.value.state) || Before(ORDER, x.pos, y.pos)
    {
      AccountedPage(candidates, rows, cursor, n, x, y);
    }
    hide AccountedRow;
  }

  // ----- listCompat -----

  /** One turn of the scan: find the article among the candidates, or append, sort and cut off at n. */
  method Consider<A(==)>(candidates: seq<Item<Raw<A>>>, x: Item<Raw<A>>, cursor: Option<Pos>, n: nat, ghost rows: seq<Item<Raw<A>>>)
    returns (r: Result<seq<Item<Raw<A>>>>)
    requires AllDifferent(candidates)
    requires Consistent(rows + [x]) ==> IsTop(ORDER, candidates, Preferred(rows, cursor), n)
    requires Accounted(candidates, rows, cursor, n)
    ensures r.Err? ==> !Consistent(rows + [x])
    ensures r.Ok? ==> Accounted(r.value, rows + [x], cursor, n)
    ensures r.Ok? ==> AllDifferent(r.value)
    ensures r.Ok? && Consistent(rows + [x]) ==> IsTop(ORDER, r.value, Preferred(rows + [x], cursor), n)
  {
    hide Accounted;
    assert x in rows + [x];
    if x.value.place.Misplaced? {
      return Err(Storage);
    }
    if !AfterCursor(ORDER, cursor, x.pos) {
      AccountedSkip(candidates, rows, cursor, n, x);
      if Consistent(rows + [x]) {
        SkipStep(rows, x, cursor);
      }
      return Ok(candidates);
    }
    var index := 0;
    while index < |candidates| && candidates[index].pos.id != x.pos.id
      invariant 0 <= index <= |candidates|
      invariant forall k | 0 <= k < index :: candidates[k].pos.id != x.pos.id
    {
      index := index + 1;
    }
    var next := candidates;
    if index < |candidates| {
      if Consistent(rows + [x]) {
        FoundStep(rows, x, cursor, n, candidates, index);
      }
      if !SameArticle(candidates[index], x) {
        return Err(Storage);
      }
      if x.value.place.Current? {
        next := candidates[index := x];
      }
      var sorted := SortItems(ORDER, next);
      if Consistent(rows + [x]) {
        SortedUnique(ORDER, sorted, next);
      }
      DifferentPermuted(next, sorted);
      SameElements(next, sorted);
      SizesEqual(next, sorted);
      AccountedFound(candidates, rows, cursor, n, x, index, sorted);
      next := sorted;
    } else {
      next := candidates + [x];
      var sorted := SortItems(ORDER, next);
      if Consistent(rows + [x]) {
        NotFoundStep(rows, x, cursor, n, candidates, sorted);
      }
      DifferentPermuted(next, sorted);
      SameElements(next, sorted);
      SizesEqual(next, sorted);
      AccountedNew(candidates, rows, cursor, n, x, sorted);
      next := sorted;
    }
    if |next| > n {
      next := next[..n];
    }
    return Ok(next);
  }

  lemma SkipStep<A>(rows: seq<Item<Raw<A>>>, x: Item<Raw<A>>, cursor: Option<Pos>)
    requires Consistent(rows + [x]) && !AfterCursor(ORDER, cursor, x.pos)
    ensures Preferred(rows + [x], cursor) == Preferred(rows, cursor)
  {
    if Fresh(rows, x) {
      PreferredFresh(rows, x, cursor);
    } else {
      var y :| y in rows && y.pos.id == x.pos.id;
      PreferredAgain(rows, x, cursor, y);
    }
  }

  lemma DifferentPermuted<T>(a: seq<Item<T>>, b: seq<Item<T>>)
    requires AllDifferent(a) && multiset(a) == multiset(b)
    ensures AllDifferent(b)
  {
    SizesEqual(a, b);
    forall i, j | 0 <= i < j < |b| ensures b[i].pos.id != b[j].pos.id {
      TwoOccurrences(a, b, i, j);
    }
  }

  lemma TwoOccurrences<T>(a: seq<Item<T>>, b: seq<Item<T>>, i: nat, j: nat)
    requires AllDifferent(a) && multiset(a) == multiset(b) && i < j < |b|
    ensures b[i].pos.id != b[j].pos.id
  {
    SameElements(a, b);
    assert b[i] in a && b[j] in a;
    var i' :| 0 <= i' < |a| && a[i'] == b[i];
    var j' :| 0 <= j' < |a| && a[j'] == b[j];
    if b[i] == b[j] {
      assert b == b[..i] + [b[i]] + b[i + 1..j] + [b[j]] + b[j + 1..];
      assert multiset(b)[b[i]] >= 2;
      OnceInDifferent(a, i');
    }
  }

  lemma OnceInDifferent<T>(a: seq<Item<T>>, i: nat)
    requires AllDifferent(a) && i < |a|
    ensures multiset(a)[a[i]] == 1
  {
    assert a == a[..i] + [a[i]] + a[i + 1..];
    assert a[i] !in a[..i] && a[i] !in a[i + 1..];
  }

  /** A consistent table is consistent as far as it has been scanned. */
  lemma ConsistentScan<A>(pages: seq<seq<Item<Raw<A>>>>, p: nat, i: nat)
    requires p < |pages| && i < |pages[p]|
    ensures var rows, x := Flatten(pages[..p]) + pages[p][..i], pages[p][i];
            && (Consistent(Flatten(pages)) ==> Consistent(rows + [x]))
            && (Consistent(rows + [x]) ==> Consistent(rows))
  {
    var rows, x := Flatten(pages[..p]) + pages[p][..i], pages[p][i];
    ScannedPrefix(pages, p, i);
    hide Consistent;
    if Consistent(Flatten(pages)) {
      ConsistentPrefix(Flatten(pages), |rows| + 1);
    }
    if Consistent(rows + [x]) {
      ConsistentPrefix(rows + [x], |rows|);
      assert (rows + [x])[..|rows|] == rows;
    }
  }

  datatype Page<A> = Page(items: seq<Item<Raw<A>>>, number: nat, next: Option<Pos>)

  /**
    listCompat, over the physical pages in the order the service returned them.
    pageNumber is the page of the cursor, 0 without one.
   */
  method ListCompat<A(==)>(pages: seq<seq<Item<Raw<A>>>>, cursor: Option<Pos>, pageNumber: nat, limit: nat)
    returns (r: Result<Page<A>>)
    requires limit > 0
    ensures Consistent(Flatten(pages)) ==> r.Ok?
    ensures Consistent(Flatten(pages)) ==>
              ExactPage(ORDER, r.value.items, r.value.next, Preferred(Flatten(pages), cursor), limit)
    ensures r.Ok? ==> r.value.number == pageNumber + 1
    ensures r.Ok? ==> forall y | y in Flatten(pages) :: !y.value.place.Misplaced?
    ensures r.Ok? ==> forall x, y | x in r.value.items && y in Flatten(pages) && AfterCursor(ORDER, cursor, y.pos) && y.pos.id == x.pos.id ::
              (x.pos == y.pos && x.value.state == y.value.state) || Before(ORDER, x.pos, y.pos)
  {
    hide Accounted;
    var candidates: seq<Item<Raw<A>>> := [];
    ghost var rows: seq<Item<Raw<A>>> := [];
    AccountedNothing<A>(cursor, limit + 1);
    for p := 0 to |pages|
      invariant rows == Flatten(pages[..p]) && AllDifferent(candidates) && Accounted(candidates, rows, cursor, limit + 1)
      invariant Consistent(rows) ==> IsTop(ORDER, candidates, Preferred(rows, cursor), limit + 1)
    {
      for i := 0 to |pages[p]|
        invariant rows == Flatten(pages[..p]) + pages[p][..i] && AllDifferent(candidates) && Accounted(candidates, rows, cursor, limit + 1)
        invariant Consistent(rows) ==> IsTop(ORDER, candidates, Preferred(rows, cursor), limit + 1)
      {
        ConsistentScan(pages, p, i);
        var step := Consider(candidates, pages[p][i], cursor, limit + 1, rows);
        if step.Err? {
          return Err(step.error);
        }
        candidates := step.value;
        assert pages[p][..i + 1] == pages[p][..i] + [pages[p][i]];
        rows := rows + [pages[p][i]];
      }
      assert pages[..p + 1][..p] == pages[..p] && pages[p][..|pages[p]|] == pages[p];
    }
    assert pages[..|pages|] == pages;
    var more := |candidates| > limit;
    if Consistent(Flatten(pages)) {
      LookAhead(candidates, Preferred(Flatten(pages), cursor), limit);
    }
    AccountedPages(candidates, Flatten(pages), cursor, limit + 1);
    if more {
      candidates := candidates[..limit];
    }
    return Ok(Page(candidates, pageNumber + 1, if more then Some(candidates[limit - 1].pos) else None));
  }

  /** The first limit + 1 items say what the first limit are, and whether there are more. */
  lemma LookAhead<T>(top: seq<Item<T>>, s: set<Item<T>>, limit: nat)
    requires IsTop(ORDER, top, s, limit + 1) && limit > 0
    ensures if |top| > limit then ExactPage(ORDER, top[..limit], Some(top[limit - 1].pos), s, limit)
            else ExactPage(ORDER, top, None, s, limit)
  {
    if |top| > limit {
      var items := top[..limit];
      assert forall i | 0 <= i < limit :: items[i] in top;
      assert top[limit] in top;
      forall i | 0 <= i < limit ensures items[i] != top[limit] {
        assert Before(ORDER, top[i].pos, top[limit].pos);
        BeforeTotal(ORDER, top[limit].pos, top[limit].pos);
      }
      assert top[limit] in s && top[limit] !in items;
      forall x | x in s && x !in items ensures forall i | 0 <= i < limit :: Before(ORDER, items[i].pos, x.pos) {
        if x in top {
          var k :| 0 <= k < |top| && top[k] == x;
          assert forall i | 0 <= i < limit :: top[i] in items;
        }
      }
    }
  }

  // ----- The same page from every repository -----

  function Plain<A>(x: Item<Raw<A>>): Item<A> { Item(x.pos, x.value.state) }

  function PlainSeq<A>(s: seq<Item<Raw<A>>>): (r: seq<Item<A>>)
    ensures |r| == |s| && forall i | 0 <= i < |r| :: r[i] == Plain(s[i])
  {
    seq(|s|, i requires 0 <= i < |s| => Plain(s[i]))
  }

  ghost function PlainSet<A>(s: set<Item<Raw<A>>>): set<Item<A>> {
    set x | x in s :: Plain(x)
  }

  lemma PlainTop<A>(items: seq<Item<Raw<A>>>, s: set<Item<Raw<A>>>, limit: nat)
    requires UniqueIds(s) && IsTop(ORDER, items, s, limit)
    ensures IsTop(ORDER, PlainSeq(items), PlainSet(s), limit)
    ensures forall x | x in s :: Plain(x) in PlainSeq(items) <==> x in items
  {
    var plain := PlainSeq(items);
    forall y | y in plain ensures y in PlainSet(s) {
      var i :| 0 <= i < |plain| && plain[i] == y;
      assert items[i] in items;
    }
    forall x | x in s ensures Plain(x) in plain <==> x in items {
      PlainIn(items, s, x);
    }
    forall y | y in PlainSet(s) && y !in plain
      ensures |plain| == limit && forall i | 0 <= i < |plain| :: Before(ORDER, plain[i].pos, y.pos)
    {
      var x :| x in s && Plain(x) == y;
      assert x !in items;
    }
  }

  lemma PlainPage<A>(items: seq<Item<Raw<A>>>, next: Option<Pos>, s: set<Item<Raw<A>>>, limit: nat)
    requires UniqueIds(s) && ExactPage(ORDER, items, next, s, limit)
    ensures ExactPage(ORDER, PlainSeq(items), next, PlainSet(s), limit)
  {
    hide IsTop;
    hide UniqueIds;
    PlainTop(items, s, limit);
    var plain := PlainSeq(items);
    forall y | y in PlainSet(s) && y !in plain ensures next.Some? {
      var x :| x in s && Plain(x) == y;
      assert x !in items;
    }
    if next.Some? {
      var x :| x in s && x !in items;
      assert Plain(x) in PlainSet(s) && Plain(x) !in plain;
    }
  }

  lemma PlainIn<A>(items: seq<Item<Raw<A>>>, s: set<Item<Raw<A>>>, x: Item<Raw<A>>)
    requires UniqueIds(s) && (forall y | y in items :: y in s) && x in s
    ensures Plain(x) in PlainSeq(items) <==> x in items
  {
    var plain := PlainSeq(items);
    if x in items {
      var i :| 0 <= i < |items| && items[i] == x;
      assert plain[i] == Plain(x);
    }
    if Plain(x) in plain {
      var i :| 0 <= i < |plain| && plain[i] == Plain(x);
      assert items[i] in items && items[i].pos.id == x.pos.id;
    }
  }

  /**
    The compatibility listing of a table returns the page that the memory
    repository returns for the same articles, whatever the row order, the
    physical pages and the mixture of layouts.
   */
  lemma CompatListsLikeMemory<A>(rows: seq<Item<Raw<A>>>, stored: set<Item<A>>, cursor: Option<Pos>, limit: nat,
                                 page: seq<Item<Raw<A>>>, next: Option<Pos>, page': seq<Item<A>>, next': Option<Pos>)
    requires Consistent(rows) && PlainSet(Preferred(rows, None)) == stored
    requires ExactPage(ORDER, page, next, Preferred(rows, cursor), limit)
    requires ExactPage(ORDER, page', next', Beyond(ORDER, stored, cursor), limit)
    ensures PlainSeq(page) == page' && next == next'
  {
    hide Consistent;
    hide IsTop;
    PreferredUnique(rows, cursor);
    PlainPage(page, next, Preferred(rows, cursor), limit);
    PlainBeyond(rows, cursor);
    hide PlainSet;
    hide Preferred;
    hide UniqueIds;
    TopUnique(ORDER, PlainSeq(page), page', Beyond(ORDER, stored, cursor), limit);
  }

  lemma PlainBeyond<A>(rows: seq<Item<Raw<A>>>, cursor: Option<Pos>)
    ensures PlainSet(Preferred(rows, cursor)) == Beyond(ORDER, PlainSet(Preferred(rows, None)), cursor)
  {
    hide HasCurrent;
    forall y ensures y in PlainSet(Preferred(rows, cursor)) <==> y in Beyond(ORDER, PlainSet(Preferred(rows, None)), cursor) {
      if y in PlainSet(Preferred(rows, cursor)) {
        var x :| x in Preferred(rows, cursor) && Plain(x) == y;
        assert x in Preferred(rows, None);
      }
      if y in Beyond(ORDER, PlainSet(Preferred(rows, None)), cursor) {
        var x :| x in Preferred(rows, None) && Plain(x) == y;
        assert x in Preferred(rows, cursor);
      }
    }
  }
}
