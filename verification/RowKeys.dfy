/**
  Row keys of the storage tables: articleRowKey, contactRowKey and slugRowKey
  of internal/storage/azure/schema.go, and the order the table service keeps
  them in.
 */
module RowKeys {
  import opened Outcomes
  import opened ArticleModel
  import T = ArticleTable

  // ----- The order of strings -----

  /** Byte by byte, a proper prefix first: Go's < on strings and the order of row keys. */
  predicate Less(a: string, b: string) {
    b != "" && (a == "" || a[0] < b[0] || (a[0] == b[0] && Less(a[1..], b[1..])))
  }

  lemma {:induction false} LessTotal(a: string, b: string)
    ensures a == b || Less(a, b) || Less(b, a)
    ensures !(Less(a, b) && Less(b, a)) && !Less(a, a)
  {
    if a != "" && b != "" {
      LessTotal(a[1..], b[1..]);
      assert a[0] == b[0] && a[1..] == b[1..] ==> a == [a[0]] + a[1..] == b;
    }
    if a != "" {
      LessTotal(a[1..], a[1..]);
    }
  }

  lemma {:induction false} LessTransitive(a: string, b: string, c: string)
    requires Less(a, b) && Less(b, c)
    ensures Less(a, c)
  {
    if a != "" && a[0] == b[0] == c[0] {
      LessTransitive(a[1..], b[1..], c[1..]);
    }
  }

  /** A common prefix does not matter. */
  lemma {:induction false} LessPrefix(p: string, a: string, b: string)
    ensures Less(p + a, p + b) <==> Less(a, b)
  {
    if p == "" {
      assert p + a == a && p + b == b;
    } else {
      assert (p + a)[1..] == p[1..] + a && (p + b)[1..] == p[1..] + b;
      LessPrefix(p[1..], a, b);
    }
  }

  /** Different prefixes of one length decide. */
  lemma {:induction false} LessDecided(p: string, q: string, a: string, b: string)
    requires |p| == |q| && p != q
    ensures Less(p + a, q + b) <==> Less(p, q)
  {
    assert (p + a)[1..] == p[1..] + a && (q + b)[1..] == q[1..] + b;
    assert p == [p[0]] + p[1..] && q == [q[0]] + q[1..];
    if p[0] == q[0] {
      LessDecided(p[1..], q[1..], a, b);
    }
  }

  // ----- %020d -----

  function Digit(d: nat): char
    requires d < 10
  {
    (d as int + '0' as int) as char
  }

  function Power10(w: nat): nat {
    if w == 0 then 1 else 10 * Power10(w - 1)
  }

  /** The decimal digits of n, padded with zeros to w characters. */
  function Padded(n: nat, w: nat): (s: string)
    requires n < Power10(w)
    ensures |s| == w
    ensures forall c | c in s :: '0' <= c <= '9'
  {
    if w == 0 then "" else Padded(n / 10, w - 1) + [Digit(n % 10)]
  }

  lemma {:induction false} PaddedInjective(n: nat, m: nat, w: nat)
    requires n < Power10(w) && m < Power10(w) && Padded(n, w) == Padded(m, w)
    ensures n == m
  {
    if w > 0 {
      var s, t := Padded(n / 10, w - 1), Padded(m / 10, w - 1);
      assert (s + [Digit(n % 10)])[..w - 1] == s && (t + [Digit(m % 10)])[..w - 1] == t;
      assert (s + [Digit(n % 10)])[w - 1] == Digit(n % 10) && (t + [Digit(m % 10)])[w - 1] == Digit(m % 10);
      PaddedInjective(n / 10, m / 10, w - 1);
    }
  }

  /** Padded decimals sort like the numbers. */
  lemma {:induction false} PaddedOrder(n: nat, m: nat, w: nat)
    requires n < m < Power10(w)
    ensures Less(Padded(n, w), Padded(m, w))
  {
    if w > 0 {
      var s, t := Padded(n / 10, w - 1), Padded(m / 10, w - 1);
      if n / 10 == m / 10 {
        LessPrefix(s, [Digit(n % 10)], [Digit(m % 10)]);
      } else {
        PaddedOrder(n / 10, m / 10, w - 1);
        if s == t {
          PaddedInjective(n / 10, m / 10, w - 1);
        }
        LessDecided(s, t, [Digit(n % 10)], [Digit(m % 10)]);
      }
    }
  }

  // ----- Keys -----

  const MAX_UINT64 := 0xFFFF_FFFF_FFFF_FFFF
  const MAX_INT64 := 0x7FFF_FFFF_FFFF_FFFF

  /** The instants that UnixNano represents and that the keys accept. */
  predicate KeyTime(t: Time) { 0 <= t <= MAX_INT64 }

  lemma ReverseFits(t: Time)
    requires KeyTime(t)
    ensures 0 <= MAX_UINT64 - t < Power10(20)
  {
    assert Power10(10) == 1_00000_00000 by {
      assert Power10(5) == 1_00000;
    }
    assert Power10(15) == 1_00000_00000_00000;
    assert Power10(20) == 1_00000_00000_00000_00000;
  }

  function HexDigit(d: nat): char
    requires d < 16
  {
    if d < 10 then Digit(d) else (d as int - 10 + 'a' as int) as char
  }

  /** fmt "%02x" of a byte. */
  function Hex(b: nat): string
    requires b < 256
  {
    [HexDigit(b / 16), HexDigit(b % 16)]
  }

  predicate Bytes(s: string) { forall i | 0 <= i < |s| :: s[i] as int < 256 }

  /** Each byte of the ID complemented, in hexadecimal. */
  function Tie(id: string): string
    requires Bytes(id)
  {
    if id == "" then "" else Hex(255 - id[0] as int) + Tie(id[1..])
  }

  function Time20(t: Time): (s: string)
    requires KeyTime(t)
    ensures |s| == 20 && forall c | c in s :: '0' <= c <= '9'
  {
    ReverseFits(t);
    Padded(MAX_UINT64 - t, 20)
  }

  function ArticleKey(id: string, createdAt: Time): string
    requires Bytes(id) && KeyTime(createdAt)
  {
    Time20(createdAt) + ":" + Tie(id) + "z"
  }

  function ContactKey(id: string, createdAt: Time): string
    requires KeyTime(createdAt)
  {
    Time20(createdAt) + ":" + id
  }

  function SlugKey(slug: string): string { "slug:" + slug }

  const MARKER_KEY := "schema:article-row-key:v1"

  lemma SafeBytes(id: string)
    requires T.SafeSegment(id)
    ensures Bytes(id)
    ensures ':' !in id
  {
  }

  /** articleRowKey, for a time whose UnixNano is an int64. */
  method ArticleRowKey(id: string, createdAt: Time) returns (key: Result<string>)
    requires createdAt <= MAX_INT64
    ensures key.Ok? <==> T.SafeSegment(id) && createdAt >= 0
    ensures key.Ok? ==> Bytes(id) && key.value == ArticleKey(id, createdAt)
    ensures key.Err? ==> key.error == Validation
  {
    if !T.SafeSegment(id) || createdAt < 0 {
      return Err(Validation);
    }
    SafeBytes(id);
    var tie := "";
    for i := 0 to |id|
      invariant tie + Tie(id[i..]) == Tie(id)
    {
      assert id[i] in id;
      assert id[i..][0] == id[i] && id[i..][1..] == id[i + 1..];
      ghost var rest := Tie(id[i + 1..]);
      assert tie + (Hex(255 - id[i] as int) + rest) == (tie + Hex(255 - id[i] as int)) + rest;
      tie := tie + Hex(255 - id[i] as int);
    }
    assert id[|id|..] == "";
    return Ok(Time20(createdAt) + ":" + tie + "z");
  }

  // ----- Order -----

  lemma HexDigitOrder(d: nat, e: nat)
    requires d < 16 && e < 16
    ensures HexDigit(d) < HexDigit(e) <==> d < e
    ensures HexDigit(d) < 'z'
  {
  }

  lemma HexOrder(b: nat, c: nat)
    requires b < 256 && c < 256
    ensures Less(Hex(b), Hex(c)) <==> b < c
    ensures Hex(b) == Hex(c) <==> b == c
    ensures |Hex(b)| == |Hex(c)| == 2 && Hex(b)[0] < 'z'
  {
    HexDigitOrder(b / 16, c / 16);
    HexDigitOrder(c / 16, b / 16);
    HexDigitOrder(b % 16, c % 16);
    HexDigitOrder(c % 16, b % 16);
    TwoOrder(HexDigit(b / 16), HexDigit(b % 16), HexDigit(c / 16), HexDigit(c % 16));
  }

  lemma TwoOrder(a: char, b: char, c: char, d: char)
    ensures Less([a, b], [c, d]) <==> a < c || (a == c && b < d)
    ensures [a, b] == [c, d] <==> a == c && b == d
  {
    assert [a, b][1..] == [b] && [c, d][1..] == [d];
    assert [b][1..] == "" && [d][1..] == "";
    assert Less([b], [d]) <==> b < d;
    assert [a, b][0] == a && [c, d][0] == c && [a, b][1] == b && [c, d][1] == d;
  }

  /** Complementing the bytes and ending with z turns the order of IDs round. */
  lemma {:induction false} TieOrder(a: string, b: string)
    requires Bytes(a) && Bytes(b)
    ensures Less(Tie(a) + "z", Tie(b) + "z") <==> Less(b, a)
  {
    if a == "" && b == "" {
    } else if a == "" {
      HexOrder(255 - b[0] as int, 0);
      assert (Tie(b) + "z")[0] == Hex(255 - b[0] as int)[0];
      assert Tie(a) + "z" == "z";
    } else if b == "" {
      HexOrder(255 - a[0] as int, 0);
      assert (Tie(a) + "z")[0] == Hex(255 - a[0] as int)[0];
      assert Tie(b) + "z" == "z";
    } else {
      TieStep(a, b);
      if a[0] == b[0] {
        TieOrder(a[1..], b[1..]);
      }
    }
  }

  lemma TieUnfold(a: string)
    requires Bytes(a) && a != ""
    ensures Tie(a) + "z" == Hex(255 - a[0] as int) + (Tie(a[1..]) + "z")
  {
  }

  lemma TieStep(a: string, b: string)
    requires Bytes(a) && Bytes(b) && a != "" && b != ""
    ensures a[0] != b[0] ==> (Less(Tie(a) + "z", Tie(b) + "z") <==> b[0] < a[0])
    ensures a[0] == b[0] ==> (Less(Tie(a) + "z", Tie(b) + "z") <==> Less(Tie(a[1..]) + "z", Tie(b[1..]) + "z"))
  {
    hide Less;
    hide Hex;
    var x, y := 255 - a[0] as int, 255 - b[0] as int;
    TieUnfold(a);
    TieUnfold(b);
    hide Tie;
    HexOrder(x, y);
    if a[0] == b[0] {
      LessPrefix(Hex(x), Tie(a[1..]) + "z", Tie(b[1..]) + "z");
    } else {
      LessDecided(Hex(x), Hex(y), Tie(a[1..]) + "z", Tie(b[1..]) + "z");
    }
  }

  lemma Time20Order(s: Time, t: Time)
    requires KeyTime(s) && KeyTime(t)
    ensures s > t ==> Less(Time20(s), Time20(t)) && Time20(s) != Time20(t)
  {
    ReverseFits(s);
    ReverseFits(t);
    if s > t {
      PaddedOrder(MAX_UINT64 - s, MAX_UINT64 - t, 20);
      LessTotal(Time20(s), Time20(t));
    }
  }

  /** Keys that start with the reversed time sort by it, newest first, and then by the rest. */
  lemma TimeFirst(s: Time, t: Time, a: string, b: string)
    requires KeyTime(s) && KeyTime(t)
    ensures Less(Time20(s) + a, Time20(t) + b) <==> s > t || (s == t && Less(a, b))
  {
    Time20Order(s, t);
    Time20Order(t, s);
    if s == t {
      LessPrefix(Time20(s), a, b);
    } else {
      LessTotal(Time20(s), Time20(t));
      LessDecided(Time20(s), Time20(t), a, b);
    }
  }

  /** articleComesBefore: newer first, and the greater ID first at one time. */
  predicate ComesBefore(id: string, createdAt: Time, id': string, createdAt': Time) {
    createdAt > createdAt' || (createdAt == createdAt' && Less(id', id))
  }

  /** Row keys of articles sort exactly as listings of articles do. */
  lemma ArticleKeyOrder(id: string, createdAt: Time, id': string, createdAt': Time)
    requires Bytes(id) && Bytes(id') && KeyTime(createdAt) && KeyTime(createdAt')
    ensures Less(ArticleKey(id, createdAt), ArticleKey(id', createdAt')) <==> ComesBefore(id, createdAt, id', createdAt')
  {
    var a, b := ":" + (Tie(id) + "z"), ":" + (Tie(id') + "z");
    assert ArticleKey(id, createdAt) == Time20(createdAt) + a;
    assert ArticleKey(id', createdAt') == Time20(createdAt') + b;
    TimeFirst(createdAt, createdAt', a, b);
    LessPrefix(":", Tie(id) + "z", Tie(id') + "z");
    TieOrder(id, id');
  }

  /** Different articles have different keys. */
  lemma ArticleKeyInjective(id: string, createdAt: Time, id': string, createdAt': Time)
    requires Bytes(id) && Bytes(id') && KeyTime(createdAt) && KeyTime(createdAt')
    ensures ArticleKey(id, createdAt) == ArticleKey(id', createdAt') <==> id == id' && createdAt == createdAt'
  {
    ArticleKeyOrder(id, createdAt, id', createdAt');
    ArticleKeyOrder(id', createdAt', id, createdAt);
    LessTotal(id, id');
    LessTotal(ArticleKey(id, createdAt), ArticleKey(id', createdAt'));
  }

  /** Contacts sort newest first, and by ascending ID at one time. */
  lemma ContactKeyOrder(id: string, createdAt: Time, id': string, createdAt': Time)
    requires KeyTime(createdAt) && KeyTime(createdAt')
    ensures Less(ContactKey(id, createdAt), ContactKey(id', createdAt')) <==>
            createdAt > createdAt' || (createdAt == createdAt' && Less(id, id'))
  {
    assert ContactKey(id, createdAt) == Time20(createdAt) + (":" + id);
    assert ContactKey(id', createdAt') == Time20(createdAt') + (":" + id');
    TimeFirst(createdAt, createdAt', ":" + id, ":" + id');
    LessPrefix(":", id, id');
  }

  /** The four kinds of row of the articles partition never share a key. */
  lemma KindsDisjoint(id: string, createdAt: Time, legacyId: string, slug: string)
    requires Bytes(id) && KeyTime(createdAt) && T.SafeSegment(legacyId)
    ensures ArticleKey(id, createdAt) != legacyId
    ensures SlugKey(slug) != legacyId && MARKER_KEY != legacyId
    ensures ArticleKey(id, createdAt) != SlugKey(slug) && ArticleKey(id, createdAt) != MARKER_KEY
    ensures SlugKey(slug) != MARKER_KEY
  {
    SafeBytes(legacyId);
    assert ArticleKey(id, createdAt)[20] == ':' && SlugKey(slug)[4] == ':' && MARKER_KEY[6] == ':';
    assert ArticleKey(id, createdAt)[0] in Time20(createdAt);
    assert SlugKey(slug)[0] == 's' && MARKER_KEY[0] == 's';
    assert SlugKey(slug)[1] == 'l' && MARKER_KEY[1] == 'c';
  }

  // ----- Reading a key -----

  /** The number that decimal digits spell. */
  function Number(s: string): int {
    if s == "" then 0 else 10 * Number(s[..|s| - 1]) + (s[|s| - 1] as int - '0' as int)
  }

  /** The number that a hexadecimal digit in lower case spells. */
  function HexValue(c: char): int {
    if c <= '9' then c as int - '0' as int else c as int - 'a' as int + 10
  }

  lemma {:induction false} PaddedReads(n: nat, w: nat)
    requires n < Power10(w)
    ensures Number(Padded(n, w)) == n
  {
    if w > 0 {
      PaddedReads(n / 10, w - 1);
      var s := Padded(n / 10, w - 1);
      assert (s + [Digit(n % 10)])[..w - 1] == s && (s + [Digit(n % 10)])[w - 1] == Digit(n % 10);
    }
  }

  lemma HexReads(b: nat)
    requires b < 256
    ensures 16 * HexValue(Hex(b)[0]) + HexValue(Hex(b)[1]) == b
  {
    assert forall d: nat | d < 16 :: HexValue(HexDigit(d)) == d;
  }

  lemma {:induction false} TieReads(id: string, i: nat)
    requires Bytes(id) && i < |id|
    ensures |Tie(id)| == 2 * |id|
    ensures 16 * HexValue(Tie(id)[2 * i]) + HexValue(Tie(id)[2 * i + 1]) == 255 - id[i] as int
  {
    hide HexValue;
    var rest := Tie(id[1..]);
    assert Tie(id) == Hex(255 - id[0] as int) + rest;
    if |id| > 1 {
      TieReads(id[1..], if i == 0 then 0 else i - 1);
    } else {
      assert id[1..] == "";
    }
    if i == 0 {
      HexReads(255 - id[0] as int);
    } else {
      assert Tie(id)[2 * i] == rest[2 * (i - 1)] && Tie(id)[2 * i + 1] == rest[2 * (i - 1) + 1];
    }
  }

  /**
    What a key says: 20 digits count the nanoseconds backwards from 2^64 - 1; after a
    colon come the complemented bytes of the ID, two digits each, and a z.
   */
  lemma ArticleKeyReads(id: string, createdAt: Time)
    requires Bytes(id) && KeyTime(createdAt)
    ensures var key := ArticleKey(id, createdAt);
            && |key| == 22 + 2 * |id| && Number(key[..20]) == 18_446_744_073_709_551_615 - createdAt
            && key[20] == ':' && key[|key| - 1] == 'z'
            && forall i | 0 <= i < |id| :: 16 * HexValue(key[21 + 2 * i]) + HexValue(key[22 + 2 * i]) == 255 - id[i] as int
  {
    hide HexValue;
    hide Padded;
    hide Power10;
    var time, tie, key := Time20(createdAt), Tie(id), ArticleKey(id, createdAt);
    TimeReads(createdAt);
    assert key[..20] == time;
    if id == "" {
      assert tie == "";
    } else {
      TieReads(id, 0);
      forall i | 0 <= i < |id| ensures 16 * HexValue(key[21 + 2 * i]) + HexValue(key[22 + 2 * i]) == 255 - id[i] as int {
        TieReads(id, i);
        assert key[21 + 2 * i] == tie[2 * i] && key[22 + 2 * i] == tie[2 * i + 1];
      }
    }
  }

  lemma ContactKeyReads(id: string, createdAt: Time)
    requires KeyTime(createdAt)
    ensures var key := ContactKey(id, createdAt);
            |key| == 21 + |id| && Number(key[..20]) == 18_446_744_073_709_551_615 - createdAt && key[20] == ':' && key[21..] == id
  {
    TimeReads(createdAt);
    assert ContactKey(id, createdAt)[..20] == Time20(createdAt);
  }

  lemma TimeReads(t: Time)
    requires KeyTime(t)
    ensures Number(Time20(t)) == 18_446_744_073_709_551_615 - t
  {
    ReverseFits(t);
    PaddedReads(MAX_UINT64 - t, 20);
  }
}
