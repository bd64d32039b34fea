/**
 The string operations the broker relies on (Go's strings.Cut, strings.Split,
 strings.Join and the decimal verbs of fmt), with the facts that make them
 reversible.
 */
module Text {
  import opened Wrappers

  // ---------- first occurrence of a separator ----------

  predicate OccursAt(s: string, sep: string, i: nat) {
    i + |sep| <= |s| && s[i..i + |sep|] == sep
  }

  predicate Contains(s: string, sub: string) {
    exists i: nat | i <= |s| :: OccursAt(s, sub, i)
  }

  function FindFrom(s: string, sep: string, i: nat): (r: Option<nat>)
    requires i <= |s|
    ensures r.Some? ==> i <= r.value && OccursAt(s, sep, r.value)
    ensures r.Some? ==> forall j: nat | i <= j < r.value :: !OccursAt(s, sep, j)
    ensures r.None? ==> forall j: nat | i <= j :: !OccursAt(s, sep, j)
    decreases |s| - i
  {
    if OccursAt(s, sep, i) then Some(i)
    else if i == |s| then None
    else FindFrom(s, sep, i + 1)
  }

  /** The text before and after the first occurrence of `sep`, if there is one. */
  function Cut(s: string, sep: string): Option<(string, string)> {
    match FindFrom(s, sep, 0)
    case None => None
    case Some(i) => Some((s[..i], s[i + |sep|..]))
  }

  lemma CutParts(s: string, sep: string)
    requires Cut(s, sep).Some?
    ensures s == Cut(s, sep).value.0 + sep + Cut(s, sep).value.1
  {
  }

  lemma CutAt(s: string, sep: string, k: nat)
    requires OccursAt(s, sep, k)
    requires forall j: nat | j < k :: !OccursAt(s, sep, j)
    ensures Cut(s, sep) == Some((s[..k], s[k + |sep|..]))
  {
  }

  /** Cutting at a one-character separator undoes joining two parts with it. */
  lemma CutChar(a: string, c: char, b: string)
    requires c !in a
    ensures Cut(a + [c] + b, [c]) == Some((a, b))
  {
    var s := a + [c] + b;
    assert OccursAt(s, [c], |a|);
    forall j: nat | j < |a| ensures !OccursAt(s, [c], j) {
      assert s[j] == a[j];
      assert s[j..j + 1][0] == a[j];
    }
    CutAt(s, [c], |a|);
    assert s[..|a|] == a && s[|a| + 1..] == b;
  }

  /** A one-character separator is cut exactly when it occurs, and the first part is free of it. */
  lemma CutCharExact(s: string, c: char)
    ensures Cut(s, [c]).Some? <==> c in s
    ensures Cut(s, [c]).Some? ==> c !in Cut(s, [c]).value.0
  {
    if c in s {
      var i :| 0 <= i < |s| && s[i] == c;
      assert OccursAt(s, [c], i);
    }
    if Cut(s, [c]).Some? {
      var a := Cut(s, [c]).value.0;
      assert s[|a|] == c;
      forall j | 0 <= j < |a| ensures a[j] != c {
        assert !OccursAt(s, [c], j);
        assert s[j..j + 1] == [a[j]];
      }
    }
  }

  // ---------- splitting and joining on one character ----------

  function Split(s: string, c: char): (parts: seq<string>)
    ensures |parts| >= 1
  {
    if s == "" then [""]
    else Extended(s[0], c, Split(s[1..], c))
  }

  /** The parts of a text with one more character in front. */
  function Extended(x: char, c: char, rest: seq<string>): (parts: seq<string>)
    requires |rest| >= 1
    ensures |parts| >= 1
  {
    if x == c then [""] + rest else [[x] + rest[0]] + rest[1..]
  }

  lemma ExtendedConcat(x: char, c: char, rest: seq<string>, more: seq<string>)
    requires |rest| >= 1
    ensures Extended(x, c, rest + more) == Extended(x, c, rest) + more
  {
    if x == c {
      assert [""] + (rest + more) == [""] + rest + more;
    } else {
      assert (rest + more)[1..] == rest[1..] + more;
      assert [[x] + rest[0]] + (rest[1..] + more) == [[x] + rest[0]] + rest[1..] + more;
    }
  }

  function Join(parts: seq<string>, c: char): string {
    if parts == [] then ""
    else if |parts| == 1 then parts[0]
    else parts[0] + [c] + Join(parts[1..], c)
  }

  lemma {:induction false} JoinSnoc(parts: seq<string>, last: string, c: char)
    requires parts != []
    ensures Join(parts + [last], c) == Join(parts, c) + [c] + last
  {
    var all := parts + [last];
    assert all[1..] == parts[1..] + [last];
    if |parts| > 1 {
      JoinSnoc(parts[1..], last, c);
    }
  }

  /** Every part split again, in order. */
  function FlatSplit(parts: seq<string>, c: char): seq<string> {
    if parts == [] then [] else Split(parts[0], c) + FlatSplit(parts[1..], c)
  }

  lemma {:induction false} SplitFree(s: string, c: char)
    requires c !in s
    ensures Split(s, c) == [s]
  {
    if s == "" {
    } else {
      SplitFree(s[1..], c);
      assert [s[0]] + s[1..] == s;
    }
  }

  lemma {:induction false} SplitAcross(a: string, b: string, c: char)
    ensures Split(a + [c] + b, c) == Split(a, c) + Split(b, c)
  {
    var s := a + [c] + b;
    if a == "" {
      assert s[0] == c && s[1..] == b;
    } else {
      SplitAcross(a[1..], b, c);
      assert s[0] == a[0] && s[1..] == a[1..] + [c] + b;
      ExtendedConcat(a[0], c, Split(a[1..], c), Split(b, c));
    }
  }

  lemma {:induction false} JoinSplit(s: string, c: char)
    ensures Join(Split(s, c), c) == s
  {
    if s == "" {
    } else {
      JoinSplit(s[1..], c);
      JoinExtended(s[0], c, Split(s[1..], c));
      assert [s[0]] + s[1..] == s;
    }
  }

  lemma JoinExtended(x: char, c: char, rest: seq<string>)
    requires |rest| >= 1
    ensures Join(Extended(x, c, rest), c) == [x] + Join(rest, c)
  {
    var parts := Extended(x, c, rest);
    if x == c {
      assert parts[1..] == rest;
      assert "" + [c] + Join(rest, c) == [x] + Join(rest, c);
    } else {
      assert parts[1..] == rest[1..];
      if |rest| > 1 {
        assert [x] + (rest[0] + [c] + Join(rest[1..], c)) == ([x] + rest[0]) + [c] + Join(rest[1..], c);
      }
    }
  }

  lemma {:induction false} SplitJoin(parts: seq<string>, c: char)
    requires parts != []
    ensures Split(Join(parts, c), c) == FlatSplit(parts, c)
  {
    if |parts| == 1 {
      assert FlatSplit(parts[1..], c) == [];
    } else {
      SplitAcross(parts[0], Join(parts[1..], c), c);
      SplitJoin(parts[1..], c);
    }
  }

  /** Joined texts are equal exactly when the flattened parts are: what a separator inside a part costs. */
  lemma JoinEqualIff(a: seq<string>, b: seq<string>, c: char)
    requires a != [] && b != []
    ensures Join(a, c) == Join(b, c) <==> FlatSplit(a, c) == FlatSplit(b, c)
  {
    SplitJoin(a, c);
    SplitJoin(b, c);
    JoinSplit(Join(a, c), c);
    JoinSplit(Join(b, c), c);
  }

  predicate FreeOf(parts: seq<string>, c: char) {
    forall i | 0 <= i < |parts| :: c !in parts[i]
  }

  lemma {:induction false} SplitPartsFree(s: string, c: char)
    ensures FreeOf(Split(s, c), c)
  {
    if s == "" {
    } else {
      SplitPartsFree(s[1..], c);
    }
  }

  lemma {:induction false} FlatSplitFree(parts: seq<string>, c: char)
    requires FreeOf(parts, c)
    ensures FlatSplit(parts, c) == parts
  {
    if parts == [] {
    } else {
      SplitFree(parts[0], c);
      FlatSplitFree(parts[1..], c);
      assert [parts[0]] + parts[1..] == parts;
    }
  }

  lemma {:induction false} FlatSplitConcat(a: seq<string>, b: seq<string>, c: char)
    ensures FlatSplit(a + b, c) == FlatSplit(a, c) + FlatSplit(b, c)
  {
    if a == [] {
      assert a + b == b;
    } else {
      FlatSplitConcat(a[1..], b, c);
      assert (a + b)[1..] == a[1..] + b;
    }
  }

  /** With one part left free to hold the separator, all parts can still be read back. */
  lemma JoinUniqueButOne(a: seq<string>, b: seq<string>, k: nat, c: char)
    requires |a| == |b| && k < |a|
    requires FreeOf(a[..k], c) && FreeOf(a[k + 1..], c)
    requires FreeOf(b[..k], c) && FreeOf(b[k + 1..], c)
    requires Join(a, c) == Join(b, c)
    ensures a == b
  {
    FlatSplitButOne(a, k, c);
    FlatSplitButOne(b, k, c);
    JoinEqualIff(a, b, c);
    SamePieces(a[..k], Split(a[k], c), a[k + 1..], b[..k], Split(b[k], c), b[k + 1..]);
    JoinSplit(a[k], c);
    JoinSplit(b[k], c);
    SameButMiddle(a, b, k);
  }

  lemma SameButMiddle<T>(a: seq<T>, b: seq<T>, k: nat)
    requires |a| == |b| && k < |a| && a[..k] == b[..k] && a[k] == b[k] && a[k + 1..] == b[k + 1..]
    ensures a == b
  {
    assert a == a[..k] + [a[k]] + a[k + 1..];
    assert b == b[..k] + [b[k]] + b[k + 1..];
  }

  lemma SamePieces<T>(x: seq<T>, y: seq<T>, z: seq<T>, x': seq<T>, y': seq<T>, z': seq<T>)
    requires x + y + z == x' + y' + z' && |x| == |x'| && |z| == |z'|
    ensures x == x' && y == y' && z == z'
  {
    var s, n := x + y + z, |x|;
    assert |y| == |y'|;
    assert x == s[..n] == x';
    assert y == s[n..n + |y|] == y';
    assert z == s[n + |y|..] == z';
  }

  lemma FlatSplitButOne(a: seq<string>, k: nat, c: char)
    requires k < |a| && FreeOf(a[..k], c) && FreeOf(a[k + 1..], c)
    ensures FlatSplit(a, c) == a[..k] + Split(a[k], c) + a[k + 1..]
  {
    assert a == a[..k] + ([a[k]] + a[k + 1..]);
    FlatSplitConcat(a[..k], [a[k]] + a[k + 1..], c);
    FlatSplitConcat([a[k]], a[k + 1..], c);
    FlatSplitFree(a[..k], c);
    FlatSplitFree(a[k + 1..], c);
    assert FlatSplit([a[k]], c) == Split(a[k], c) by {
      assert [a[k]][1..] == [];
    }
  }

  // ---------- decimal numbers ----------

  function Digit(d: nat): (c: char)
    requires d < 10
    ensures '0' <= c <= '9'
  {
    ('0' as int + d) as char
  }

  function Decimal(n: nat): (s: string)
    ensures |s| >= 1
    ensures forall i | 0 <= i < |s| :: '0' <= s[i] <= '9'
  {
    if n < 10 then [Digit(n)] else Decimal(n / 10) + [Digit(n % 10)]
  }

  function FormatInt(i: int): string {
    if i < 0 then "-" + Decimal(-i) else Decimal(i)
  }

  /** The number a string of digits denotes. */
  function DecimalValue(s: string): int {
    if s == "" then 0 else 10 * DecimalValue(s[..|s| - 1]) + (s[|s| - 1] as int - '0' as int)
  }

  lemma {:induction false} DecimalReadsBack(n: nat)
    ensures DecimalValue(Decimal(n)) == n
  {
    if n >= 10 {
      DecimalReadsBack(n / 10);
      var s := Decimal(n);
      assert s[..|s| - 1] == Decimal(n / 10);
    } else {
      assert Decimal(n)[..0] == "";
    }
  }

  lemma DecimalInjective(i: nat, j: nat)
    requires Decimal(i) == Decimal(j)
    ensures i == j
  {
    DecimalReadsBack(i);
    DecimalReadsBack(j);
  }

  lemma FormatIntInjective(i: int, j: int)
    requires FormatInt(i) == FormatInt(j)
    ensures i == j
  {
    assert FormatInt(i)[0] == FormatInt(j)[0];
    if i < 0 && j < 0 {
      assert Decimal(-i) == FormatInt(i)[1..] == Decimal(-j);
      DecimalInjective(-i, -j);
    } else if i >= 0 && j >= 0 {
      DecimalInjective(i, j);
    }
  }

  function Zeros(n: nat): (s: string)
    ensures |s| == n
  {
    if n == 0 then "" else "0" + Zeros(n - 1)
  }

  /** The verb %0wd for a natural number: at least `w` digits, padded with zeros. */
  function Padded(n: nat, w: nat): string {
    var s := Decimal(n);
    if |s| < w then Zeros(w - |s|) + s else s
  }

  lemma {:induction false} LeadingZeros(k: nat, s: string)
    ensures DecimalValue(Zeros(k) + s) == DecimalValue(s)
    decreases |s|, k
  {
    var z := Zeros(k) + s;
    if s != "" {
      LeadingZeros(k, s[..|s| - 1]);
      assert z[..|z| - 1] == Zeros(k) + s[..|s| - 1];
    } else if k > 0 {
      LeadingZeros(k - 1, s);
      ZerosEnd(k);
      assert z[..|z| - 1] == Zeros(k - 1) + s;
    }
  }

  lemma {:induction false} ZerosEnd(k: nat)
    requires k > 0
    ensures Zeros(k) == Zeros(k - 1) + "0"
  {
    if k > 1 {
      ZerosEnd(k - 1);
    }
  }

  lemma PaddedInjective(i: nat, j: nat, w: nat)
    requires Padded(i, w) == Padded(j, w)
    ensures i == j
  {
    PaddedReadsBack(i, w);
    PaddedReadsBack(j, w);
  }

  lemma PaddedReadsBack(n: nat, w: nat)
    ensures DecimalValue(Padded(n, w)) == n
  {
    DecimalReadsBack(n);
    if |Decimal(n)| < w {
      LeadingZeros(w - |Decimal(n)|, Decimal(n));
    }
  }

  // ---------- text order ----------

  /** Order of strings character by character, a prefix first. */
  predicate TextLess(a: string, b: string) {
    b != "" && (a == "" || a[0] < b[0] || (a[0] == b[0] && TextLess(a[1..], b[1..])))
  }

  lemma {:induction false} TextLessPrefix(p: string, a: string, b: string)
    ensures TextLess(p + a, p + b) <==> TextLess(a, b)
  {
    if p == "" {
      assert p + a == a && p + b == b;
    } else {
      TextLessPrefix(p[1..], a, b);
      assert (p + a)[1..] == p[1..] + a && (p + b)[1..] == p[1..] + b;
    }
  }

  lemma {:induction false} TextLessTransitive(a: string, b: string, c: string)
    requires TextLess(a, b) && TextLess(b, c)
    ensures TextLess(a, c)
  {
    if a != "" && a[0] == b[0] == c[0] {
      TextLessTransitive(a[1..], b[1..], c[1..]);
    }
  }

  lemma {:induction false} TextLessTotal(a: string, b: string)
    ensures TextLess(a, b) || a == b || TextLess(b, a)
    ensures !(TextLess(a, b) && TextLess(b, a))
    ensures !TextLess(a, a)
  {
    if a != "" && b != "" && a[0] == b[0] {
      TextLessTotal(a[1..], b[1..]);
      assert [a[0]] + a[1..] == a && [b[0]] + b[1..] == b;
    }
    if a == "" {
    } else {
      TextLessTotal(a[1..], a[1..]);
    }
  }

  /** For digit strings of one length a smaller last digit only matters when the rest agrees. */
  lemma {:induction false} TextLessLast(a: string, x: char, b: string, y: char)
    requires |a| == |b|
    ensures TextLess(a + [x], b + [y]) <==> TextLess(a, b) || (a == b && x < y)
  {
    if a != "" {
      TextLessLast(a[1..], x, b[1..], y);
      assert (a + [x])[1..] == a[1..] + [x] && (b + [y])[1..] == b[1..] + [y];
      assert [a[0]] + a[1..] == a && [b[0]] + b[1..] == b;
    } else {
      assert a + [x] == [x] && b + [y] == [y];
      assert [x][1..] == "" && [y][1..] == "";
    }
  }

  function Pow10(w: nat): (p: nat)
    ensures p >= 1
  {
    if w == 0 then 1 else 10 * Pow10(w - 1)
  }

  /** The last `w` decimal digits of `n`. */
  function Digits(n: nat, w: nat): (s: string)
    ensures |s| == w
  {
    if w == 0 then "" else Digits(n / 10, w - 1) + [Digit(n % 10)]
  }

  lemma {:induction false} DigitsOrdered(i: nat, j: nat, w: nat)
    requires i < j < Pow10(w)
    ensures TextLess(Digits(i, w), Digits(j, w))
  {
    TextLessLast(Digits(i / 10, w - 1), Digit(i % 10), Digits(j / 10, w - 1), Digit(j % 10));
    if i / 10 < j / 10 {
      DigitsOrdered(i / 10, j / 10, w - 1);
    } else {
      assert i / 10 == j / 10;
    }
  }

  lemma {:induction false} DigitsOfZero(w: nat)
    ensures Digits(0, w) == Zeros(w)
  {
    if w > 0 {
      DigitsOfZero(w - 1);
      ZerosEnd(w);
    }
  }

  lemma {:induction false} DecimalLength(n: nat, w: nat)
    requires w >= 1
    ensures |Decimal(n)| <= w <==> n < Pow10(w)
  {
    if n >= 10 && w > 1 {
      DecimalLength(n / 10, w - 1);
    }
    if w == 1 {
      assert Pow10(1) == 10 * Pow10(0);
    } else if n < 10 {
      assert Pow10(w) == 10 * Pow10(w - 1);
    }
  }

  /** Padding a digit string and one more digit is padding the string and then adding the digit. */
  lemma PadBefore(w: nat, s: string, d: char)
    requires |s| <= w
    ensures (if |s + [d]| < w + 1 then Zeros(w + 1 - |s + [d]|) + (s + [d]) else s + [d])
         == (if |s| < w then Zeros(w - |s|) + s else s) + [d]
  {
    if |s| < w {
      assert Zeros(w - |s|) + (s + [d]) == Zeros(w - |s|) + s + [d];
    }
  }

  lemma {:induction false} PaddedIsDigits(n: nat, w: nat)
    requires w >= 1 && n < Pow10(w)
    ensures Padded(n, w) == Digits(n, w)
  {
    DecimalLength(n, w);
    if n < 10 {
      DigitsOfZero(w - 1);
      assert Digits(n, w) == Digits(0, w - 1) + [Digit(n)];
      assert w == 1 ==> Zeros(0) + Decimal(n) == Decimal(n);
    } else {
      assert Pow10(w) == 10 * Pow10(w - 1);
      assert w > 1;
      PaddedIsDigits(n / 10, w - 1);
      var s := Decimal(n / 10);
      assert Decimal(n) == s + [Digit(n % 10)];
      PadBefore(w - 1, s, Digit(n % 10));
    }
  }
}
