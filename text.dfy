/**
 * The few Python `str` operations the service code relies on, written out over
 * `seq<char>`: `strip()`, `strip(c)`, `rstrip(c)`, ASCII `lower()`,
 * `split(c, 1)`, `endswith`, `sep.join`, and `str()` of an integer.
 */
module Text {
  import opened Wrappers

  /** Python's `str.isspace`: the characters `str.strip()` removes by default. */
  predicate IsSpace(c: char)
  {
    c == ' ' || ('\t' <= c <= '\r') || ('\U{1C}' <= c <= '\U{1F}')
    || c == '\U{85}' || c == '\U{A0}' || c == '\U{1680}'
    || ('\U{2000}' <= c <= '\U{200A}') || c == '\U{2028}' || c == '\U{2029}'
    || c == '\U{202F}' || c == '\U{205F}' || c == '\U{3000}'
  }

  function LStrip(s: string): (r: string)
    ensures r == [] || !IsSpace(r[0])
  {
    if s != [] && IsSpace(s[0]) then LStrip(s[1..]) else s
  }

  function RStrip(s: string): (r: string)
    ensures r <= s
    ensures r == [] || !IsSpace(r[|r| - 1])
  {
    if s != [] && IsSpace(s[|s| - 1]) then RStrip(s[..|s| - 1]) else s
  }

  /** `s.strip()`: whitespace removed at both ends. */
  function Strip(s: string): (r: string)
    ensures r == [] || (!IsSpace(r[0]) && !IsSpace(r[|r| - 1]))
  {
    RStrip(LStrip(s))
  }

  /** Only whitespace is removed: what remains is the slice `s[i..j]`. */
  lemma StripRange(s: string) returns (i: nat, j: nat)
    ensures i <= j <= |s| && Strip(s) == s[i..j]
    ensures forall k :: 0 <= k < i ==> IsSpace(s[k])
    ensures forall k :: j <= k < |s| ==> IsSpace(s[k])
  {
    i := LStripCount(s);
    var l := s[i..];
    var m := RStripCount(l);
    j := i + m;
    assert l[..m] == s[i..j];
    forall k | j <= k < |s| ensures IsSpace(s[k]) {
      assert l[k - i] == s[k];
    }
  }

  function LStripCount(s: string): (i: nat)
    ensures i <= |s| && LStrip(s) == s[i..]
    ensures forall k :: 0 <= k < i ==> IsSpace(s[k])
  {
    if s != [] && IsSpace(s[0]) then
      var i' := LStripCount(s[1..]);
      assert s[1..][i'..] == s[i' + 1..];
      i' + 1
    else 0
  }

  function RStripCount(s: string): (j: nat)
    ensures j <= |s| && RStrip(s) == s[..j]
    ensures forall k :: j <= k < |s| ==> IsSpace(s[k])
  {
    if s != [] && IsSpace(s[|s| - 1]) then
      var j := RStripCount(s[..|s| - 1]);
      assert s[..|s| - 1][..j] == s[..j];
      j
    else |s|
  }

  /** A string with no whitespace at either end is its own `strip()`. */
  lemma StripUnchanged(s: string)
    requires s == [] || (!IsSpace(s[0]) && !IsSpace(s[|s| - 1]))
    ensures Strip(s) == s
  {
  }

  /** `s.lstrip(c)`. */
  function LStripChar(s: string, c: char): (r: string)
    ensures r == [] || r[0] != c
  {
    if s != [] && s[0] == c then LStripChar(s[1..], c) else s
  }

  /** `s.rstrip(c)`: only copies of `c` are removed, all of them from the end. */
  function RStripChar(s: string, c: char): (r: string)
    ensures r <= s && (r == [] || r[|r| - 1] != c)
    ensures forall k :: |r| <= k < |s| ==> s[k] == c
  {
    if s != [] && s[|s| - 1] == c then RStripChar(s[..|s| - 1], c) else s
  }

  /** `s.strip(c)`. */
  function StripChar(s: string, c: char): (r: string)
    ensures r == [] || (r[0] != c && r[|r| - 1] != c)
  {
    RStripChar(LStripChar(s, c), c)
  }

  function LStripCharCount(s: string, c: char): (i: nat)
    ensures i <= |s| && LStripChar(s, c) == s[i..]
    ensures forall k :: 0 <= k < i ==> s[k] == c
  {
    if s != [] && s[0] == c then
      var i' := LStripCharCount(s[1..], c);
      assert s[1..][i'..] == s[i' + 1..];
      i' + 1
    else 0
  }

  function RStripCharCount(s: string, c: char): (j: nat)
    ensures j <= |s| && RStripChar(s, c) == s[..j]
    ensures forall k :: j <= k < |s| ==> s[k] == c
  {
    if s != [] && s[|s| - 1] == c then
      var j := RStripCharCount(s[..|s| - 1], c);
      assert s[..|s| - 1][..j] == s[..j];
      j
    else |s|
  }

  /** Only copies of `c` are removed: what remains is the slice `s[i..j]`. */
  lemma StripCharRange(s: string, c: char) returns (i: nat, j: nat)
    ensures i <= j <= |s| && StripChar(s, c) == s[i..j]
    ensures forall k :: 0 <= k < i ==> s[k] == c
    ensures forall k :: j <= k < |s| ==> s[k] == c
  {
    i := LStripCharCount(s, c);
    var l := s[i..];
    var m := RStripCharCount(l, c);
    j := i + m;
    assert l[..m] == s[i..j];
    forall k | j <= k < |s| ensures s[k] == c {
      assert l[k - i] == s[k];
    }
  }

  /** ASCII `lower()` of one character. */
  function LowerChar(c: char): (r: char)
    ensures 'A' <= c <= 'Z' ==> 'a' <= r <= 'z' && r as int == c as int + 32
    ensures !('A' <= c <= 'Z') ==> r == c
  {
    if 'A' <= c <= 'Z' then (c as int + 32) as char else c
  }

  function Lower(s: string): (r: string)
    ensures |r| == |s|
    ensures forall i :: 0 <= i < |s| ==> r[i] == LowerChar(s[i])
  {
    if s == [] then [] else [LowerChar(s[0])] + Lower(s[1..])
  }

  lemma LowerAppend(a: string, b: string)
    ensures Lower(a + b) == Lower(a) + Lower(b)
  {
    var ab := a + b;
    forall i | 0 <= i < |ab| ensures Lower(ab)[i] == (Lower(a) + Lower(b))[i] {
      if i < |a| {
        assert ab[i] == a[i];
      } else {
        assert ab[i] == b[i - |a|];
      }
    }
  }

  /** `s.split(c, 1)` when `c in s`; `None` when `c` does not occur. */
  function SplitFirst(s: string, c: char): (r: Option<(string, string)>)
    ensures r.None? <==> c !in s
    ensures r.Some? ==> r.value.0 + [c] + r.value.1 == s && c !in r.value.0
  {
    if s == [] then None
    else if s[0] == c then
      assert [s[0]] + s[1..] == s;
      Some(([], s[1..]))
    else match SplitFirst(s[1..], c)
      case None => None
      case Some(p) =>
        assert [s[0]] + s[1..] == s;
        Some(([s[0]] + p.0, p.1))
  }

  /** Splitting at the first `c` is the inverse of joining with a `c`-free head. */
  lemma {:induction false} SplitFirstOfJoin(a: string, c: char, b: string)
    requires c !in a
    ensures SplitFirst(a + [c] + b, c) == Some((a, b))
  {
    if a == [] {
      assert a + [c] + b == [c] + b;
    } else {
      assert (a + [c] + b)[1..] == a[1..] + [c] + b;
      SplitFirstOfJoin(a[1..], c, b);
      assert [a[0]] + a[1..] == a;
    }
  }

  predicate EndsWith(s: string, suffix: string)
  {
    |suffix| <= |s| && s[|s| - |suffix|..] == suffix
  }

  /** `sep.join(parts)`. */
  function Join(sep: string, parts: seq<string>): (r: string)
    ensures |parts| == 1 ==> r == parts[0]
  {
    if parts == [] then ""
    else if |parts| == 1 then parts[0]
    else parts[0] + sep + Join(sep, parts[1..])
  }

  /** Number of occurrences of `c` in `s`. */
  function Count(c: char, s: string): (n: nat)
    ensures n <= |s|
    ensures n == 0 <==> c !in s
  {
    if s == [] then 0 else (if s[0] == c then 1 else 0) + Count(c, s[1..])
  }

  lemma {:induction false} CountAppend(c: char, a: string, b: string)
    ensures Count(c, a + b) == Count(c, a) + Count(c, b)
  {
    if a == [] {
      assert a + b == b;
    } else {
      assert (a + b)[1..] == a[1..] + b;
      CountAppend(c, a[1..], b);
    }
  }

  /** The number a string of decimal digits spells, most significant digit first. */
  function DecimalValue(d: string): int
  {
    if d == [] then 0 else DecimalValue(d[..|d| - 1]) * 10 + (d[|d| - 1] as int - '0' as int)
  }

  /** Decimal digits of a natural number: they spell `n`, with no leading `0` unless `n` is 0. */
  function NatToDecimal(n: nat): (r: string)
    ensures |r| > 0 && forall i :: 0 <= i < |r| ==> '0' <= r[i] <= '9'
    ensures DecimalValue(r) == n
    ensures r[0] == '0' <==> n == 0
  {
    if n < 10 then
      var r := [Digit(n)];
      assert r[..0] == [];
      r
    else
      var h := NatToDecimal(n / 10);
      var r := h + [Digit(n % 10)];
      assert r[..|r| - 1] == h;
      r
  }

  function Digit(d: nat): (r: char)
    requires d < 10
    ensures '0' <= r <= '9' && r as int - '0' as int == d
  {
    ('0' as int + d) as char
  }

  /**
   * Python `str(i)` for an `int`: a `-` for a negative number, then the
   * digits of its magnitude, which spell that magnitude without leading zeros.
   */
  function IntToDecimal(i: int): (r: string)
    ensures |r| > 0
    ensures r[0] == '-' <==> i < 0
    ensures var digits := if i < 0 then r[1..] else r;
      && digits != []
      && (forall k :: 0 <= k < |digits| ==> '0' <= digits[k] <= '9')
      && DecimalValue(digits) == (if i < 0 then -i else i)
      && (digits[0] == '0' <==> i == 0)
  {
    if i < 0 then
      var d := NatToDecimal(-i);
      assert ("-" + d)[1..] == d;
      "-" + d
    else NatToDecimal(i)
  }

  /** Index of the first `c` in `s`, or `|s|` when there is none. */
  function IndexOf(s: string, c: char): (i: nat)
    ensures i <= |s| && (i < |s| ==> s[i] == c)
    ensures forall k :: 0 <= k < i ==> s[k] != c
  {
    if s == [] || s[0] == c then 0 else 1 + IndexOf(s[1..], c)
  }

  /** Two `c`-free heads followed by text starting with `c` can only be equal heads. */
  lemma SameHead(a: string, x: string, b: string, y: string, c: char)
    requires a + x == b + y && c !in a && c !in b
    requires x != [] && x[0] == c && y != [] && y[0] == c
    ensures a == b
  {
    var i := IndexOf(a + x, c);
    assert (a + x)[|a|] == c;
    assert (b + y)[|b|] == c;
    assert i == |a| && i == |b|;
    assert a == (a + x)[..i];
  }

  /** A string made only of `c` strips to nothing. */
  lemma {:induction false} StripCharAll(s: string, c: char)
    requires forall k :: 0 <= k < |s| ==> s[k] == c
    ensures StripChar(s, c) == []
  {
    if s != [] {
      StripCharAll(s[1..], c);
    }
  }
}
