/**
 * `slugify` and `generate_resume_code` from utils/identifiers.py.
 *
 * `slugify(value)` is `value.strip().lower()`, then every maximal run of
 * characters outside `[a-z0-9]` becomes one `-`, then runs of two or more `-`
 * become one, then `-` is stripped from both ends, and an empty result is
 * replaced by "resume".
 */
module Identifiers {
  import opened Text

  const Fallback := "resume"

  predicate IsLowerAlnum(c: char)
  {
    'a' <= c <= 'z' || '0' <= c <= '9'
  }

  predicate IsSlugChar(c: char)
  {
    IsLowerAlnum(c) || c == '-'
  }

  predicate NoDoubleHyphen(s: string)
  {
    forall i :: 0 <= i < |s| - 1 ==> !(s[i] == '-' && s[i + 1] == '-')
  }

  /** Lowercase alphanumerics separated by single hyphens. */
  predicate IsSlug(s: string)
  {
    && s != []
    && (forall i :: 0 <= i < |s| ==> IsSlugChar(s[i]))
    && s[0] != '-' && s[|s| - 1] != '-'
    && NoDoubleHyphen(s)
  }

  /** The lowercase alphanumerics of `s`, in order. */
  function Alnums(s: string): string
  {
    if s == [] then []
    else (if IsLowerAlnum(s[0]) then [s[0]] else []) + Alnums(s[1..])
  }

  lemma {:induction false} AlnumsAppend(a: string, b: string)
    ensures Alnums(a + b) == Alnums(a) + Alnums(b)
  {
    if a == [] {
      assert a + b == b;
    } else {
      var ab := a + b;
      var h := if IsLowerAlnum(a[0]) then [a[0]] else [];
      assert ab[0] == a[0];
      assert ab[1..] == a[1..] + b;
      assert Alnums(ab) == h + Alnums(a[1..] + b);
      assert Alnums(a) == h + Alnums(a[1..]);
      AlnumsAppend(a[1..], b);
      assert h + (Alnums(a[1..]) + Alnums(b)) == (h + Alnums(a[1..])) + Alnums(b);
    }
  }

  lemma {:induction false} AlnumsNone(s: string)
    requires forall i :: 0 <= i < |s| ==> !IsLowerAlnum(s[i])
    ensures Alnums(s) == []
  {
    if s != [] {
      AlnumsNone(s[1..]);
    }
  }

  /** Length of the leading run of characters outside `[a-z0-9]`. */
  function RunLength(s: string): (k: nat)
    ensures k <= |s|
    ensures forall i :: 0 <= i < k ==> !IsLowerAlnum(s[i])
    ensures k < |s| ==> IsLowerAlnum(s[k])
  {
    if s != [] && !IsLowerAlnum(s[0]) then 1 + RunLength(s[1..]) else 0
  }

  /** `re.sub(r"[^a-z0-9]+", "-", s)`. */
  function ReplaceRuns(s: string): (r: string)
    ensures forall i :: 0 <= i < |r| ==> IsSlugChar(r[i])
    ensures NoDoubleHyphen(r)
    ensures s != [] && IsLowerAlnum(s[0]) ==> r != [] && r[0] == s[0]
    ensures Alnums(r) == Alnums(s)
    decreases |s|
  {
    if s == [] then []
    else if IsLowerAlnum(s[0]) then
      var rest := ReplaceRuns(s[1..]);
      assert ([s[0]] + rest)[1..] == rest;
      [s[0]] + rest
    else
      var k := RunLength(s);
      var rest := ReplaceRuns(s[k..]);
      assert ("-" + rest)[1..] == rest;
      AlnumsNone(s[..k]);
      AlnumsAppend(s[..k], s[k..]);
      assert s[..k] + s[k..] == s;
      "-" + rest
  }

  predicate AllLowerAlnum(s: string)
  {
    forall i :: 0 <= i < |s| ==> IsLowerAlnum(s[i])
  }

  /** A separator: characters outside `[a-z0-9]` only, at least one of them. */
  predicate IsSeparator(s: string)
  {
    s != [] && forall i :: 0 <= i < |s| ==> !IsLowerAlnum(s[i])
  }

  /** `RunLength` stops at the first alphanumeric. */
  lemma {:induction false} RunLengthAt(s: string, j: nat)
    requires j <= |s|
    requires forall i :: 0 <= i < j ==> !IsLowerAlnum(s[i])
    requires j == |s| || IsLowerAlnum(s[j])
    ensures RunLength(s) == j
  {
    if j > 0 {
      forall i | 0 <= i < j - 1 ensures !IsLowerAlnum(s[1..][i]) {
        assert s[1..][i] == s[i + 1];
      }
      if j < |s| {
        assert s[1..][j - 1] == s[j];
      }
      RunLengthAt(s[1..], j - 1);
    }
  }

  /** Alphanumerics pass the first substitution unchanged, whatever follows. */
  lemma {:induction false} ReplaceRunsKeeps(a: string, t: string)
    requires AllLowerAlnum(a)
    ensures ReplaceRuns(a + t) == a + ReplaceRuns(t)
  {
    if a == [] {
      assert a + t == t;
    } else {
      var at := a + t;
      assert at[0] == a[0];
      assert at[1..] == a[1..] + t;
      ReplaceRunsKeeps(a[1..], t);
      assert [a[0]] + (a[1..] + ReplaceRuns(t)) == a + ReplaceRuns(t);
    }
  }

  /** Text made only of `[a-z0-9]` passes the first substitution unchanged. */
  lemma {:induction false} ReplaceRunsAlnum(s: string)
    requires AllLowerAlnum(s)
    ensures ReplaceRuns(s) == s
  {
    if s != [] {
      ReplaceRunsAlnum(s[1..]);
      assert [s[0]] + s[1..] == s;
    }
  }

  /** A whole run of other characters, up to the next alphanumeric, becomes a single `-`. */
  lemma ReplaceRunsSeparator(sep: string, t: string)
    requires IsSeparator(sep)
    requires t == [] || IsLowerAlnum(t[0])
    ensures ReplaceRuns(sep + t) == "-" + ReplaceRuns(t)
  {
    var s := sep + t;
    forall i | 0 <= i < |sep| ensures !IsLowerAlnum(s[i]) {
      assert s[i] == sep[i];
    }
    if t != [] {
      assert s[|sep|] == t[0];
    }
    RunLengthAt(s, |sep|);
    assert s[|sep|..] == t;
  }

  /** Two alphanumeric words around a separator are joined by exactly one `-`, in place. */
  lemma ReplaceRunsJoins(a: string, sep: string, b: string)
    requires AllLowerAlnum(a) && IsSeparator(sep) && AllLowerAlnum(b)
    ensures ReplaceRuns(a + sep + b) == a + "-" + b
  {
    calc {
      ReplaceRuns(a + sep + b);
      { assert a + sep + b == a + (sep + b); }
      ReplaceRuns(a + (sep + b));
      { ReplaceRunsKeeps(a, sep + b); }
      a + ReplaceRuns(sep + b);
      { ReplaceRunsSeparator(sep, b); ReplaceRunsAlnum(b); }
      a + ("-" + b);
    }
  }

  /** Length of the leading run of `-`. */
  function HyphenRun(s: string): (k: nat)
    ensures k <= |s|
    ensures forall i :: 0 <= i < k ==> s[i] == '-'
    ensures k < |s| ==> s[k] != '-'
  {
    if s != [] && s[0] == '-' then 1 + HyphenRun(s[1..]) else 0
  }

  /** `re.sub(r"-{2,}", "-", s)`. */
  function SqueezeHyphens(s: string): string
    decreases |s|
  {
    if s == [] then []
    else if s[0] == '-' then "-" + SqueezeHyphens(s[HyphenRun(s)..])
    else [s[0]] + SqueezeHyphens(s[1..])
  }

  /** `slugify(value)`. */
  function Slugify(value: string): string
  {
    var r := StripChar(SqueezeHyphens(ReplaceRuns(Lower(Strip(value)))), '-');
    if r == "" then Fallback else r
  }

  /** The second substitution never changes anything: the first leaves no `--`. */
  lemma {:induction false} SqueezeIdentity(s: string)
    requires NoDoubleHyphen(s)
    ensures SqueezeHyphens(s) == s
  {
    if s != [] {
      if s[0] == '-' {
        assert HyphenRun(s) == 1 by {
          assert HyphenRun(s) == 1 + HyphenRun(s[1..]);
          if |s| > 1 { assert s[1..][0] == s[1] != '-'; }
        }
      }
      assert NoDoubleHyphen(s[1..]) by {
        forall i | 0 <= i < |s[1..]| - 1 ensures !(s[1..][i] == '-' && s[1..][i + 1] == '-') {
          assert s[1..][i] == s[i + 1] && s[1..][i + 1] == s[i + 2];
        }
      }
      SqueezeIdentity(s[1..]);
      assert [s[0]] + s[1..] == s;
    }
  }

  /** Dropping a leading run of characters outside `[a-z0-9]` keeps `Alnums`. */
  lemma {:induction false} AlnumsDropFront(s: string, i: nat)
    requires i <= |s|
    requires forall k :: 0 <= k < i ==> !IsLowerAlnum(s[k])
    ensures Alnums(s[i..]) == Alnums(s)
  {
    if i > 0 {
      var t := s[1..];
      assert Alnums(s) == Alnums(t);
      forall k | 0 <= k < i - 1 ensures !IsLowerAlnum(t[k]) {
        assert t[k] == s[k + 1];
      }
      AlnumsDropFront(t, i - 1);
      assert t[i - 1..] == s[i..];
    }
  }

  /** Dropping a trailing run of characters outside `[a-z0-9]` keeps `Alnums`. */
  lemma AlnumsDropBack(s: string, j: nat)
    requires j <= |s|
    requires forall k :: j <= k < |s| ==> !IsLowerAlnum(s[k])
    ensures Alnums(s[..j]) == Alnums(s)
  {
    var tail := s[j..];
    forall k | 0 <= k < |tail| ensures !IsLowerAlnum(tail[k]) {
      assert tail[k] == s[j + k];
    }
    AlnumsNone(tail);
    AlnumsAppend(s[..j], tail);
    assert s[..j] + tail == s;
  }

  /** Dropping characters outside `[a-z0-9]` at both ends keeps `Alnums`. */
  lemma AlnumsSlice(s: string, i: nat, j: nat)
    requires i <= j <= |s|
    requires forall k :: 0 <= k < i ==> !IsLowerAlnum(s[k])
    requires forall k :: j <= k < |s| ==> !IsLowerAlnum(s[k])
    ensures Alnums(s[i..j]) == Alnums(s)
  {
    var front := s[..j];
    forall k | 0 <= k < i ensures !IsLowerAlnum(front[k]) {
      assert front[k] == s[k];
    }
    AlnumsDropFront(front, i);
    assert front[i..] == s[i..j];
    AlnumsDropBack(s, j);
  }

  /** A slice keeps the slug character set and the absence of `--`. */
  lemma SliceShape(s: string, i: nat, j: nat)
    requires i <= j <= |s|
    requires forall k :: 0 <= k < |s| ==> IsSlugChar(s[k])
    requires NoDoubleHyphen(s)
    ensures forall k :: 0 <= k < j - i ==> IsSlugChar(s[i..j][k])
    ensures NoDoubleHyphen(s[i..j])
  {
    var r := s[i..j];
    forall k | 0 <= k < |r| ensures IsSlugChar(r[k]) {
      assert r[k] == s[i + k];
    }
    forall k | 0 <= k < |r| - 1 ensures !(r[k] == '-' && r[k + 1] == '-') {
      assert r[k] == s[i + k] && r[k + 1] == s[i + k + 1];
    }
  }

  /**
   * `strip("-")` of the substituted text keeps the slug character set and the
   * single hyphens, and removes no alphanumeric.
   */
  lemma StripHyphensShape(s: string)
    requires forall i :: 0 <= i < |s| ==> IsSlugChar(s[i])
    requires NoDoubleHyphen(s)
    ensures var r := StripChar(s, '-');
      (r == [] || IsSlug(r)) && Alnums(r) == Alnums(s)
  {
    var i, j := StripCharRange(s, '-');
    forall k | 0 <= k < i ensures !IsLowerAlnum(s[k]) {
      assert s[k] == '-';
    }
    forall k | j <= k < |s| ensures !IsLowerAlnum(s[k]) {
      assert s[k] == '-';
    }
    AlnumsSlice(s, i, j);
    SliceShape(s, i, j);
  }

  /** Every result of `slugify` is a slug. */
  lemma SlugifyIsSlug(value: string)
    ensures IsSlug(Slugify(value))
  {
    var rr := ReplaceRuns(Lower(Strip(value)));
    SqueezeIdentity(rr);
    StripHyphensShape(rr);
    var r := StripChar(rr, '-');
    assert Slugify(value) == if r == "" then Fallback else r;
    assert IsSlug(Fallback);
  }

  /** Lowering and stripping whitespace keep the lowercase alphanumerics of `Lower(value)`. */
  lemma LowerStripAlnums(value: string)
    ensures Alnums(Lower(Strip(value))) == Alnums(Lower(value))
  {
    var i, j := StripRange(value);
    var lv := Lower(value);
    assert Lower(value[i..j]) == lv[i..j];
    AlnumsSlice(lv, i, j);
  }

  /**
   * No alphanumeric is lost or invented: the slug spells exactly the lowercase
   * alphanumerics of the (lowered) input, and the fallback is used exactly when
   * there are none.
   */
  lemma SlugifyAlnums(value: string)
    ensures Alnums(Lower(value)) == [] ==> Slugify(value) == Fallback
    ensures Alnums(Lower(value)) != [] ==> Alnums(Slugify(value)) == Alnums(Lower(value))
  {
    var rr := ReplaceRuns(Lower(Strip(value)));
    SqueezeIdentity(rr);
    StripHyphensShape(rr);
    LowerStripAlnums(value);
  }

  /** Empty or whitespace-only input gives "resume". */
  lemma SlugifyBlank(value: string)
    requires forall i :: 0 <= i < |value| ==> IsSpace(value[i])
    ensures Slugify(value) == "resume"
  {
    AlnumsNone(Lower(value));
    SlugifyAlnums(value);
  }

  /** A slug is returned unchanged. */
  lemma SlugifySlug(s: string)
    requires IsSlug(s)
    ensures Slugify(s) == s
  {
    StripUnchanged(s);
    assert Lower(s) == s;
    ReplaceRunsSlug(s);
    SqueezeIdentity(s);
    assert LStripChar(s, '-') == s;
  }

  lemma {:induction false} ReplaceRunsSlug(s: string)
    requires forall i :: 0 <= i < |s| ==> IsSlugChar(s[i])
    requires NoDoubleHyphen(s)
    requires s == [] || s[|s| - 1] != '-'
    ensures ReplaceRuns(s) == s
    decreases |s|
  {
    if s != [] {
      assert NoDoubleHyphen(s[1..]) by {
        forall i | 0 <= i < |s[1..]| - 1 ensures !(s[1..][i] == '-' && s[1..][i + 1] == '-') {
          assert s[1..][i] == s[i + 1] && s[1..][i + 1] == s[i + 2];
        }
      }
      if !IsLowerAlnum(s[0]) {
        assert RunLength(s) == 1 by {
          assert s[1..][0] == s[1];
        }
      }
      ReplaceRunsSlug(s[1..]);
      assert [s[0]] + s[1..] == s;
    }
  }

  /** The lowered words joined by one `-` form a slug. */
  lemma JoinedIsSlug(a: string, b: string)
    requires a != [] && b != [] && AllLowerAlnum(a) && AllLowerAlnum(b)
    ensures IsSlug(a + "-" + b)
  {
    var s := a + "-" + b;
    forall i | 0 <= i < |s| ensures IsSlugChar(s[i]) && (s[i] == '-' <==> i == |a|) {
      if i < |a| {
        assert s[i] == a[i];
      } else if i > |a| {
        assert s[i] == b[i - |a| - 1];
      }
    }
    assert s[0] == a[0];
    assert s[|s| - 1] == b[|b| - 1];
  }

  /** A character that lowers to `[a-z0-9]` is not whitespace. */
  lemma LowersToAlnum(c: char)
    requires IsLowerAlnum(LowerChar(c))
    ensures !IsSpace(c)
  {
  }

  /** Words around a separator have no whitespace at either end, so `strip()` keeps them. */
  lemma StripJoined(a: string, sep: string, b: string)
    requires a != [] && b != [] && AllLowerAlnum(Lower(a)) && AllLowerAlnum(Lower(b))
    ensures Strip(a + sep + b) == a + sep + b
  {
    var x := a + sep + b;
    assert x[0] == a[0];
    assert x[|x| - 1] == b[|b| - 1];
    assert IsLowerAlnum(Lower(a)[0]);
    LowersToAlnum(a[0]);
    assert IsLowerAlnum(Lower(b)[|b| - 1]);
    LowersToAlnum(b[|b| - 1]);
    StripUnchanged(x);
  }

  /** The last three steps of `slugify` keep a slug as it is. */
  lemma SlugSteps(s: string)
    requires IsSlug(s)
    ensures StripChar(SqueezeHyphens(s), '-') == s
  {
    SqueezeIdentity(s);
    assert LStripChar(s, '-') == s;
  }

  /**
   * Words separated by a run of other characters, such as "Jane Doe", keep one
   * `-` where the run was: the slug is the lowered first word, `-`, the lowered
   * second word.
   */
  lemma SlugifyJoins(a: string, sep: string, b: string)
    requires a != [] && b != [] && AllLowerAlnum(Lower(a)) && AllLowerAlnum(Lower(b))
    requires IsSeparator(Lower(sep))
    ensures Slugify(a + sep + b) == Lower(a) + "-" + Lower(b)
  {
    var x := a + sep + b;
    StripJoined(a, sep, b);
    LowerAppend(a + sep, b);
    LowerAppend(a, sep);
    ReplaceRunsJoins(Lower(a), Lower(sep), Lower(b));
    var s := Lower(a) + "-" + Lower(b);
    assert ReplaceRuns(Lower(Strip(x))) == s;
    JoinedIsSlug(Lower(a), Lower(b));
    SlugSteps(s);
  }

  /** `slugify` is idempotent. */
  lemma SlugifyIdempotent(value: string)
    ensures Slugify(Slugify(value)) == Slugify(value)
  {
    SlugifyIsSlug(value);
    SlugifySlug(Slugify(value));
  }

  const DefaultCodeLength := 8

  /** What `uuid.uuid4().hex` always is: 32 lowercase hexadecimal digits. */
  predicate IsUuidHex(h: string)
  {
    |h| == 32 && forall i :: 0 <= i < 32 ==> '0' <= h[i] <= '9' || 'a' <= h[i] <= 'f'
  }

  /**
   * `generate_resume_code(suffix_len)` with the uuid's hex text as a parameter:
   * Python's `hex[:suffix_len]`, where a negative bound counts from the end.
   */
  function ResumeCode(hex: string, suffixLen: int): (code: string)
    requires IsUuidHex(hex)
    ensures code <= hex
    ensures |code| == if suffixLen >= 32 then 32
                      else if suffixLen >= 0 then suffixLen
                      else if suffixLen >= -32 then 32 + suffixLen
                      else 0
    ensures forall i :: 0 <= i < |code| ==> '0' <= code[i] <= '9' || 'a' <= code[i] <= 'f'
  {
    var n := if suffixLen >= 0 then suffixLen else |hex| + suffixLen;
    hex[..if n < 0 then 0 else if n > |hex| then |hex| else n]
  }
}
