/**
 The few operations on Python `str` values that the generator relies on:
 `isspace`/`strip`, `lower`, the `in` substring test, suffix matching and
 `sep.join`, together with a reader (`Split`, Python's `str.split(sep)`) that
 undoes `Join`.
 */
module Strings {

  /** The characters for which Python's `str.isspace()` holds. */
  const Whitespace: set<char> := {
    '\t', '\n', '\U{0B}', '\U{0C}', '\r', '\U{1C}', '\U{1D}', '\U{1E}', '\U{1F}', ' ',
    '\U{85}', '\U{A0}', '\U{1680}',
    '\U{2000}', '\U{2001}', '\U{2002}', '\U{2003}', '\U{2004}', '\U{2005}',
    '\U{2006}', '\U{2007}', '\U{2008}', '\U{2009}', '\U{200A}',
    '\U{2028}', '\U{2029}', '\U{202F}', '\U{205F}', '\U{3000}'
  }

  predicate IsSpace(c: char) {
    c in Whitespace
  }

  ghost predicate AllSpace(s: string) {
    forall i | 0 <= i < |s| :: IsSpace(s[i])
  }

  /** Neither the first nor the last character is whitespace. */
  ghost predicate Trimmed(s: string) {
    s == [] || (!IsSpace(s[0]) && !IsSpace(s[|s| - 1]))
  }

  /**
   Independent description of `str.strip()`: `r` is the slice of `s` left
   when a whitespace prefix and a whitespace suffix are cut off, and `r`
   itself neither begins nor ends with whitespace.
   */
  ghost predicate IsStripOf(s: string, r: string) {
    exists i, j :: StripWitness(s, r, i, j)
  }

  /** `r` is `s[i..j]`, the parts cut off are whitespace, and `r` is trimmed. */
  ghost predicate StripWitness(s: string, r: string, i: int, j: int) {
    && 0 <= i <= j <= |s|
    && r == s[i..j]
    && AllSpace(s[..i])
    && AllSpace(s[j..])
    && Trimmed(r)
  }

  /** Python's `str.lstrip()`: drops the leading whitespace. */
  function TrimStart(s: string): (r: string)
    ensures |r| <= |s| && r == s[|s| - |r|..]
    ensures AllSpace(s[..|s| - |r|])
    ensures r == [] || !IsSpace(r[0])
  {
    if |s| > 0 && IsSpace(s[0]) then
      var r := TrimStart(s[1..]);
      TrimStartStep(s, r);
      r
    else
      s
  }

  /** Python's `str.rstrip()`: drops the trailing whitespace. */
  function TrimEnd(s: string): (r: string)
    ensures |r| <= |s| && r == s[..|r|]
    ensures AllSpace(s[|r|..])
    ensures r == [] || !IsSpace(r[|r| - 1])
  {
    if |s| > 0 && IsSpace(s[|s| - 1]) then
      var r := TrimEnd(s[..|s| - 1]);
      TrimEndStep(s, r);
      r
    else
      s
  }

  /** Dropping one more leading whitespace character keeps what `TrimStart` promises. */
  lemma TrimStartStep(s: string, r: string)
    requires |s| > 0 && IsSpace(s[0])
    requires |r| <= |s| - 1 && r == s[1..][|s| - 1 - |r|..] && AllSpace(s[1..][..|s| - 1 - |r|])
    ensures |r| <= |s| && r == s[|s| - |r|..] && AllSpace(s[..|s| - |r|])
  {
    assert s[1..][|s| - 1 - |r|..] == s[|s| - |r|..];
    var n := |s| - |r|;
    forall k | 0 <= k < n ensures IsSpace(s[..n][k]) {
      if k > 0 {
        assert s[..n][k] == s[1..][..n - 1][k - 1];
      }
    }
  }

  /** Dropping one more trailing whitespace character keeps what `TrimEnd` promises. */
  lemma TrimEndStep(s: string, r: string)
    requires |s| > 0 && IsSpace(s[|s| - 1])
    requires |r| <= |s| - 1 && r == s[..|s| - 1][..|r|] && AllSpace(s[..|s| - 1][|r|..])
    ensures |r| <= |s| && r == s[..|r|] && AllSpace(s[|r|..])
  {
    assert s[..|s| - 1][..|r|] == s[..|r|];
    var n := |r|;
    forall k | 0 <= k < |s| - n ensures IsSpace(s[n..][k]) {
      if k < |s| - 1 - n {
        assert s[n..][k] == s[..|s| - 1][n..][k];
      }
    }
  }

  /** Python's `str.strip()` with no argument. */
  function Strip(s: string): (r: string)
    ensures IsStripOf(s, r)
  {
    var t := TrimStart(s);
    var r := TrimEnd(t);
    TrimmedSlices(s, t, r);
    r
  }

  /**
   Cutting a whitespace prefix off `s` to get `t`, then a whitespace suffix
   off `t` to get `r`, with no whitespace left at either end, is a strip.
   */
  lemma TrimmedSlices(s: string, t: string, r: string)
    requires |t| <= |s| && t == s[|s| - |t|..] && AllSpace(s[..|s| - |t|])
    requires t == [] || !IsSpace(t[0])
    requires |r| <= |t| && r == t[..|r|] && AllSpace(t[|r|..])
    requires r == [] || !IsSpace(r[|r| - 1])
    ensures StripWitness(s, r, |s| - |t|, |s| - |t| + |r|)
  {
    var i := |s| - |t|;
    var j := i + |r|;
    assert r == s[i..j];
    assert s[j..] == t[|r|..];
    assert r != [] ==> r[0] == t[0];
  }

  /** Skipping a whitespace prefix that ends at a non-whitespace character (or the end) is `TrimStart`. */
  lemma {:induction false} TrimStartSkips(s: string, i: nat)
    requires i <= |s| && AllSpace(s[..i])
    requires i == |s| || !IsSpace(s[i])
    ensures TrimStart(s) == s[i..]
    decreases i
  {
    if i > 0 {
      assert s[..i][0] == s[0];
      assert s[1..][..i - 1] == s[..i][1..];
      assert i - 1 == |s[1..]| || s[1..][i - 1] == s[i];
      TrimStartSkips(s[1..], i - 1);
      assert s[1..][i - 1..] == s[i..];
    }
  }

  /** Cutting a whitespace suffix that starts after a non-whitespace character (or at 0) is `TrimEnd`. */
  lemma {:induction false} TrimEndStops(t: string, j: nat)
    requires j <= |t| && AllSpace(t[j..])
    requires j == 0 || !IsSpace(t[j - 1])
    ensures TrimEnd(t) == t[..j]
    decreases |t| - j
  {
    if j == |t| {
      assert t[..j] == t;
    } else {
      assert t[j..][|t| - 1 - j] == t[|t| - 1];
      var u := t[..|t| - 1];
      assert AllSpace(u[j..]) by {
        forall k | 0 <= k < |u| - j
          ensures IsSpace(u[j..][k])
        {
          assert u[j..][k] == t[j..][k];
        }
      }
      assert j == 0 || u[j - 1] == t[j - 1];
      TrimEndStops(u, j);
      assert u[..j] == t[..j];
    }
  }

  lemma {:induction false} StripWitnessEmpty(s: string, i: int, j: int)
    requires StripWitness(s, [], i, j)
    ensures Strip(s) == []
  {
    assert AllSpace(s[..|s|]) by {
      forall k | 0 <= k < |s|
        ensures IsSpace(s[k])
      {
        if k < i {
          assert s[..i][k] == s[k];
        } else {
          assert s[j..][k - j] == s[k];
        }
      }
    }
    TrimStartSkips(s, |s|);
  }

  lemma StripWitnessNonEmpty(s: string, r: string, i: int, j: int)
    requires StripWitness(s, r, i, j) && r != []
    ensures Strip(s) == r
  {
    TrimStartOfWitness(s, r, i, j);
    TrimEndOfWitness(s, r, i, j);
  }

  lemma TrimStartOfWitness(s: string, r: string, i: int, j: int)
    requires StripWitness(s, r, i, j) && r != []
    ensures TrimStart(s) == s[i..]
  {
    assert s[i] == r[0];
    TrimStartSkips(s, i);
  }

  lemma TrimEndOfWitness(s: string, r: string, i: int, j: int)
    requires StripWitness(s, r, i, j) && r != []
    ensures TrimEnd(s[i..]) == r
  {
    var t := s[i..];
    assert t[j - i..] == s[j..];
    assert t[j - i - 1] == r[|r| - 1];
    TrimEndStops(t, j - i);
    assert t[..j - i] == r;
  }

  /** Whatever satisfies the description of `str.strip()` is what `Strip` returns. */
  lemma StripCanonical(s: string, r: string)
    requires IsStripOf(s, r)
    ensures r == Strip(s)
  {
    var i, j :| StripWitness(s, r, i, j);
    if r == [] {
      StripWitnessEmpty(s, i, j);
    } else {
      StripWitnessNonEmpty(s, r, i, j);
    }
  }

  /** Stripping a stripped string changes nothing. */
  lemma StripIdempotent(s: string)
    ensures Strip(Strip(s)) == Strip(s)
  {
    var r := Strip(s);
    assert IsStripOf(r, r) by {
      assert r == r[0..|r|] && r[..0] == [] && r[|r|..] == [];
      assert StripWitness(r, r, 0, |r|);
    }
    StripCanonical(r, r);
  }

  /** Python's `str.lower()` on ASCII letters; every other character is kept. */
  function LowerChar(c: char): char {
    if 'A' <= c <= 'Z' then (c as int + 32) as char else c
  }

  function Lower(s: string): (r: string)
    ensures |r| == |s|
  {
    seq(|s|, i requires 0 <= i < |s| => LowerChar(s[i]))
  }

  /** `s` begins with `p`, compared character by character. */
  predicate StartsWith(s: string, p: string)
    ensures StartsWith(s, p) ==> |p| <= |s| && s[..|p|] == p
  {
    |p| == 0 || (|s| > 0 && s[0] == p[0] && StartsWith(s[1..], p[1..]))
  }

  /** Python's `sub in s`. */
  predicate Contains(s: string, sub: string)
    decreases |s|
  {
    StartsWith(s, sub) || (|s| > 0 && Contains(s[1..], sub))
  }

  /** `StartsWith(Lower(s), p)`, lowering as it goes. */
  predicate StartsWithLowered(s: string, p: string) {
    |p| == 0 || (|s| > 0 && LowerChar(s[0]) == p[0] && StartsWithLowered(s[1..], p[1..]))
  }

  /** `sub in s.lower()`, lowering as it goes. */
  predicate ContainsLowered(s: string, sub: string)
    decreases |s|
  {
    StartsWithLowered(s, sub) || (|s| > 0 && ContainsLowered(s[1..], sub))
  }

  lemma {:induction false} StartsWithLoweredIsStartsWithOfLower(s: string, p: string)
    ensures StartsWithLowered(s, p) <==> StartsWith(Lower(s), p)
    decreases |p|
  {
    if |p| > 0 && |s| > 0 {
      assert Lower(s)[1..] == Lower(s[1..]);
      StartsWithLoweredIsStartsWithOfLower(s[1..], p[1..]);
    }
  }

  /** Searching while lowering is searching the lowered string. */
  lemma {:induction false} ContainsLoweredIsContainsOfLower(s: string, sub: string)
    ensures ContainsLowered(s, sub) <==> Contains(Lower(s), sub)
    decreases |s|
  {
    StartsWithLoweredIsStartsWithOfLower(s, sub);
    if |s| > 0 {
      assert Lower(s)[1..] == Lower(s[1..]);
      ContainsLoweredIsContainsOfLower(s[1..], sub);
    }
  }

  /** A prefix none of whose characters lowers to the first character of `sub` holds no occurrence's start. */
  lemma {:induction false} ContainsLoweredSkipsPlainPrefix(a: string, b: string, sub: string)
    requires |sub| > 0 && forall k | 0 <= k < |a| :: LowerChar(a[k]) != sub[0]
    ensures ContainsLowered(a + b, sub) <==> ContainsLowered(b, sub)
    decreases |a|
  {
    if a == [] {
      assert a + b == b;
    } else {
      assert (a + b)[1..] == a[1..] + b;
      assert (a + b)[0] == a[0];
      ContainsLoweredSkipsPlainPrefix(a[1..], b, sub);
    }
  }

  /** `s` ends with `suffix`, compared character by character. */
  predicate EndsWith(s: string, suffix: string) {
    |suffix| <= |s| && s[|s| - |suffix|..] == suffix
  }

  /** Python's `sep.join(xs)`. */
  function Join(xs: seq<string>, sep: string): (r: string)
    ensures |xs| == 0 ==> r == []
    ensures |xs| > 0 ==> xs[0] <= r
  {
    if |xs| == 0 then ""
    else if |xs| == 1 then xs[0]
    else xs[0] + sep + Join(xs[1..], sep)
  }

  /** Python's `s.split(sep)` for a non-empty separator. */
  function Split(s: string, sep: string): (r: seq<string>)
    requires |sep| > 0
    ensures |r| >= 1
    decreases |s|
  {
    if |s| == 0 then [""]
    else if sep <= s then [""] + Split(s[|sep|..], sep)
    else
      var rest := Split(s[1..], sep);
      [[s[0]] + rest[0]] + rest[1..]
  }

  /** No element of `xs` contains the character `c`. */
  ghost predicate Avoids(xs: seq<string>, c: char) {
    forall k | 0 <= k < |xs| :: c !in xs[k]
  }

  /** Joining two non-empty lists is joining their joins. */
  lemma {:induction false} JoinAppend(a: seq<string>, b: seq<string>, sep: string)
    requires |a| > 0 && |b| > 0
    ensures Join(a + b, sep) == Join(a, sep) + sep + Join(b, sep)
    decreases |a|
  {
    if |a| == 1 {
      assert (a + b)[1..] == b;
    } else {
      assert (a + b)[1..] == a[1..] + b;
      JoinAppend(a[1..], b, sep);
    }
  }

  /** A leading piece free of the separator's first character only extends the first field. */
  lemma {:induction false} SplitAfterPlain(x: string, t: string, sep: string)
    requires |sep| > 0 && sep[0] !in x
    ensures Split(x + t, sep) == [x + Split(t, sep)[0]] + Split(t, sep)[1..]
    decreases |x|
  {
    if x == [] {
      assert x + t == t;
      var r := Split(t, sep);
      assert x + r[0] == r[0];
      assert [r[0]] + r[1..] == r;
    } else {
      var s := x + t;
      assert s[0] == x[0] && x[0] != sep[0];
      assert !(sep <= s);
      assert s[1..] == x[1..] + t;
      SplitAfterPlain(x[1..], t, sep);
      assert [s[0]] + (x[1..] + Split(t, sep)[0]) == x + Split(t, sep)[0];
    }
  }

  /** Splitting a join gives back the joined list, as long as no element contains the separator's first character. */
  lemma {:induction false} SplitJoin(xs: seq<string>, sep: string)
    requires |sep| > 0 && |xs| > 0
    requires Avoids(xs, sep[0])
    ensures Split(Join(xs, sep), sep) == xs
    decreases |xs|
  {
    if |xs| == 1 {
      SplitAfterPlain(xs[0], "", sep);
      assert xs[0] + "" == xs[0];
    } else {
      var j := Join(xs[1..], sep);
      SplitJoin(xs[1..], sep);
      assert sep <= sep + j && (sep + j)[|sep|..] == j;
      assert Split(sep + j, sep) == [""] + xs[1..];
      SplitAfterPlain(xs[0], sep + j, sep);
      assert xs[0] + sep + j == xs[0] + (sep + j);
      assert xs[0] + "" == xs[0];
      assert [xs[0]] + xs[1..] == xs;
    }
  }
}
