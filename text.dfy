/**
 * Character classes and string rewrites shared by the validators:
 * `re.sub(r'\D', '', s)`, `str.strip()` and `re.sub(r'\s+', ' ', s)`.
 * Digits are the ASCII digits; whitespace is the set Python's `str.isspace`
 * and the `\s` class of a `str` pattern agree on.
 */
module Text {

  predicate IsDigit(c: char) { '0' <= c <= '9' }

  function DigitValue(c: char): (d: nat)
    requires IsDigit(c)
    ensures d < 10
  {
    (c as int) - ('0' as int)
  }

  predicate AllDigits(s: string) { forall i :: 0 <= i < |s| ==> IsDigit(s[i]) }

  /** Python whitespace: \t \n \v \f \r, the separators \x1c-\x1f, space, and the Unicode spaces. */
  predicate IsSpace(c: char)
  {
    var n := c as int;
    || 9 <= n <= 13 || 28 <= n <= 32 || n == 0x85 || n == 0xA0 || n == 0x1680
    || 0x2000 <= n <= 0x200A || n == 0x2028 || n == 0x2029 || n == 0x202F
    || n == 0x205F || n == 0x3000
  }

  predicate AllSpace(s: string) { forall i :: 0 <= i < |s| ==> IsSpace(s[i]) }

  /** `re.sub(r'\D', '', s)`: the digits of `s`, in order. */
  function KeepDigits(s: string): (r: string)
    ensures AllDigits(r) && |r| <= |s|
  {
    if s == [] then [] else (if IsDigit(s[0]) then [s[0]] else []) + KeepDigits(s[1..])
  }

  lemma {:induction false} KeepDigitsOfDigits(s: string)
    requires AllDigits(s)
    ensures KeepDigits(s) == s
  {
    if s != [] {
      KeepDigitsOfDigits(s[1..]);
    }
  }

  lemma {:induction false} KeepDigitsAppend(a: string, b: string)
    ensures KeepDigits(a + b) == KeepDigits(a) + KeepDigits(b)
  {
    if a == [] {
      assert a + b == b;
    } else {
      assert (a + b)[1..] == a[1..] + b;
      KeepDigitsAppend(a[1..], b);
    }
  }

  /** A character that is not a digit disappears when the digits are kept. */
  lemma KeepDigitsSkip(c: char, b: string)
    requires !IsDigit(c)
    ensures KeepDigits([c] + b) == KeepDigits(b)
  {
    assert ([c] + b)[1..] == b;
  }

  /** Keeping the digits of a run of digits followed by more text. */
  lemma KeepDigitsRun(a: string, b: string)
    requires AllDigits(a)
    ensures KeepDigits(a + b) == a + KeepDigits(b)
  {
    KeepDigitsAppend(a, b);
    KeepDigitsOfDigits(a);
  }

  /** `s.lstrip()`: drops the leading whitespace and nothing else. */
  function TrimStart(s: string): (r: string)
    ensures |r| <= |s| && r == s[|s| - |r|..]
    ensures r == [] || !IsSpace(r[0])
    ensures forall i :: 0 <= i < |s| - |r| ==> IsSpace(s[i])
  {
    if s != [] && IsSpace(s[0]) then TrimStart(s[1..]) else s
  }

  /** `s.rstrip()`: drops the trailing whitespace and nothing else. */
  function TrimEnd(s: string): (r: string)
    ensures |r| <= |s| && r == s[..|r|]
    ensures r == [] || !IsSpace(r[|r| - 1])
    ensures forall i :: |r| <= i < |s| ==> IsSpace(s[i])
  {
    if s != [] && IsSpace(s[|s| - 1]) then TrimEnd(s[..|s| - 1]) else s
  }

  /** `s.strip()`: the middle of `s` left once the whitespace at both ends is cut off. */
  function Strip(s: string): (r: string)
    ensures |r| <= |s|
    ensures r == [] || (!IsSpace(r[0]) && !IsSpace(r[|r| - 1]))
    ensures exists i, j :: 0 <= i <= j <= |s| && r == s[i..j] && AllSpace(s[..i]) && AllSpace(s[j..])
  {
    var t := TrimStart(s);
    var r := TrimEnd(t);
    var i := |s| - |t|;
    StripSlice(s, t, r, i);
    r
  }

  lemma StripSlice(s: string, t: string, r: string, i: int)
    requires t == TrimStart(s) && r == TrimEnd(t) && i == |s| - |t|
    ensures 0 <= i <= i + |r| <= |s| && r == s[i..i + |r|]
    ensures AllSpace(s[..i]) && AllSpace(s[i + |r|..])
  {
    TrimStartCut(s);
    TrimEndCut(t);
    SliceOfSuffix(s, i, |r|);
  }

  lemma SliceOfSuffix(s: string, i: int, n: int)
    requires 0 <= i <= i + n <= |s|
    ensures s[i..][..n] == s[i..i + n] && s[i..][n..] == s[i + n..]
  {
  }

  lemma TrimStartCut(s: string)
    ensures AllSpace(s[..|s| - |TrimStart(s)|])
  {
    var a := s[..|s| - |TrimStart(s)|];
    forall k | 0 <= k < |a|
      ensures IsSpace(a[k])
    {
      assert a[k] == s[k];
    }
  }

  lemma TrimEndCut(t: string)
    ensures AllSpace(t[|TrimEnd(t)|..])
  {
    var n := |TrimEnd(t)|;
    var u := t[n..];
    forall k | 0 <= k < |u|
      ensures IsSpace(u[k])
    {
      assert u[k] == t[n + k];
    }
  }

  /** `re.sub(r'\s+', ' ', s)`: every maximal run of whitespace becomes one space. */
  function Collapse(s: string): (r: string)
    ensures |r| <= |s|
    ensures s == [] <==> r == []
    ensures s != [] ==> (IsSpace(s[0]) <==> IsSpace(r[0]))
    ensures s != [] && !IsSpace(s[0]) ==> r[0] == s[0]
    decreases |s|
  {
    if s == [] then []
    else if IsSpace(s[0]) then
      var rest := TrimStart(s);
      " " + Collapse(rest)
    else [s[0]] + Collapse(s[1..])
  }

  /** The characters of `s` that are not whitespace, in order. */
  function NonSpace(s: string): (r: string)
    ensures |r| <= |s|
    ensures forall i :: 0 <= i < |r| ==> !IsSpace(r[i])
  {
    if s == [] then [] else (if IsSpace(s[0]) then [] else [s[0]]) + NonSpace(s[1..])
  }

  /**
   * A string whose only whitespace is single plain spaces: every whitespace
   * character is ' ' and is not followed by more whitespace
   * (`SingleSpacedMeans` gives the index-wise reading).
   */
  predicate SingleSpaced(s: string)
    decreases |s|
  {
    s == [] ||
    ((IsSpace(s[0]) ==> s[0] == ' ' && (|s| == 1 || !IsSpace(s[1]))) && SingleSpaced(s[1..]))
  }

  // ---- Lemmas about Strip and Collapse ----

  /** Leading whitespace followed by a string that does not start with whitespace is dropped exactly. */
  lemma {:induction false} TrimStartSpacesThen(w: string, y: string)
    requires forall i :: 0 <= i < |w| ==> IsSpace(w[i])
    requires y == [] || !IsSpace(y[0])
    ensures TrimStart(w + y) == y
  {
    if w != [] {
      assert (w + y)[1..] == w[1..] + y;
      TrimStartSpacesThen(w[1..], y);
    } else {
      assert w + y == y;
    }
  }

  /** Trailing whitespace is trimmed inside `u` alone when something in front of it stays. */
  lemma {:induction false} TrimEndAppend(a: string, u: string)
    requires (a == [] || !IsSpace(a[|a| - 1])) || TrimEnd(u) != []
    ensures TrimEnd(a + u) == a + TrimEnd(u)
    decreases |u|
  {
    if u == [] {
      assert a + u == a;
    } else if IsSpace(u[|u| - 1]) {
      assert (a + u)[..|a + u| - 1] == a + u[..|u| - 1];
      TrimEndAppend(a, u[..|u| - 1]);
    } else {
      assert (a + u)[|a + u| - 1] == u[|u| - 1];
    }
  }

  /** `Collapse` commutes with dropping the leading whitespace. */
  lemma CollapseTrimStart(s: string)
    ensures Collapse(TrimStart(s)) == TrimStart(Collapse(s))
  {
    if s != [] && IsSpace(s[0]) {
      var t := TrimStart(s);
      var x := Collapse(t);
      assert x == [] || !IsSpace(x[0]);
      assert Collapse(s) == " " + x;
      TrimStartSpacesThen(" ", x);
    } else {
      var c := Collapse(s);
      assert TrimStart(s) == s;
      assert c == [] || !IsSpace(c[0]);
      assert TrimStart(c) == c;
    }
  }

  /** `Collapse` commutes with dropping the trailing whitespace. */
  lemma {:induction false} CollapseTrimEnd(s: string)
    ensures Collapse(TrimEnd(s)) == TrimEnd(Collapse(s))
    decreases |s|, 1
  {
    if s == [] {
    } else if !IsSpace(s[0]) {
      CollapseTrimEndWordHead(s);
    } else {
      CollapseTrimEndSpaceHead(s);
    }
  }

  lemma {:induction false} CollapseTrimEndWordHead(s: string)
    requires s != [] && !IsSpace(s[0])
    ensures Collapse(TrimEnd(s)) == TrimEnd(Collapse(s))
    decreases |s|, 0
  {
    var c, u := s[0], s[1..];
    assert s == [c] + u;
    TrimEndAppend([c], u);
    var tu := TrimEnd(u);
    assert Collapse([c] + tu) == [c] + Collapse(tu) by {
      assert ([c] + tu)[1..] == tu;
    }
    CollapseTrimEnd(u);
    var cu := Collapse(u);
    assert Collapse(s) == [c] + cu;
    TrimEndAppend([c], cu);
  }

  lemma {:induction false} CollapseTrimEndSpaceHead(s: string)
    requires s != [] && IsSpace(s[0])
    ensures Collapse(TrimEnd(s)) == TrimEnd(Collapse(s))
    decreases |s|, 0
  {
    var t := TrimStart(s);
    var w := s[..|s| - |t|];
    assert s == w + t;
    assert w != [];
    var ct := Collapse(t);
    CollapseSpacesThen(w, t);
    if t == [] {
      TrimEndAllSpaces(s);
      assert TrimEnd(" ") == [];
    } else {
      CollapseTrimEnd(t);
      var tt := TrimEnd(t);
      TrimEndNonSpaceHead(t);
      TrimEndAppend(w, t);
      CollapseSpacesThen(w, tt);
      TrimEndNonSpaceHead(ct);
      TrimEndAppend(" ", ct);
    }
  }

  /** A non-empty run of whitespace in front of a word collapses to one space. */
  lemma CollapseSpacesThen(w: string, y: string)
    requires w != [] && forall i :: 0 <= i < |w| ==> IsSpace(w[i])
    requires y == [] || !IsSpace(y[0])
    ensures Collapse(w + y) == " " + Collapse(y)
  {
    TrimStartSpacesThen(w, y);
    assert (w + y)[0] == w[0];
  }

  lemma TrimEndNonSpaceHead(t: string)
    requires t != [] && !IsSpace(t[0])
    ensures TrimEnd(t) != [] && TrimEnd(t)[0] == t[0]
  {
  }

  lemma TrimEndAllSpaces(s: string)
    requires forall i :: 0 <= i < |s| ==> IsSpace(s[i])
    ensures TrimEnd(s) == []
  {
  }

  /** Collapsing then stripping (as the form does) equals stripping then collapsing (as the model does). */
  lemma StripCollapseCommute(s: string)
    ensures Strip(Collapse(s)) == Collapse(Strip(s))
  {
    CollapseTrimStart(s);
    CollapseTrimEnd(TrimStart(s));
  }

  // ---- Neither rewrite loses or reorders a visible character ----

  lemma {:induction false} NonSpaceAppend(a: string, b: string)
    ensures NonSpace(a + b) == NonSpace(a) + NonSpace(b)
  {
    if a == [] {
      assert a + b == b;
    } else {
      assert (a + b)[1..] == a[1..] + b;
      NonSpaceAppend(a[1..], b);
    }
  }

  lemma {:induction false} NonSpaceOfSpaces(w: string)
    requires AllSpace(w)
    ensures NonSpace(w) == []
  {
    if w != [] {
      NonSpaceOfSpaces(w[1..]);
    }
  }

  lemma {:induction false} NonSpaceTrimStart(s: string)
    ensures NonSpace(TrimStart(s)) == NonSpace(s)
  {
    if s != [] && IsSpace(s[0]) {
      NonSpaceTrimStart(s[1..]);
    }
  }

  /** `Collapse` changes whitespace only: the visible characters stay, in order. */
  lemma {:induction false} CollapseKeepsNonSpace(s: string)
    ensures NonSpace(Collapse(s)) == NonSpace(s)
    decreases |s|
  {
    if s != [] {
      if IsSpace(s[0]) {
        var rest := TrimStart(s);
        CollapseKeepsNonSpace(rest);
        NonSpaceTrimStart(s);
        NonSpaceAppend(" ", Collapse(rest));
        assert NonSpace(" ") == [];
      } else {
        CollapseKeepsNonSpace(s[1..]);
        NonSpaceAppend([s[0]], Collapse(s[1..]));
        assert NonSpace([s[0]]) == [s[0]];
      }
    }
  }

  /** `Strip` drops whitespace only: the visible characters stay, in order. */
  lemma StripKeepsNonSpace(s: string)
    ensures NonSpace(Strip(s)) == NonSpace(s)
  {
    var t := TrimStart(s);
    var r := TrimEnd(t);
    var i := |s| - |t|;
    var j := i + |r|;
    StripSlice(s, t, r, i);
    var a, b := s[..i], s[j..];
    SplitAround(s, i, j);
    NonSpaceOfSpaces(a);
    NonSpaceOfSpaces(b);
    NonSpaceAppend(r, b);
    NonSpaceAppend(a, r + b);
  }

  lemma SplitAround(s: string, i: int, j: int)
    requires 0 <= i <= j <= |s|
    ensures s == s[..i] + (s[i..j] + s[j..])
  {
    assert s[i..j] + s[j..] == s[i..];
  }

  /** Putting one character in front keeps a string single-spaced unless it makes a second space or is not a plain one. */
  lemma ConsSingleSpaced(c: char, x: string)
    requires SingleSpaced(x)
    requires IsSpace(c) ==> c == ' ' && (x == [] || !IsSpace(x[0]))
    ensures SingleSpaced([c] + x)
  {
    assert ([c] + x)[1..] == x;
  }

  /** The output of `Collapse` has only single plain spaces as whitespace. */
  lemma {:induction false} CollapseSingleSpaced(s: string)
    ensures SingleSpaced(Collapse(s))
    decreases |s|
  {
    if s == [] {
    } else if !IsSpace(s[0]) {
      CollapseSingleSpaced(s[1..]);
      ConsSingleSpaced(s[0], Collapse(s[1..]));
    } else {
      var t := TrimStart(s);
      CollapseSingleSpaced(t);
      var x := Collapse(t);
      assert x == [] || !IsSpace(x[0]);
      ConsSingleSpaced(' ', x);
      assert Collapse(s) == [' '] + x;
    }
  }

  /** A single-spaced string is left alone by `Collapse`. */
  lemma {:induction false} CollapseOfSingleSpaced(s: string)
    requires SingleSpaced(s)
    ensures Collapse(s) == s
    decreases |s|
  {
    if s != [] {
      var u := s[1..];
      CollapseOfSingleSpaced(u);
      assert s == [s[0]] + u;
      if IsSpace(s[0]) {
        TrimStartSpacesThen([s[0]], u);
      }
    }
  }

  /** Dropping the leading whitespace keeps a string single-spaced. */
  lemma {:induction false} TrimStartSingleSpaced(s: string)
    requires SingleSpaced(s)
    ensures SingleSpaced(TrimStart(s))
    decreases |s|
  {
    if s != [] && IsSpace(s[0]) {
      TrimStartSingleSpaced(s[1..]);
    }
  }

  /** A prefix of a single-spaced string is single-spaced. */
  lemma {:induction false} PrefixSingleSpaced(s: string, n: nat)
    requires n <= |s| && SingleSpaced(s)
    ensures SingleSpaced(s[..n])
    decreases n
  {
    if n > 0 {
      var p := s[..n];
      PrefixSingleSpaced(s[1..], n - 1);
      assert p[1..] == s[1..][..n - 1];
      if n > 1 {
        assert p[1] == s[1];
      }
    }
  }

  /** Stripping keeps a string single-spaced. */
  lemma StripSingleSpaced(s: string)
    requires SingleSpaced(s)
    ensures SingleSpaced(Strip(s))
  {
    var t := TrimStart(s);
    TrimStartSingleSpaced(s);
    PrefixSingleSpaced(t, |TrimEnd(t)|);
  }

  /** The index-wise reading of `SingleSpaced`. */
  lemma {:induction false} SingleSpacedMeans(s: string)
    ensures SingleSpaced(s) <==>
      (forall i :: 0 <= i < |s| && IsSpace(s[i]) ==> s[i] == ' ') &&
      (forall i :: 0 <= i < |s| - 1 && IsSpace(s[i]) ==> !IsSpace(s[i + 1]))
    decreases |s|
  {
    if s != [] {
      var u := s[1..];
      SingleSpacedMeans(u);
      assert forall i :: 0 <= i < |u| ==> u[i] == s[i + 1];
    }
  }

  /** A string that starts and ends with non-whitespace is its own `Strip`. */
  lemma StripOfStripped(s: string)
    requires s == [] || (!IsSpace(s[0]) && !IsSpace(s[|s| - 1]))
    ensures Strip(s) == s
  {
  }
}
