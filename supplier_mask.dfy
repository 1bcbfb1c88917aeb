/**
 * The CNPJ input mask of the supplier form: on every keystroke the field
 * keeps its digits, at most fourteen of them, and then four regular
 * expression replacements run in order, each replacing its first match only.
 * The model follows those four replacements literally, searching for the
 * leftmost match where the pattern is not anchored, and then shows that
 * together they insert the CNPJ separators after the 2nd, 5th, 8th and 12th
 * digits as far as the digits reach.
 */
module SupplierMask {
  import opened Outcomes
  import opened Text
  import SupplierModel

  /** `v.slice(0, 14)` when longer than fourteen. */
  function Truncate(v: string): (r: string)
    ensures |r| <= 14 && |r| <= |v| && r == v[..|r|]
    ensures |v| <= 14 ==> r == v
  {
    if |v| > 14 then v[..14] else v
  }

  function Insert(w: string, at: nat, c: char): (r: string)
    requires at <= |w|
  {
    w[..at] + [c] + w[at..]
  }

  /** `.replace(/^(\d{2})(\d)/, "$1.$2")` */
  function FirstDot(v: string): string
  {
    if |v| >= 3 && IsDigit(v[0]) && IsDigit(v[1]) && IsDigit(v[2]) then Insert(v, 2, '.') else v
  }

  /** `.replace(/^(\d{2})\.(\d{3})(\d)/, "$1.$2.$3")` */
  function SecondDot(w: string): string
  {
    if |w| >= 7 && IsDigit(w[0]) && IsDigit(w[1]) && w[2] == '.'
       && IsDigit(w[3]) && IsDigit(w[4]) && IsDigit(w[5]) && IsDigit(w[6])
    then Insert(w, 6, '.') else w
  }

  /** `\.(\d{3})(\d)` matches at `k`. */
  predicate DotGroupAt(w: string, k: nat)
  {
    k + 5 <= |w| && w[k] == '.' && IsDigit(w[k + 1]) && IsDigit(w[k + 2]) && IsDigit(w[k + 3]) && IsDigit(w[k + 4])
  }

  /** The leftmost match of `\.(\d{3})(\d)` at or after `from`. */
  function FindDotGroup(w: string, from: nat): (r: Option<nat>)
    requires from <= |w|
    ensures r.Some? ==> from <= r.value && DotGroupAt(w, r.value)
    ensures r.Some? ==> forall k: nat :: from <= k < r.value ==> !DotGroupAt(w, k)
    ensures r.None? ==> forall k: nat :: from <= k ==> !DotGroupAt(w, k)
    decreases |w| - from
  {
    if DotGroupAt(w, from) then Some(from)
    else if from == |w| then None
    else FindDotGroup(w, from + 1)
  }

  /** `.replace(/\.(\d{3})(\d)/, ".$1/$2")` */
  function Slash(w: string): string
  {
    match FindDotGroup(w, 0)
    case None => w
    case Some(j) => Insert(w, j + 4, '/')
  }

  /** `(\d{4})(\d)` matches at `k`. */
  predicate RunAt(w: string, k: nat)
  {
    k + 5 <= |w| && IsDigit(w[k]) && IsDigit(w[k + 1]) && IsDigit(w[k + 2]) && IsDigit(w[k + 3]) && IsDigit(w[k + 4])
  }

  /** The leftmost match of `(\d{4})(\d)` at or after `from`. */
  function FindRun(w: string, from: nat): (r: Option<nat>)
    requires from <= |w|
    ensures r.Some? ==> from <= r.value && RunAt(w, r.value)
    ensures r.Some? ==> forall k: nat :: from <= k < r.value ==> !RunAt(w, k)
    ensures r.None? ==> forall k: nat :: from <= k ==> !RunAt(w, k)
    decreases |w| - from
  {
    if RunAt(w, from) then Some(from)
    else if from == |w| then None
    else FindRun(w, from + 1)
  }

  /** `.replace(/(\d{4})(\d)/, "$1-$2")` */
  function Dash(w: string): string
  {
    match FindRun(w, 0)
    case None => w
    case Some(j) => Insert(w, j + 4, '-')
  }

  /** The value the input handler writes back into the field. */
  function Mask(input: string): string
  {
    Dash(Slash(SecondDot(FirstDot(Truncate(KeepDigits(input))))))
  }

  /** The intended layout: separators after the 2nd, 5th, 8th and 12th digit, as far as the digits reach. */
  function Grouped(v: string): string
  {
    if |v| <= 2 then v
    else if |v| <= 5 then v[..2] + "." + v[2..]
    else if |v| <= 8 then v[..2] + "." + v[2..5] + "." + v[5..]
    else if |v| <= 12 then v[..2] + "." + v[2..5] + "." + v[5..8] + "/" + v[8..]
    else v[..2] + "." + v[2..5] + "." + v[5..8] + "/" + v[8..12] + "-" + v[12..]
  }

  // ---- the four replacements on a string of digits, by how many digits there are

  lemma StepsUpToTwo(v: string)
    requires AllDigits(v) && |v| <= 2
    ensures Dash(Slash(SecondDot(FirstDot(v)))) == Grouped(v)
  {
    assert FirstDot(v) == v && SecondDot(v) == v;
    assert !DotGroupAt(v, 0);
    assert Slash(v) == v;
    assert !RunAt(v, 0);
  }

  lemma StepsUpToFive(v: string)
    requires AllDigits(v) && 3 <= |v| <= 5
    ensures Dash(Slash(SecondDot(FirstDot(v)))) == Grouped(v)
  {
    var a := v[..2] + "." + v[2..];
    assert FirstDot(v) == a;
    assert SecondDot(a) == a;
    assert !DotGroupAt(a, 0) && !DotGroupAt(a, 1);
    assert Slash(a) == a;
    assert !RunAt(a, 0) && !RunAt(a, 1);
  }

  /** The second dot lands after the 5th digit once the first is in place. */
  lemma InsertSecondDot(v: string)
    requires 5 <= |v|
    ensures Insert(v[..2] + "." + v[2..], 6, '.') == v[..2] + "." + v[2..5] + "." + v[5..]
  {
    var a := v[..2] + "." + v[2..];
    assert a[..6] == v[..2] + "." + v[2..5];
    assert a[6..] == v[5..];
  }

  /** The slash lands after the 8th digit once both dots are in place. */
  lemma InsertSlash(v: string)
    requires 8 <= |v|
    ensures Insert(v[..2] + "." + v[2..5] + "." + v[5..], 10, '/')
         == v[..2] + "." + v[2..5] + "." + v[5..8] + "/" + v[8..]
  {
    var b := v[..2] + "." + v[2..5] + "." + v[5..];
    assert b[..10] == v[..2] + "." + v[2..5] + "." + v[5..8];
    assert b[10..] == v[8..];
  }

  /** The dash lands after the 12th digit once the other separators are in place. */
  lemma InsertDash(v: string)
    requires 12 <= |v|
    ensures Insert(v[..2] + "." + v[2..5] + "." + v[5..8] + "/" + v[8..], 15, '-')
         == v[..2] + "." + v[2..5] + "." + v[5..8] + "/" + v[8..12] + "-" + v[12..]
  {
    var head := v[..2] + "." + v[2..5] + "." + v[5..8] + "/";
    var c := head + v[8..];
    assert |head| == 11;
    assert c[..15] == head + v[8..12];
    assert c[15..] == v[12..];
  }

  /** With at least six digits the first two replacements put dots after the 2nd and 5th digits. */
  lemma DotsAfterTwoAndFive(v: string)
    requires AllDigits(v) && 6 <= |v|
    ensures SecondDot(FirstDot(v)) == v[..2] + "." + v[2..5] + "." + v[5..]
  {
    var a := v[..2] + "." + v[2..];
    assert FirstDot(v) == a;
    assert a[2] == '.' && a[3] == v[2] && a[4] == v[3] && a[5] == v[4] && a[6] == v[5];
    InsertSecondDot(v);
  }

  lemma StepsUpToEight(v: string)
    requires AllDigits(v) && 6 <= |v| <= 8
    ensures Dash(Slash(SecondDot(FirstDot(v)))) == Grouped(v)
  {
    DotsAfterTwoAndFive(v);
    var b := v[..2] + "." + v[2..5] + "." + v[5..];
    assert b[2] == '.' && b[6] == '.';
    forall k: nat | k + 5 <= |b| ensures !DotGroupAt(b, k) {
      if k != 2 { assert b[k] != '.'; }
    }
    assert Slash(b) == b;
    forall k: nat | k + 5 <= |b| ensures !RunAt(b, k) {
      if k <= 2 { assert !IsDigit(b[2]); } else { assert !IsDigit(b[6]); }
    }
    assert Dash(b) == b;
  }

  /** With at least nine digits the third replacement puts the '/' after the 8th digit. */
  lemma SlashAfterEight(v: string)
    requires AllDigits(v) && 9 <= |v|
    ensures Slash(SecondDot(FirstDot(v))) == v[..2] + "." + v[2..5] + "." + v[5..8] + "/" + v[8..]
  {
    DotsAfterTwoAndFive(v);
    var b := v[..2] + "." + v[2..5] + "." + v[5..];
    assert b[2] == '.' && b[6] == '.';
    assert b[7] == v[5] && b[8] == v[6] && b[9] == v[7] && b[10] == v[8];
    assert DotGroupAt(b, 6);
    forall k: nat | k < 6 ensures !DotGroupAt(b, k) {
      if k != 2 { assert b[k] != '.'; }
    }
    assert FindDotGroup(b, 0) == Some(6);
    InsertSlash(v);
  }

  /** In the slashed form of at most twelve digits no five digits are adjacent. */
  lemma NoRunUpToTwelve(v: string)
    requires AllDigits(v) && 9 <= |v| <= 12
    ensures FindRun(v[..2] + "." + v[2..5] + "." + v[5..8] + "/" + v[8..], 0).None?
  {
    var c := v[..2] + "." + v[2..5] + "." + v[5..8] + "/" + v[8..];
    assert |c| == |v| + 3;
    assert c[2] == '.' && c[6] == '.' && c[10] == '/';
    forall k: nat | k + 5 <= |c| ensures !RunAt(c, k) {
      if k <= 2 { assert !IsDigit(c[2]); }
      else if k <= 6 { assert !IsDigit(c[6]); }
      else { assert !IsDigit(c[10]); }
    }
  }

  lemma StepsUpToTwelve(v: string)
    requires AllDigits(v) && 9 <= |v| <= 12
    ensures Dash(Slash(SecondDot(FirstDot(v)))) == Grouped(v)
  {
    SlashAfterEight(v);
    NoRunUpToTwelve(v);
  }

  /** In the slashed form of at least thirteen digits the leftmost run of five digits starts after the '/'. */
  lemma FirstRunAfterSlash(v: string)
    requires AllDigits(v) && 13 <= |v|
    ensures FindRun(v[..2] + "." + v[2..5] + "." + v[5..8] + "/" + v[8..], 0) == Some(11)
  {
    var c := v[..2] + "." + v[2..5] + "." + v[5..8] + "/" + v[8..];
    assert c[2] == '.' && c[6] == '.' && c[10] == '/';
    assert c[11] == v[8] && c[12] == v[9] && c[13] == v[10] && c[14] == v[11] && c[15] == v[12];
    assert RunAt(c, 11);
    forall k: nat | k < 11 ensures !RunAt(c, k) {
      if k <= 2 { assert !IsDigit(c[2]); }
      else if k <= 6 { assert !IsDigit(c[6]); }
      else { assert !IsDigit(c[10]); }
    }
  }

  lemma StepsFromThirteen(v: string)
    requires AllDigits(v) && 13 <= |v|
    ensures Dash(Slash(SecondDot(FirstDot(v)))) == Grouped(v)
  {
    SlashAfterEight(v);
    FirstRunAfterSlash(v);
    InsertDash(v);
  }

  /** The four replacements insert exactly the separators of the intended layout. */
  lemma MaskIsGrouped(input: string)
    ensures Mask(input) == Grouped(Truncate(KeepDigits(input)))
  {
    var v := Truncate(KeepDigits(input));
    assert AllDigits(v);
    if |v| <= 2 { StepsUpToTwo(v); }
    else if |v| <= 5 { StepsUpToFive(v); }
    else if |v| <= 8 { StepsUpToEight(v); }
    else if |v| <= 12 { StepsUpToTwelve(v); }
    else { StepsFromThirteen(v); }
  }

  // ---- properties of the mask

  /** A separator between two pieces contributes no digit. */
  lemma KeepDigitsAround(x: string, c: char, y: string)
    requires !IsDigit(c)
    ensures KeepDigits(x + [c] + y) == KeepDigits(x) + KeepDigits(y)
  {
    KeepDigitsAppend(x + [c], y);
    KeepDigitsAppend(x, [c]);
    KeepDigitsSkip(c, []);
  }

  /** One more separator and digit group: the digits seen so far extend by that group. */
  lemma KeepDigitsLayer(p: string, c: char, v: string, n: nat, m: nat)
    requires AllDigits(v) && n <= m <= |v| && !IsDigit(c)
    requires KeepDigits(p) == v[..n]
    ensures KeepDigits(p + [c] + v[n..m]) == v[..m]
  {
    KeepDigitsAround(p, c, v[n..m]);
    KeepDigitsOfDigits(v[n..m]);
    assert v[..n] + v[n..m] == v[..m];
  }

  /** The layout only adds separators: its digits are the digits it was given, in order. */
  lemma GroupedKeepsDigits(v: string)
    requires AllDigits(v)
    ensures KeepDigits(Grouped(v)) == v
  {
    var n := |v|;
    assert v[..n] == v;
    if n <= 2 {
      KeepDigitsOfDigits(v);
    } else {
      KeepDigitsOfDigits(v[..2]);
      assert v[2..] == v[2..n];
      if n <= 5 {
        KeepDigitsLayer(v[..2], '.', v, 2, n);
      } else {
        KeepDigitsLayer(v[..2], '.', v, 2, 5);
        var p2 := v[..2] + "." + v[2..5];
        assert v[5..] == v[5..n];
        if n <= 8 {
          KeepDigitsLayer(p2, '.', v, 5, n);
        } else {
          KeepDigitsLayer(p2, '.', v, 5, 8);
          var p3 := p2 + "." + v[5..8];
          assert v[8..] == v[8..n];
          if n <= 12 {
            KeepDigitsLayer(p3, '/', v, 8, n);
          } else {
            KeepDigitsLayer(p3, '/', v, 8, 12);
            var p4 := p3 + "/" + v[8..12];
            assert v[12..] == v[12..n];
            KeepDigitsLayer(p4, '-', v, 12, n);
          }
        }
      }
    }
  }

  /** The digits of the masked value are the first fourteen digits typed, in order. */
  lemma MaskKeepsDigits(input: string)
    ensures KeepDigits(Mask(input)) == Truncate(KeepDigits(input))
  {
    MaskIsGrouped(input);
    GroupedKeepsDigits(Truncate(KeepDigits(input)));
  }

  /** The layout adds one separator per complete group before the last. */
  lemma GroupedLength(v: string)
    ensures |Grouped(v)| == |v| + (if |v| >= 3 then 1 else 0) + (if |v| >= 6 then 1 else 0)
                                + (if |v| >= 9 then 1 else 0) + (if |v| >= 13 then 1 else 0)
  {
  }

  /** The masked value never exceeds the 18 characters of the column. */
  lemma MaskLength(input: string)
    ensures |Mask(input)| <= 18
  {
    MaskIsGrouped(input);
    GroupedLength(Truncate(KeepDigits(input)));
  }

  /** Character `i` of the layout of fourteen characters. */
  function FourteenLayoutAt(v: string, i: nat): char
    requires |v| == 14 && i < 18
  {
    if i < 2 then v[i]
    else if i == 2 then '.'
    else if i < 6 then v[i - 1]
    else if i == 6 then '.'
    else if i < 10 then v[i - 2]
    else if i == 10 then '/'
    else if i < 15 then v[i - 3]
    else if i == 15 then '-'
    else v[i - 4]
  }

  lemma GroupedFourteenAt(v: string)
    requires |v| == 14
    ensures |Grouped(v)| == 18
    ensures forall i: nat :: i < 18 ==> Grouped(v)[i] == FourteenLayoutAt(v, i)
  {
    var head := v[..2] + "." + v[2..5] + "." + v[5..8] + "/";
    var tail := v[8..12] + "-" + v[12..];
    assert Grouped(v) == head + tail;
    assert |head| == 11 && |tail| == 7;
    forall i: nat | i < 18 ensures Grouped(v)[i] == FourteenLayoutAt(v, i) {
      if i < 11 { assert Grouped(v)[i] == head[i]; } else { assert Grouped(v)[i] == tail[i - 11]; }
    }
  }

  /** Fourteen digits are laid out as dd.ddd.ddd/dddd-dd. */
  lemma GroupedFourteenIsCnpj(v: string)
    requires AllDigits(v) && |v| == 14
    ensures SupplierModel.IsCnpjBody(Grouped(v))
  {
    GroupedFourteenAt(v);
    var g := Grouped(v);
    forall i: nat | i < 18 ensures SupplierModel.CnpjCharAt(g, i) {
      assert g[i] == FourteenLayoutAt(v, i);
    }
  }

  /** Once fourteen digits have been typed, the field holds a CNPJ the supplier model accepts. */
  lemma MaskOfFourteenDigitsIsCnpj(input: string)
    requires |KeepDigits(input)| >= 14
    ensures SupplierModel.IsCnpjBody(Mask(input))
    ensures SupplierModel.CnpjAccepted(Mask(input))
  {
    MaskIsGrouped(input);
    GroupedFourteenIsCnpj(Truncate(KeepDigits(input)));
  }

  /** Masking the masked value changes nothing. */
  lemma MaskIdempotent(input: string)
    ensures Mask(Mask(input)) == Mask(input)
  {
    var v := Truncate(KeepDigits(input));
    MaskKeepsDigits(input);
    assert Truncate(KeepDigits(Mask(input))) == v;
    MaskIsGrouped(Mask(input));
    MaskIsGrouped(input);
  }

  /** Regrouping the fourteen digits of a formatted CNPJ gives it back. */
  lemma RegroupFormatted(s: string, v: string)
    requires SupplierModel.IsCnpjBody(s)
    requires v == s[..2] + (s[3..6] + (s[7..10] + (s[11..15] + s[16..])))
    ensures Grouped(v) == s
  {
    assert SupplierModel.CnpjCharAt(s, 2) && SupplierModel.CnpjCharAt(s, 6);
    assert SupplierModel.CnpjCharAt(s, 10) && SupplierModel.CnpjCharAt(s, 15);
    assert |v| == 14;
    GroupedFourteenAt(v);
    var g := Grouped(v);
    forall i | 0 <= i < 18 ensures g[i] == s[i] {
      assert g[i] == FourteenLayoutAt(v, i);
      if i < 2 { assert v[i] == s[i]; }
      else if 2 < i < 6 { assert v[i - 1] == s[i]; }
      else if 6 < i < 10 { assert v[i - 2] == s[i]; }
      else if 10 < i < 15 { assert v[i - 3] == s[i]; }
      else if 15 < i { assert v[i - 4] == s[i]; }
    }
  }

  /** A CNPJ already in the accepted layout passes through the mask unchanged. */
  lemma MaskOfFormattedCnpj(s: string)
    requires SupplierModel.IsCnpjBody(s)
    ensures Mask(s) == s
  {
    SupplierModel.CnpjHasFourteenDigits(s);
    MaskIsGrouped(s);
    assert Truncate(KeepDigits(s)) == KeepDigits(s);
    RegroupFormatted(s, KeepDigits(s));
  }
}
