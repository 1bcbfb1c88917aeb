/**
 * The two patterns of the supplier model as recognisers: the CNPJ pattern
 * `dd.ddd.ddd/dddd-dd` and the phone pattern (optional '(', two digits,
 * optional ')', at most one whitespace, 4 or 5 digits, optional '-', 4 digits).
 * Python's `$` also matches just before a final '\n', so each recogniser
 * accepts its body followed by one newline as well.
 */
module SupplierModel {
  import opened Outcomes
  import opened Text

  // ---- CNPJ

  /** Character `i` of a formatted CNPJ: '.' at 2 and 6, '/' at 10, '-' at 15, a digit elsewhere. */
  predicate CnpjCharAt(s: string, i: nat)
    requires i < |s|
  {
    if i == 2 || i == 6 then s[i] == '.'
    else if i == 10 then s[i] == '/'
    else if i == 15 then s[i] == '-'
    else IsDigit(s[i])
  }

  predicate IsCnpjBody(s: string)
  {
    |s| == 18 && forall i: nat :: i < 18 ==> CnpjCharAt(s, i)
  }

  /** The CNPJ field's validator. */
  predicate CnpjAccepted(s: string)
  {
    IsCnpjBody(s) || (|s| == 19 && s[18] == '\n' && IsCnpjBody(s[..18]))
  }

  /** The digit groups and separators of a formatted CNPJ. */
  lemma CnpjPieces(s: string)
    requires IsCnpjBody(s)
    ensures AllDigits(s[..2]) && AllDigits(s[3..6]) && AllDigits(s[7..10]) && AllDigits(s[11..15]) && AllDigits(s[16..])
    ensures !IsDigit(s[2]) && !IsDigit(s[6]) && !IsDigit(s[10]) && !IsDigit(s[15])
  {
    forall i | 0 <= i < 18 && i != 2 && i != 6 && i != 10 && i != 15 ensures IsDigit(s[i]) {
      assert CnpjCharAt(s, i);
    }
    assert CnpjCharAt(s, 2) && CnpjCharAt(s, 6) && CnpjCharAt(s, 10) && CnpjCharAt(s, 15);
  }

  /** A formatted CNPJ carries exactly fourteen digits: its five groups, in order. */
  lemma CnpjHasFourteenDigits(s: string)
    requires IsCnpjBody(s)
    ensures KeepDigits(s) == s[..2] + (s[3..6] + (s[7..10] + (s[11..15] + s[16..])))
    ensures |KeepDigits(s)| == 14
  {
    CnpjPieces(s);
    CnpjSplit(s);
    KeepDigitsOfDigits(s[16..]);
    GroupThenSeparator(s[11..15], s[15], s[16..]);
    GroupThenSeparator(s[7..10], s[10], s[11..]);
    GroupThenSeparator(s[3..6], s[6], s[7..]);
    GroupThenSeparator(s[..2], s[2], s[3..]);
  }

  /** An 18-character string as its groups and the characters between them. */
  lemma CnpjSplit(s: string)
    requires |s| == 18
    ensures s[11..] == s[11..15] + ([s[15]] + s[16..])
    ensures s[7..] == s[7..10] + ([s[10]] + s[11..])
    ensures s[3..] == s[3..6] + ([s[6]] + s[7..])
    ensures s == s[..2] + ([s[2]] + s[3..])
  {
    assert s[11..] == s[11..15] + s[15..];
    assert s[7..] == s[7..10] + s[10..];
    assert s[3..] == s[3..6] + s[6..];
    assert s == s[..2] + s[2..];
  }

  /** Keeping the digits of a group of digits, a separator and more text. */
  lemma GroupThenSeparator(g: string, c: char, rest: string)
    requires AllDigits(g) && !IsDigit(c)
    ensures KeepDigits(g + ([c] + rest)) == g + KeepDigits(rest)
  {
    KeepDigitsRun(g, [c] + rest);
    KeepDigitsSkip(c, rest);
  }

  /** The CNPJ of the supplier tests is accepted. */
  lemma SampleCnpjAccepted(s: string)
    requires s == "12.345.678/0001-90"
    ensures CnpjAccepted(s)
  {
    forall i: nat | i < 18 ensures CnpjCharAt(s, i) { }
  }

  /** The digits alone, or a wrong separator, are refused. */
  lemma UnformattedCnpjRefused(s: string, t: string)
    requires s == "12345678000190" && t == "12.345.678-0001/90"
    ensures !CnpjAccepted(s) && !CnpjAccepted(t)
  {
    assert !CnpjCharAt(t, 10);
  }

  // ---- phone and mobile

  /** The number part of a phone: 4 or 5 digits, an optional '-', 4 digits. */
  datatype Number = Number(prefix: string, dash: bool, line: string)

  /** How a phone splits into the parts of the pattern. */
  datatype PhoneParts = PhoneParts(open: bool, area: string, close: bool, space: Option<char>, number: Number)

  predicate NumberOk(n: Number)
  {
    4 <= |n.prefix| <= 5 && AllDigits(n.prefix) && |n.line| == 4 && AllDigits(n.line)
  }

  predicate WellFormed(p: PhoneParts)
  {
    && |p.area| == 2 && AllDigits(p.area)
    && SpaceOk(p.space)
    && NumberOk(p.number)
  }

  /** The optional whitespace between area code and number. */
  predicate SpaceOk(space: Option<char>)
  {
    space.Some? ==> IsSpace(space.value)
  }

  /** An optional single-character part. */
  function Piece(present: bool, c: char): string
  {
    if present then [c] else []
  }

  /** Splitting off an optional leading character. */
  lemma PieceSplit(s: string, c: char)
    ensures var present := |s| > 0 && s[0] == c;
      s == Piece(present, c) + (if present then s[1..] else s)
  {
    if |s| > 0 && s[0] == c { assert s == [c] + s[1..]; }
  }

  /** An optional leading character is recognised exactly when it was put there. */
  lemma PieceStrip(present: bool, c: char, rest: string)
    requires rest == [] || rest[0] != c
    ensures var s := Piece(present, c) + rest;
      && (|s| > 0 && s[0] == c) == present
      && (if present then s[1..] else s) == rest
  {
    if present { assert (Piece(present, c) + rest)[1..] == rest; }
  }

  function SpaceText(space: Option<char>): string
  {
    if space.Some? then [space.value] else []
  }

  function RenderNumber(n: Number): string
  {
    n.prefix + (Piece(n.dash, '-') + n.line)
  }

  function Render(p: PhoneParts): string
  {
    Piece(p.open, '(') + (p.area + (Piece(p.close, ')') + (SpaceText(p.space) + RenderNumber(p.number))))
  }

  function ParseNumber(s: string): Option<Number>
  {
    if AllDigits(s) && (|s| == 8 || |s| == 9) then Some(Number(s[..|s| - 4], false, s[|s| - 4..]))
    else if (|s| == 9 || |s| == 10) && s[|s| - 5] == '-'
         && AllDigits(s[..|s| - 5]) && AllDigits(s[|s| - 4..]) then Some(Number(s[..|s| - 5], true, s[|s| - 4..]))
    else None
  }

  /** After the optional ')': the optional whitespace, then the number. */
  function ParseFromSpace(open: bool, area: string, close: bool, s3: string): Option<PhoneParts>
  {
    var space := if |s3| > 0 && IsSpace(s3[0]) then Some(s3[0]) else None;
    match ParseNumber(if space.Some? then s3[1..] else s3)
    case None => None
    case Some(n) => Some(PhoneParts(open, area, close, space, n))
  }

  /** After the area code: the optional ')', then the rest. */
  function ParseFromClose(open: bool, area: string, s2: string): Option<PhoneParts>
  {
    var close := |s2| > 0 && s2[0] == ')';
    ParseFromSpace(open, area, close, if close then s2[1..] else s2)
  }

  lemma ParseNumberSound(s: string)
    ensures ParseNumber(s).Some? ==> NumberOk(ParseNumber(s).value) && RenderNumber(ParseNumber(s).value) == s
  {
    if AllDigits(s) && (|s| == 8 || |s| == 9) {
      assert s == s[..|s| - 4] + (Piece(false, '-') + s[|s| - 4..]);
    } else if (|s| == 9 || |s| == 10) && s[|s| - 5] == '-' && AllDigits(s[..|s| - 5]) && AllDigits(s[|s| - 4..]) {
      assert s == s[..|s| - 5] + (Piece(true, '-') + s[|s| - 4..]);
    }
  }

  lemma ParseFromSpaceSound(open: bool, area: string, close: bool, s3: string)
    ensures var r := ParseFromSpace(open, area, close, s3);
      r.Some? ==>
      && r.value.open == open && r.value.area == area && r.value.close == close
      && SpaceOk(r.value.space) && NumberOk(r.value.number)
      && s3 == SpaceText(r.value.space) + RenderNumber(r.value.number)
  {
    var space := if |s3| > 0 && IsSpace(s3[0]) then Some(s3[0]) else None;
    var s4 := if space.Some? then s3[1..] else s3;
    assert s3 == SpaceText(space) + s4;
    ParseNumberSound(s4);
  }

  lemma ParseFromCloseSound(open: bool, area: string, s2: string)
    ensures var r := ParseFromClose(open, area, s2);
      r.Some? ==>
      && r.value.open == open && r.value.area == area
      && SpaceOk(r.value.space) && NumberOk(r.value.number)
      && s2 == Piece(r.value.close, ')') + (SpaceText(r.value.space) + RenderNumber(r.value.number))
  {
    var close := |s2| > 0 && s2[0] == ')';
    PieceSplit(s2, ')');
    ParseFromSpaceSound(open, area, close, if close then s2[1..] else s2);
  }

  /**
   * Reads the pattern left to right. Every optional part is a character no
   * other part can start with, so taking it whenever it is there is the only
   * way to match.
   */
  function ParsePhone(s: string): Option<PhoneParts>
  {
    var open := |s| > 0 && s[0] == '(';
    var s1 := if open then s[1..] else s;
    if |s1| < 2 || !IsDigit(s1[0]) || !IsDigit(s1[1]) then None
    else ParseFromClose(open, s1[..2], s1[2..])
  }

  /** Whatever the reader returns is a well-formed decomposition of its input. */
  lemma ParsePhoneSound(s: string)
    ensures ParsePhone(s).Some? ==> WellFormed(ParsePhone(s).value) && Render(ParsePhone(s).value) == s
  {
    var open := |s| > 0 && s[0] == '(';
    var s1 := if open then s[1..] else s;
    if |s1| >= 2 && IsDigit(s1[0]) && IsDigit(s1[1]) {
      PieceSplit(s, '(');
      ParsePhoneAfterOpen(open, s1);
      AreaThenRest(open, s1);
    }
  }

  /** A reading after the area code renders back the whole phone. */
  lemma AreaThenRest(open: bool, s1: string)
    requires |s1| >= 2 && IsDigit(s1[0]) && IsDigit(s1[1])
    ensures var r := ParseFromClose(open, s1[..2], s1[2..]);
      r.Some? ==> WellFormed(r.value) && Render(r.value) == Piece(open, '(') + s1
  {
    var area, s2 := s1[..2], s1[2..];
    assert s1 == area + s2;
    assert AllDigits(area);
    ParseFromCloseSound(open, area, s2);
  }

  /** The phone and mobile fields' validator. */
  predicate PhoneAccepted(s: string)
  {
    ParsePhone(s).Some? || (|s| > 0 && s[|s| - 1] == '\n' && ParsePhone(s[..|s| - 1]).Some?)
  }

  lemma ParseNumberComplete(n: Number)
    requires NumberOk(n)
    ensures ParseNumber(RenderNumber(n)) == Some(n)
  {
    if n.dash {
      assert RenderNumber(n) == n.prefix + (['-'] + n.line);
      DashedNumberRead(n.prefix, n.line);
    } else {
      assert RenderNumber(n) == n.prefix + n.line;
      PlainNumberRead(n.prefix, n.line);
    }
  }

  /** A number without a dash is split four digits from its end. */
  lemma PlainNumberRead(prefix: string, line: string)
    requires 4 <= |prefix| <= 5 && AllDigits(prefix) && |line| == 4 && AllDigits(line)
    ensures ParseNumber(prefix + line) == Some(Number(prefix, false, line))
  {
    var s := prefix + line;
    assert AllDigits(s) by {
      forall i | 0 <= i < |s| ensures IsDigit(s[i]) {
        if i >= |prefix| { assert s[i] == line[i - |prefix|]; }
      }
    }
    assert s[..|s| - 4] == prefix && s[|s| - 4..] == line;
  }

  /** A number with a dash is split at the dash. */
  lemma DashedNumberRead(prefix: string, line: string)
    requires 4 <= |prefix| <= 5 && AllDigits(prefix) && |line| == 4 && AllDigits(line)
    ensures ParseNumber(prefix + (['-'] + line)) == Some(Number(prefix, true, line))
  {
    var s := prefix + (['-'] + line);
    assert s[|prefix|] == '-';
    assert !AllDigits(s);
    assert s[..|s| - 5] == prefix && s[|s| - 4..] == line;
  }

  lemma ParseFromSpaceComplete(p: PhoneParts)
    requires WellFormed(p)
    ensures ParseFromSpace(p.open, p.area, p.close, SpaceText(p.space) + RenderNumber(p.number)) == Some(p)
  {
    var s4 := RenderNumber(p.number);
    ParseNumberComplete(p.number);
    assert IsDigit(s4[0]);
    SpaceRead(p.space, s4);
  }

  /** The optional whitespace is recognised exactly when it was put there. */
  lemma SpaceRead(space: Option<char>, s4: string)
    requires SpaceOk(space) && s4 != [] && !IsSpace(s4[0])
    ensures var s3 := SpaceText(space) + s4;
      && (if |s3| > 0 && IsSpace(s3[0]) then Some(s3[0]) else None) == space
      && (if space.Some? then s3[1..] else s3) == s4
  {
    var s3 := SpaceText(space) + s4;
    if space.Some? { assert s3[1..] == s4; } else { assert s3 == s4; }
  }

  lemma ParseFromCloseComplete(p: PhoneParts)
    requires WellFormed(p)
    ensures ParseFromClose(p.open, p.area, Piece(p.close, ')') + (SpaceText(p.space) + RenderNumber(p.number))) == Some(p)
  {
    var s3 := SpaceText(p.space) + RenderNumber(p.number);
    ParseFromSpaceComplete(p);
    assert IsDigit(RenderNumber(p.number)[0]);
    PieceStrip(p.close, ')', s3);
  }

  /** The reader strips an optional '(' and then reads two digits of area code. */
  lemma ParsePhoneAfterOpen(open: bool, s1: string)
    requires |s1| >= 2 && IsDigit(s1[0]) && IsDigit(s1[1])
    ensures ParsePhone(Piece(open, '(') + s1) == ParseFromClose(open, s1[..2], s1[2..])
  {
    PieceStrip(open, '(', s1);
  }

  /** Every well-formed decomposition is read back as itself: the reading is complete and unambiguous. */
  lemma ParsePhoneComplete(p: PhoneParts)
    requires WellFormed(p)
    ensures ParsePhone(Render(p)) == Some(p)
  {
    var s2 := Piece(p.close, ')') + (SpaceText(p.space) + RenderNumber(p.number));
    ParseFromCloseComplete(p);
    var s1 := p.area + s2;
    assert s1[..2] == p.area && s1[2..] == s2;
    ParsePhoneAfterOpen(p.open, s1);
  }

  /** An optional separator contributes no digit. */
  lemma KeepDigitsPiece(present: bool, c: char, rest: string)
    requires !IsDigit(c)
    ensures KeepDigits(Piece(present, c) + rest) == KeepDigits(rest)
  {
    if present { KeepDigitsSkip(c, rest); } else { assert Piece(present, c) + rest == rest; }
  }

  /** Neither does the optional whitespace. */
  lemma KeepDigitsSpace(space: Option<char>, rest: string)
    requires SpaceOk(space)
    ensures KeepDigits(SpaceText(space) + rest) == KeepDigits(rest)
  {
    if space.Some? {
      assert IsSpace(space.value);
      KeepDigitsSkip(space.value, rest);
    } else {
      assert SpaceText(space) + rest == rest;
    }
  }

  /** The digits of a phone are its area code, its prefix and its line, in that order. */
  lemma DigitsOfPhone(p: PhoneParts)
    requires WellFormed(p)
    ensures KeepDigits(Render(p)) == p.area + (p.number.prefix + p.number.line)
  {
    var n := p.number;
    var digits := n.prefix + n.line;
    var t1 := Piece(n.dash, '-') + n.line;
    KeepDigitsOfDigits(n.line);
    KeepDigitsPiece(n.dash, '-', n.line);
    assert KeepDigits(t1) == n.line;
    var t2 := n.prefix + t1;
    KeepDigitsRun(n.prefix, t1);
    assert KeepDigits(t2) == digits;
    var t3 := SpaceText(p.space) + t2;
    KeepDigitsSpace(p.space, t2);
    assert KeepDigits(t3) == digits;
    var t4 := Piece(p.close, ')') + t3;
    KeepDigitsPiece(p.close, ')', t3);
    assert KeepDigits(t4) == digits;
    var t5 := p.area + t4;
    KeepDigitsRun(p.area, t4);
    assert KeepDigits(t5) == p.area + digits;
    KeepDigitsPiece(p.open, '(', t5);
    assert Render(p) == Piece(p.open, '(') + t5;
  }

  /** Every well-formed phone has 10 or 11 digits and is 10 to 15 characters long. */
  lemma AcceptedPhoneShape(p: PhoneParts)
    requires WellFormed(p)
    ensures |KeepDigits(Render(p))| == 10 || |KeepDigits(Render(p))| == 11
    ensures 10 <= |Render(p)| <= 15
  {
    DigitsOfPhone(p);
  }

  /** What the reader accepts has 10 or 11 digits and at most 15 characters. */
  lemma ParsedPhoneShape(s: string)
    requires ParsePhone(s).Some?
    ensures |KeepDigits(s)| == 10 || |KeepDigits(s)| == 11
    ensures |s| <= 15
  {
    ParsePhoneSound(s);
    AcceptedPhoneShape(ParsePhone(s).value);
  }

  /** Every string the phone validator accepts has 10 or 11 digits; without a final newline it fits max_length=15. */
  lemma PhoneAcceptedShape(s: string)
    requires PhoneAccepted(s)
    ensures |KeepDigits(s)| == 10 || |KeepDigits(s)| == 11
    ensures s == [] || s[|s| - 1] != '\n' ==> |s| <= 15
  {
    if ParsePhone(s).Some? {
      ParsedPhoneShape(s);
    } else {
      NewlineEndedShape(s[..|s| - 1], s);
    }
  }

  /** The final newline `$` lets through adds no digit. */
  lemma NewlineEndedShape(t: string, s: string)
    requires ParsePhone(t).Some? && s == t + "\n"
    ensures |KeepDigits(s)| == |KeepDigits(t)|
    ensures |KeepDigits(t)| == 10 || |KeepDigits(t)| == 11
  {
    ParsedPhoneShape(t);
    KeepDigitsAppend(t, "\n");
    assert KeepDigits("\n") == [];
  }

  /** The number part "98765-4321" is read as prefix, dash and line. */
  lemma DashedMobileNumber(s: string)
    requires s == "98765-4321"
    ensures ParseNumber(s) == Some(Number("98765", true, "4321"))
  {
    assert !IsDigit(s[5]);
    assert s[..5] == "98765" && s[6..] == "4321";
  }

  /** A decomposition that renders to `s` makes `s` accepted. */
  lemma AcceptedByParts(p: PhoneParts, s: string)
    requires WellFormed(p) && Render(p) == s
    ensures PhoneAccepted(s)
  {
    ParsePhoneComplete(p);
  }

  /** The mobile number of the supplier tests is accepted. */
  lemma SampleMobileAccepted(s: string)
    requires s == "(11) 98765-4321"
    ensures PhoneAccepted(s)
  {
    var p := PhoneParts(true, "11", true, Some(' '), Number("98765", true, "4321"));
    assert Render(p) == "(" + ("11" + (")" + (" " + ("98765" + ("-" + "4321")))));
    AcceptedByParts(p, s);
  }

  /** The landline number of the supplier tests is accepted. */
  lemma SamplePhoneAccepted(s: string)
    requires s == "(11) 3456-7890"
    ensures PhoneAccepted(s)
  {
    var p := PhoneParts(true, "11", true, Some(' '), Number("3456", true, "7890"));
    assert Render(p) == "(" + ("11" + (")" + (" " + ("3456" + ("-" + "7890")))));
    AcceptedByParts(p, s);
  }

  /** The parentheses are optional independently of each other: an opening one alone is accepted ... */
  lemma OpeningParenthesisAloneAccepted(s: string)
    requires s == "(11 98765-4321"
    ensures PhoneAccepted(s)
  {
    var p := PhoneParts(true, "11", false, Some(' '), Number("98765", true, "4321"));
    assert Render(p) == "(" + ("11" + ([] + (" " + ("98765" + ("-" + "4321")))));
    AcceptedByParts(p, s);
  }

  /** ... and so is a closing one alone. */
  lemma ClosingParenthesisAloneAccepted(s: string)
    requires s == "11) 98765-4321"
    ensures PhoneAccepted(s)
  {
    var p := PhoneParts(false, "11", true, Some(' '), Number("98765", true, "4321"));
    assert Render(p) == [] + ("11" + (")" + (" " + ("98765" + ("-" + "4321")))));
    AcceptedByParts(p, s);
  }

  /** A second whitespace is where a number must start. */
  lemma SecondSpaceRefused(rest: string)
    requires rest == "  98765-4321"
    ensures ParseFromSpace(true, "11", true, rest) == None
  {
    assert IsSpace(rest[0]);
    var s4 := rest[1..];
    assert |s4| == 11 && !IsDigit(s4[0]);
  }

  /** At most one whitespace may follow the area code. */
  lemma TwoSpacesRefused(s: string)
    requires s == "(11)  98765-4321"
    ensures !PhoneAccepted(s)
  {
    var s2 := ")  98765-4321";
    assert s == "(" + ("11" + s2);
    assert ("11" + s2)[..2] == "11" && ("11" + s2)[2..] == s2;
    ParsePhoneAfterOpen(true, "11" + s2);
    assert s2[1..] == "  98765-4321";
    SecondSpaceRefused(s2[1..]);
  }
}
