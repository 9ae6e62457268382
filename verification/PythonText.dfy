/** What Python makes of a byte string: the number that `int` reads in it, and slices with offsets of any sign. */
module PythonText {
  import opened Bytes

  const PLUS: Byte := 43
  const UNDERSCORE: Byte := 95

  /** Tabs, line and page breaks, and blanks. */
  predicate White(c: Byte) {
    9 <= c <= 13 || c == 32
  }

  function Stripped(s: Bytes): Bytes {
    if s == [] then s
    else if White(s[0]) then Stripped(s[1..])
    else if White(s[|s| - 1]) then Stripped(s[..|s| - 1])
    else s
  }

  /** Digits, with single underscores between them. */
  predicate Grouped(s: Bytes) {
    && s != [] && Numeric(s[|s| - 1])
    && (|s| == 1 || Grouped(s[..|s| - 1]) || (|s| > 2 && s[|s| - 2] == UNDERSCORE && Grouped(s[..|s| - 2])))
  }

  /** The digits without the underscores. */
  function Ungrouped(s: Bytes): (ds: Bytes)
    requires Grouped(s)
    ensures AllDigits(ds)
  {
    if |s| == 1 then s
    else if Grouped(s[..|s| - 1]) then Ungrouped(s[..|s| - 1]) + [s[|s| - 1]]
    else Ungrouped(s[..|s| - 2]) + [s[|s| - 1]]
  }

  datatype Numeral = Number(n: int) | NoNumber

  /** `int(s)`, or its `ValueError`. */
  function PyInt(s: Bytes): (number: Numeral)
    ensures number.Number? ==> s != []
  {
    var t := Stripped(s);
    var signed := t != [] && (t[0] == MINUS || t[0] == PLUS);
    var digits := if signed then t[1..] else t;
    if !Grouped(digits) then NoNumber else
    Number(WithSign(signed && t[0] == MINUS, Decimal(Ungrouped(digits))))
  }

  function WithSign(negative: bool, magnitude: nat): int {
    var n: int := magnitude;
    if negative then -n else n
  }

  /** Digits, and nothing else but a minus sign in front of them. */
  predicate Plain(s: Bytes) {
    s != [] && if s[0] == MINUS then |s| > 1 && AllDigits(s[1..]) else AllDigits(s)
  }

  lemma {:induction false} UngroupedDigits(s: Bytes)
    requires s != [] && AllDigits(s)
    ensures Grouped(s) && Ungrouped(s) == s
  {
    if |s| > 1 {
      UngroupedDigits(s[..|s| - 1]);
    }
  }

  lemma {:induction false} PlainIsRead(s: Bytes)
    requires Plain(s)
    ensures PyInt(s) == Number(WithSign(s[0] == MINUS, Decimal(if s[0] == MINUS then s[1..] else s)))
  {
    var digits := if s[0] == MINUS then s[1..] else s;
    assert s[|s| - 1] == digits[|digits| - 1];
    assert Stripped(s) == s;
    UngroupedDigits(digits);
  }

  predicate AllWhite(s: Bytes) {
    forall i :: 0 <= i < |s| ==> White(s[i])
  }

  /** White space on both sides does not matter. */
  lemma {:induction false} WhiteSpaceAround(a: Bytes, s: Bytes, b: Bytes)
    requires AllWhite(a) && AllWhite(b) && s != [] && !White(s[0]) && !White(s[|s| - 1])
    ensures PyInt(a + s + b) == PyInt(s)
  {
    StripsAround(a, s, b);
    StripsAround([], s, []);
    assert [] + s + [] == s;
  }

  lemma {:induction false} StripsAround(a: Bytes, s: Bytes, b: Bytes)
    requires AllWhite(a) && AllWhite(b) && s != [] && !White(s[0]) && !White(s[|s| - 1])
    ensures Stripped(a + s + b) == s
    decreases |a| + |b|
  {
    if a != [] {
      StripsAround(a[1..], s, b);
      assert (a + s + b)[1..] == a[1..] + s + b;
    } else if b != [] {
      StripsAround(a, s, b[..|b| - 1]);
      assert (a + s + b)[..|a + s + b| - 1] == a + s + b[..|b| - 1];
    } else {
      assert a + s + b == s;
    }
  }

  /** White space in front and behind is all that is taken off, and all of it is. */
  lemma {:induction false} StrippedIs(s: Bytes) returns (a: Bytes, b: Bytes)
    ensures s == a + Stripped(s) + b && AllWhite(a) && AllWhite(b)
    ensures Stripped(s) != [] ==> !White(Stripped(s)[0]) && !White(Stripped(s)[|Stripped(s)| - 1])
  {
    var i, j := StrippedAt(s);
    a, b := s[..i], s[j..];
  }

  lemma {:induction false} StrippedAt(s: Bytes) returns (i: nat, j: nat)
    ensures i <= j <= |s| && Stripped(s) == s[i..j] && forall k :: 0 <= k < |s| && !(i <= k < j) ==> White(s[k])
    ensures i < j ==> !White(s[i]) && !White(s[j - 1])
  {
    i, j := 0, |s|;
    if s != [] {
      if White(s[0]) {
        i, j := StrippedAt(s[1..]);
        assert s[1..][i..j] == s[i + 1..j + 1];
        i, j := i + 1, j + 1;
      } else if White(s[|s| - 1]) {
        i, j := StrippedAt(s[..|s| - 1]);
        assert s[..|s| - 1][i..j] == s[i..j];
      }
    }
  }

  /** Digits and underscores, with a digit at both ends, and no two underscores next to each other. */
  predicate DigitsInGroups(s: Bytes) {
    && s != [] && Numeric(s[0]) && Numeric(s[|s| - 1])
    && (forall i :: 0 <= i < |s| ==> Numeric(s[i]) || s[i] == 95)
    && forall i :: 0 < i < |s| && s[i] == 95 ==> Numeric(s[i - 1])
  }

  /** The digits among other bytes. */
  function DigitsIn(s: Bytes): (ds: Bytes)
    ensures AllDigits(ds)
  {
    if s == [] then [] else
    DigitsIn(s[..|s| - 1]) + if Numeric(s[|s| - 1]) then [s[|s| - 1]] else []
  }

  lemma {:induction false} GroupedIff(s: Bytes)
    ensures Grouped(s) <==> DigitsInGroups(s)
  {
    if |s| > 1 {
      GroupedIff(s[..|s| - 1]);
      if |s| > 2 {
        GroupedIff(s[..|s| - 2]);
      }
    }
  }

  lemma {:induction false} UngroupedIs(s: Bytes)
    requires Grouped(s)
    ensures Ungrouped(s) == DigitsIn(s)
  {
    if |s| == 1 {
      assert s[..0] == [];
    } else if Grouped(s[..|s| - 1]) {
      UngroupedIs(s[..|s| - 1]);
    } else {
      UngroupedIs(s[..|s| - 2]);
      assert s[..|s| - 1][..|s| - 2] == s[..|s| - 2];
    }
  }

  predicate Sign(s: Bytes) {
    s == [] || s == [45] || s == [43]
  }

  /** Blanks, tabs, and line and page breaks. */
  predicate Blanks(s: Bytes) {
    forall i :: 0 <= i < |s| ==> s[i] == 32 || s[i] in {9, 10, 11, 12, 13}
  }

  lemma {:induction false} BlanksAreWhite(s: Bytes)
    ensures Blanks(s) <==> AllWhite(s)
  {}

  /** What `int` reads: a sign or none and digits in groups, with white space around. */
  lemma {:induction false} PyIntReads(a: Bytes, sign: Bytes, digits: Bytes, b: Bytes)
    requires Blanks(a) && Sign(sign) && DigitsInGroups(digits) && Blanks(b)
    ensures PyInt(a + (sign + digits) + b) == Number(WithSign(sign == [45], Decimal(DigitsIn(digits))))
  {
    hide Stripped, Grouped, Ungrouped, DigitsInGroups, DigitsIn, AllWhite, Blanks;
    BlanksAreWhite(a);
    BlanksAreWhite(b);
    var s := sign + digits;
    SignedEnds(sign, digits);
    StripsAround(a, s, b);
    GroupedIff(digits);
    UngroupedIs(digits);
    assert a + s + b == a + (sign + digits) + b;
  }

  lemma {:induction false} SignedEnds(sign: Bytes, digits: Bytes)
    requires Sign(sign) && DigitsInGroups(digits)
    ensures var s := sign + digits;
      && s != [] && !White(s[0]) && !White(s[|s| - 1]) && (sign != [] <==> s[0] == MINUS || s[0] == PLUS)
      && (sign != [] ==> sign == [s[0]]) && (if sign == [] then s else s[1..]) == digits
  {}

  /** And it reads nothing else. */
  lemma {:induction false} PyIntParts(s: Bytes) returns (a: Bytes, sign: Bytes, digits: Bytes, b: Bytes)
    requires PyInt(s).Number?
    ensures s == a + (sign + digits) + b
    ensures Blanks(a) && Sign(sign) && DigitsInGroups(digits) && Blanks(b)
  {
    a, b := StrippedIs(s);
    BlanksAreWhite(a);
    BlanksAreWhite(b);
    var t := Stripped(s);
    sign := if t != [] && (t[0] == MINUS || t[0] == PLUS) then [t[0]] else [];
    digits := t[|sign|..];
    assert t == sign + digits;
    GroupedIff(digits);
  }

  // ----- slices

  /** Where a slice begins or ends: an offset below 0 counts from the end, and both stay inside. */
  function Bound(x: Bytes, i: int): (j: nat)
    ensures j <= |x|
  {
    if i > |x| then |x| else if i >= 0 then i else if i + |x| > 0 then i + |x| else 0
  }

  /** `x[i:j]`. */
  function Slice(x: Bytes, i: int, j: int): Bytes {
    if Bound(x, i) <= Bound(x, j) then x[Bound(x, i)..Bound(x, j)] else []
  }
}
