/** Bytes, decimal digits and the small facts about sequences that every other module uses. */
module Bytes {

  type Byte = x: int | 0 <= x < 256

  type Bytes = seq<Byte>

  datatype Option<+T> = None | Some(value: T)

  const MINUS: Byte := 45
  const DIGIT_0: Byte := 48
  const DIGIT_9: Byte := 57
  const COLON: Byte := 58
  const LETTER_D: Byte := 100
  const LETTER_E: Byte := 101
  const LETTER_I: Byte := 105
  const LETTER_L: Byte := 108

  const INT64_MAX := 0x7fff_ffff_ffff_ffff

  predicate Numeric(c: Byte) {
    DIGIT_0 <= c <= DIGIT_9
  }

  predicate AllDigits(s: Bytes) {
    forall i :: 0 <= i < |s| ==> Numeric(s[i])
  }

  /** The number that the digits `ds` spell when they are read after the number `init`. */
  function DecimalFrom(init: nat, ds: Bytes): nat
    requires AllDigits(ds)
  {
    if ds == [] then init else 10 * DecimalFrom(init, ds[..|ds| - 1]) + (ds[|ds| - 1] - DIGIT_0)
  }

  function Decimal(ds: Bytes): nat
    requires AllDigits(ds)
  {
    DecimalFrom(0, ds)
  }

  /** Reading more digits never makes the number smaller. */
  lemma {:induction false} DecimalFromMonotone(init: nat, ds: Bytes, k: nat)
    requires AllDigits(ds) && k <= |ds|
    ensures DecimalFrom(init, ds[..k]) <= DecimalFrom(init, ds)
  {
    if k == |ds| {
      assert ds[..k] == ds;
    } else {
      DecimalFromMonotone(init, ds[..|ds| - 1], k);
      assert ds[..|ds| - 1][..k] == ds[..k];
    }
  }

  /** A number can be read in two goes. */
  lemma {:induction false} DecimalFromSplit(init: nat, a: Bytes, b: Bytes)
    requires AllDigits(a) && AllDigits(b)
    ensures AllDigits(a + b)
    ensures DecimalFrom(init, a + b) == DecimalFrom(DecimalFrom(init, a), b)
  {
    if b == [] {
      assert a + b == a;
    } else {
      DecimalFromSplit(init, a, b[..|b| - 1]);
      assert (a + b)[..|a + b| - 1] == a + b[..|b| - 1];
    }
  }

  lemma {:induction false} DigitsGrow(init: nat, s: Bytes, i: nat, j: nat)
    requires i <= j < |s| && AllDigits(s[i..j]) && Numeric(s[j])
    ensures AllDigits(s[i..j + 1])
    ensures DecimalFrom(init, s[i..j + 1]) == 10 * DecimalFrom(init, s[i..j]) + (s[j] - DIGIT_0)
  {
    SliceGrows(s, i, j);
  }

  /** How many digits stand in `s` from position `from` on before anything else does. */
  function DigitRun(s: Bytes, from: nat): (n: nat)
    requires from <= |s|
    ensures from + n <= |s|
    ensures forall i :: from <= i < from + n ==> Numeric(s[i])
    ensures from + n < |s| ==> !Numeric(s[from + n])
    decreases |s| - from
  {
    if from < |s| && Numeric(s[from]) then 1 + DigitRun(s, from + 1) else 0
  }

  /** A run of digits that something else follows is the whole run. */
  lemma {:induction false} DigitRunIs(s: Bytes, from: nat, n: nat)
    requires from + n <= |s|
    requires forall i :: from <= i < from + n ==> Numeric(s[i])
    requires from + n < |s| ==> !Numeric(s[from + n])
    ensures DigitRun(s, from) == n
    decreases n
  {
    if n > 0 {
      DigitRunIs(s, from + 1, n - 1);
    }
  }

  /** The digits of a number, without superfluous zeros. */
  function DigitsOf(n: nat): (ds: Bytes)
    ensures ds != [] && AllDigits(ds)
  {
    if n < 10 then [DIGIT_0 + n] else DigitsOf(n / 10) + [DIGIT_0 + n % 10]
  }

  lemma {:induction false} DecimalOfOne(c: Byte)
    requires Numeric(c)
    ensures Decimal([c]) == c - DIGIT_0
  {
    assert [c][..0] == [];
    assert DecimalFrom(0, []) == 0;
  }

  lemma {:induction false} DecimalOfDigits(n: nat)
    ensures Decimal(DigitsOf(n)) == n
  {
    if n >= 10 {
      DecimalOfDigits(n / 10);
      InitOfAppend(DigitsOf(n / 10), DIGIT_0 + n % 10);
    } else {
      DecimalOfOne(DIGIT_0 + n);
    }
  }

  lemma {:induction false} FirstDigit(n: nat)
    ensures DigitsOf(n)[0] == DIGIT_0 <==> n == 0
    ensures n == 0 ==> |DigitsOf(n)| == 1
  {
    if n >= 10 {
      FirstDigit(n / 10);
    }
  }

  /** Digits without superfluous zeros are those of the number that they spell. */
  lemma {:induction false} DigitsOfDecimal(ds: Bytes)
    requires ds != [] && AllDigits(ds) && (ds[0] == DIGIT_0 ==> |ds| == 1)
    ensures DigitsOf(Decimal(ds)) == ds
    ensures Decimal(ds) > 0 || ds == [DIGIT_0]
  {
    var init := ds[..|ds| - 1];
    if init == [] {
      assert ds == [ds[0]];
      DecimalOfOne(ds[0]);
    } else {
      DigitsOfDecimal(init);
      assert ds == init + [ds[|ds| - 1]];
    }
  }

  function PowerOfTen(k: nat): nat {
    if k == 0 then 1 else 10 * PowerOfTen(k - 1)
  }

  /** The digits in front count for ten times as much as often as there are digits behind them. */
  lemma {:induction false} DecimalOfConcat(a: Bytes, b: Bytes)
    requires AllDigits(a) && AllDigits(b)
    ensures AllDigits(a + b) && Decimal(a + b) == Decimal(a) * PowerOfTen(|b|) + Decimal(b)
  {
    if b == [] {
      assert a + b == a;
    } else {
      InitOfConcat(a, b);
      DecimalOfConcat(a, b[..|b| - 1]);
      TenTimes(Decimal(a), PowerOfTen(|b| - 1));
    }
  }

  lemma {:induction false} TenTimes(n: nat, p: nat)
    ensures 10 * (n * p) == n * (10 * p)
  {}

  lemma {:induction false} FewDigits(n: nat, k: nat)
    requires 0 < k && n < PowerOfTen(k)
    ensures |DigitsOf(n)| <= k
  {
    if n >= 10 {
      FewDigits(n / 10, k - 1);
    }
  }

  lemma {:induction false} ManyDigits(n: nat, k: nat)
    requires n >= PowerOfTen(k)
    ensures |DigitsOf(n)| > k
  {
    if k > 0 {
      ManyDigits(n / 10, k - 1);
    }
  }

  /** The order of byte strings: the first difference decides, and a string comes before those it begins. */
  predicate Less(a: Bytes, b: Bytes) {
    if b == [] then false
    else if a == [] then true
    else a[0] < b[0] || (a[0] == b[0] && Less(a[1..], b[1..]))
  }

  /** `a` and `b` are the same up to `k`, where `a` has the smaller byte. */
  predicate FirstSmaller(a: Bytes, b: Bytes, k: nat) {
    k < |a| && k < |b| && a[..k] == b[..k] && a[k] < b[k]
  }

  /** `a` comes before `b` in byte order: it is a beginning of `b`, or smaller where they first differ. */
  ghost predicate Before(a: Bytes, b: Bytes) {
    a < b || exists k: nat :: FirstSmaller(a, b, k)
  }

  lemma {:induction false} LessIff(a: Bytes, b: Bytes)
    ensures Less(a, b) <==> Before(a, b)
  {
    if a != [] && b != [] {
      LessIff(a[1..], b[1..]);
      assert a == [a[0]] + a[1..] && b == [b[0]] + b[1..];
      if a[0] < b[0] {
        assert FirstSmaller(a, b, 0);
      } else if a[0] == b[0] {
        forall k: nat
          ensures FirstSmaller(a[1..], b[1..], k) <==> FirstSmaller(a, b, k + 1)
        {
          SmallerBehind(a, b, k);
        }
        assert !FirstSmaller(a, b, 0);
        assert forall k: nat :: FirstSmaller(a, b, k) ==> k > 0 && FirstSmaller(a[1..], b[1..], k - 1);
      } else {
        assert forall k: nat :: !FirstSmaller(a, b, k) by {
          assert forall k: nat :: 0 < k <= |a| && k <= |b| ==> a[..k][0] != b[..k][0];
        }
      }
    }
  }

  lemma {:induction false} SmallerBehind(a: Bytes, b: Bytes, k: nat)
    requires a != [] && b != [] && a[0] == b[0]
    ensures FirstSmaller(a[1..], b[1..], k) <==> FirstSmaller(a, b, k + 1)
  {
    if k < |a| - 1 && k < |b| - 1 {
      assert a[..k + 1] == [a[0]] + a[1..][..k] && b[..k + 1] == [b[0]] + b[1..][..k];
      assert a[1..][..k] == a[..k + 1][1..] && b[1..][..k] == b[..k + 1][1..];
    }
  }

  lemma {:induction false} LessIsTransitive(a: Bytes, b: Bytes, c: Bytes)
    requires Less(a, b) && Less(b, c)
    ensures Less(a, c)
  {
    if a != [] && a[0] == b[0] == c[0] {
      LessIsTransitive(a[1..], b[1..], c[1..]);
    }
  }

  lemma {:induction false} LessIsTotal(a: Bytes, b: Bytes)
    ensures a == b || Less(a, b) || Less(b, a)
    ensures !(Less(a, b) && Less(b, a)) && !Less(a, a)
  {
    if a != [] && b != [] {
      LessIsTotal(a[1..], b[1..]);
      assert a == [a[0]] + a[1..] && b == [b[0]] + b[1..];
    }
    LessIsIrreflexive(a);
  }

  lemma {:induction false} LessIsIrreflexive(a: Bytes)
    ensures !Less(a, a)
  {
    if a != [] {
      LessIsIrreflexive(a[1..]);
    }
  }

  lemma {:induction false} ConcatAssociative<T>(a: seq<T>, b: seq<T>, c: seq<T>)
    ensures a + (b + c) == (a + b) + c
  {}

  lemma {:induction false} ConcatAssociative4<T>(a: seq<T>, b: seq<T>, c: seq<T>, d: seq<T>)
    ensures a + (b + (c + d)) == (a + (b + c)) + d
  {}

  lemma {:induction false} SliceAround<T>(s: seq<T>, i: nat, j: nat)
    requires i < j < |s|
    ensures s[i..j + 1] == [s[i]] + s[i + 1..j] + [s[j]]
  {}

  lemma {:induction false} SliceExtends<T>(s: seq<T>, i: nat, j: nat)
    requires i <= j <= |s|
    ensures s[..j] == s[..i] + s[i..j]
  {}

  lemma {:induction false} OneMore<T>(s: seq<T>, i: nat)
    requires i < |s|
    ensures s[..i + 1] == s[..i] + [s[i]]
  {}

  lemma {:induction false} TimesSum(a: int, b: int, x: int)
    ensures (a + b) * x == a * x + b * x
    ensures x * (a + b) == x * a + x * b
  {}

  function Join(parts: seq<Bytes>): Bytes {
    if parts == [] then [] else Join(parts[..|parts| - 1]) + parts[|parts| - 1]
  }

  lemma {:induction false} JoinConcat(a: seq<Bytes>, b: seq<Bytes>)
    ensures Join(a + b) == Join(a) + Join(b)
  {
    if b == [] {
      assert a + b == a;
    } else {
      JoinConcat(a, b[..|b| - 1]);
      InitOfConcat(a, b);
      ConcatAssociative(Join(a), Join(b[..|b| - 1]), b[|b| - 1]);
    }
  }

  lemma {:induction false} JoinOne(a: Bytes)
    ensures Join([a]) == a
  {
    assert [a][..0] == [];
  }

  lemma {:induction false} TakeOfConcat<T>(a: seq<T>, b: seq<T>, k: nat)
    requires k <= |a| + |b|
    ensures (a + b)[..k] == if k <= |a| then a[..k] else a + b[..k - |a|]
  {}

  lemma {:induction false} TakeAll<T>(s: seq<T>)
    ensures s[..|s|] == s
  {}

  lemma {:induction false} InitOfConcat<T>(a: seq<T>, b: seq<T>)
    requires b != []
    ensures (a + b)[..|a + b| - 1] == a + b[..|b| - 1]
    ensures (a + b)[|a + b| - 1] == b[|b| - 1]
  {}

  lemma {:induction false} InitOfAppend<T>(a: seq<T>, x: T)
    ensures (a + [x])[..|a + [x]| - 1] == a && (a + [x])[|a|] == x
  {}

  lemma {:induction false} SliceGrows<T>(s: seq<T>, i: nat, j: nat)
    requires i <= j < |s|
    ensures s[i..j + 1] == s[i..j] + [s[j]]
    ensures s[i..j + 1][..j - i] == s[i..j] && s[i..j + 1][j - i] == s[j]
  {}

  lemma {:induction false} SliceOfSlice<T>(s: seq<T>, i: nat, n: nat, from: nat, to: nat)
    requires i + n <= |s| && from <= to <= n
    ensures s[i..i + n][from..to] == s[i + from..i + to]
    ensures from < n ==> s[i..i + n][from] == s[i + from]
  {
    var a, b := s[i..i + n][from..to], s[i + from..i + to];
    assert |a| == |b|;
    forall k | 0 <= k < |a|
      ensures a[k] == b[k]
    {
      assert a[k] == s[i..i + n][from + k] == s[i + (from + k)];
      assert b[k] == s[(i + from) + k];
    }
  }

  /** `part` stands in `s` at position `i`. */
  ghost predicate LaidOut<T>(s: seq<T>, i: nat, part: seq<T>) {
    i + |part| <= |s| && s[i..i + |part|] == part
  }

  lemma {:induction false} LaidOutParts<T>(s: seq<T>, i: nat, a: seq<T>, b: seq<T>)
    requires LaidOut(s, i, a + b)
    ensures LaidOut(s, i, a) && LaidOut(s, i + |a|, b)
  {
    var whole := s[i..i + |a + b|];
    assert whole == a + b;
    assert s[i..i + |a|] == whole[..|a|] == a;
    assert s[i + |a|..i + |a| + |b|] == whole[|a|..] == b;
  }

  lemma {:induction false} LaidOutHead<T>(s: seq<T>, i: nat, part: seq<T>)
    requires LaidOut(s, i, part) && part != []
    ensures i < |s| && s[i] == part[0]
  {
    assert s[i] == s[i..i + |part|][0];
  }
}
