/**
 How Deluge's decoders run, step by step and with offsets of any sign, as Python has them: what they come to is what
 `DelugeBencode` says, unless the length of a key leads them back to where they were before.
 */
module DelugeRun {
  import opened Bytes
  import opened PythonText
  import opened DelugeBencode

  /** A result with the offset behind it, or an exception that is a `BTFailure` in the end, or neither as yet. */
  datatype Run<T> = Ended(value: T, next: int) | Raised | Running

  /** `x[f:f + 1]`: a byte, or nothing. */
  function At(x: Bytes, f: int): Option<Byte> {
    if 0 <= f < |x| then Some(x[f])
    else if f < -1 && f + |x| >= 0 then Some(x[f + |x|])
    else None
  }

  lemma {:induction false} AtIsSlice(x: Bytes, f: int)
    ensures Slice(x, f, f + 1) == if At(x, f).Some? then [At(x, f).value] else []
  {}

  /** `x.index(c, f)` */
  function Index(x: Bytes, c: Byte, f: int): (i: Option<nat>)
    ensures i.Some? ==> i.value < |x|
  {
    IndexOf(x, c, Bound(x, f))
  }

  function RunInt(x: Bytes, f: int): Run<Value> {
    match Index(x, LETTER_E, f + 1)
    case None => Raised
    case Some(end) => RunIntUpTo(x, f, end, PyInt(Slice(x, f + 1, end)))
  }

  function RunIntUpTo(x: Bytes, f: int, end: nat, number: Numeral): Run<Value> {
    if number.NoNumber? then Raised
    else if At(x, f + 1) == Some(MINUS) && At(x, f + 2) == Some(DIGIT_0) then Raised
    else if At(x, f + 1) == Some(DIGIT_0) && end != f + 2 then Raised
    else Ended(VInt(number.n), end + 1)
  }

  function RunString(x: Bytes, f: int): Run<Bytes> {
    match Index(x, COLON, f)
    case None => Raised
    case Some(colon) => RunStringUpTo(x, f, colon, PyInt(Slice(x, f, colon)))
  }

  function RunStringUpTo(x: Bytes, f: int, colon: nat, length: Numeral): Run<Bytes> {
    if length.NoNumber? then Raised
    else if At(x, f) == Some(DIGIT_0) && colon != f + 1 then Raised
    else Ended(Slice(x, colon + 1, colon + 1 + length.n), colon + 1 + length.n)
  }

  /** `decode_func[x[f:f + 1]](x, f)`, with so many calls and turns of loops one inside or behind the other. */
  function RunValue(x: Bytes, f: int, steps: nat): Run<Value>
    decreases steps, 0
  {
    var c := At(x, f);
    if steps == 0 then Running
    else if c == Some(LETTER_I) then RunInt(x, f)
    else if c == Some(LETTER_L) then RunItems(x, f + 1, [], steps - 1)
    else if c == Some(LETTER_D) then RunEntries(x, f + 1, map[], steps - 1)
    else if c.Some? && Numeric(c.value) then
      match RunString(x, f)
      case Ended(content, next) => Ended(VBytes(content), next)
      case Raised => Raised
      case Running => Running
    else Raised
  }

  function RunItems(x: Bytes, f: int, r: seq<Value>, steps: nat): Run<Value>
    decreases steps, 0
  {
    if steps == 0 then Running
    else if At(x, f) == Some(LETTER_E) then Ended(VList(r), f + 1)
    else
      match RunValue(x, f, steps - 1)
      case Ended(v, next) => RunItems(x, next, r + [v], steps - 1)
      case o => o
  }

  function RunEntries(x: Bytes, f: int, r: map<Bytes, Value>, steps: nat): Run<Value>
    decreases steps, 0
  {
    if steps == 0 then Running
    else if At(x, f) == Some(LETTER_E) then Ended(VDict(r), f + 1)
    else
      match RunString(x, f)
      case Raised => Raised
      case Running => Running
      case Ended(k, g) =>
        match RunValue(x, g, steps - 1)
        case Ended(v, next) => RunEntries(x, next, r[k := v], steps - 1)
        case o => o
  }

  // ----- the runs come to what the decoders say

  function AsRun(o: Outcome<Value>): Run<Value> {
    if o.Decoded? then Ended(o.value, o.next) else if o.Failed? then Raised else Running
  }

  function AsStringRun(o: Outcome<Bytes>): Run<Bytes> {
    if o.Decoded? then Ended(o.value, o.next) else if o.Failed? then Raised else Running
  }

  lemma {:induction false} IntsAgree(x: Bytes, f: nat)
    requires f < |x|
    ensures RunInt(x, f) == AsRun(DecodeInt(x, f))
  {
    var end := IndexOf(x, LETTER_E, f + 1);
    if end.Some? {
      var number := PyInt(x[f + 1..end.value]);
      NumberRead(x, f, end.value, number);
      IntUpToAgrees(x, f, end.value, number);
    }
  }

  lemma {:induction false} IntUpToAgrees(x: Bytes, f: nat, end: nat, number: Numeral)
    requires f < end < |x| && number == PyInt(x[f + 1..end]) && (number.Number? ==> f + 1 < end)
    requires IndexOf(x, LETTER_E, f + 1) == Some(end)
    ensures RunInt(x, f) == AsRun(IntUpTo(x, f, end, number))
  {
    assert Slice(x, f + 1, end) == x[f + 1..end];
  }

  lemma {:induction false} StringsAgree(x: Bytes, f: nat)
    requires DecodeString(x, f) != Backward
    ensures RunString(x, f) == AsStringRun(DecodeString(x, f))
  {
    var colon := IndexOf(x, COLON, f);
    if colon.Some? {
      var length := PyInt(x[f..colon.value]);
      LengthRead(x, f, colon.value, length);
      StringUpToAgrees(x, f, colon.value, length);
    }
  }

  lemma {:induction false} StringUpToAgrees(x: Bytes, f: nat, colon: nat, length: Numeral)
    requires f <= colon < |x| && length == PyInt(x[f..colon]) && (length.Number? ==> f < colon)
    requires IndexOf(x, COLON, f) == Some(colon) && StringUpTo(x, f, colon, length) != Backward
    ensures RunString(x, f) == AsStringRun(StringUpTo(x, f, colon, length))
  {
    assert Slice(x, f, colon) == x[f..colon];
  }

  /** Two steps for every byte are enough. */
  function Enough(x: Bytes, f: nat): nat {
    2 * Left(x, f) + 1
  }

  /** Without a key that leads back, the decoder ends, and comes to the value or the failure that is said of it. */
  lemma {:induction false} ValueEnds(x: Bytes, f: nat, steps: nat)
    requires Decode(x, f) != Backward && steps >= Enough(x, f)
    ensures RunValue(x, f, steps) == AsRun(Decode(x, f))
    decreases Left(x, f), 0
  {
    hide DecodeInt, DecodeString, RunInt, RunString;
    if f < |x| {
      if x[f] == LETTER_I {
        IntsAgree(x, f);
      } else if x[f] == LETTER_L {
        ItemsEnd(x, f + 1, [], steps - 1);
      } else if x[f] == LETTER_D {
        EntriesEnd(x, f + 1, map[], steps - 1);
      } else if Numeric(x[f]) {
        StringsAgree(x, f);
      }
    }
  }

  lemma {:induction false} ItemsEnd(x: Bytes, f: nat, r: seq<Value>, steps: nat)
    requires DecodeItems(x, f, r) != Backward && steps >= Enough(x, f) + 1
    ensures RunItems(x, f, r, steps) == AsRun(DecodeItems(x, f, r))
    decreases Left(x, f), 1
  {
    hide DecodeInt, DecodeString, RunInt, RunString;
    if !(f < |x| && x[f] == LETTER_E) {
      ValueEnds(x, f, steps - 1);
      var o := Decode(x, f);
      if o.Decoded? {
        ItemsEnd(x, o.next, r + [o.value], steps - 1);
      }
    }
  }

  lemma {:induction false} EntriesEnd(x: Bytes, f: nat, r: map<Bytes, Value>, steps: nat)
    requires DecodeEntries(x, f, r) != Backward && steps >= Enough(x, f) + 1
    ensures RunEntries(x, f, r, steps) == AsRun(DecodeEntries(x, f, r))
    decreases Left(x, f), 1
  {
    hide DecodeInt, DecodeString, RunInt, RunString;
    if !(f < |x| && x[f] == LETTER_E) {
      StringsAgree(x, f);
      var key := DecodeString(x, f);
      if key.Decoded? {
        ValueEnds(x, key.next, steps - 1);
        var o := Decode(x, key.next);
        if o.Decoded? {
          EntriesEnd(x, o.next, r[key.value := o.value], steps - 1);
        }
      }
    }
  }

  // ----- which texts have no key that leads back

  /** Wherever a key could stand, its length does not lead back to its beginning. */
  ghost predicate KeysLeadOn(x: Bytes) {
    forall f: nat :: f < |x| ==> DecodeString(x, f) != Backward
  }

  lemma {:induction false} ValueLeadsOn(x: Bytes, f: nat)
    requires KeysLeadOn(x)
    ensures Decode(x, f) != Backward
    decreases Left(x, f), 0
  {
    hide DecodeInt, DecodeString;
    if f < |x| {
      if x[f] == LETTER_I {
        IntLeadsOn(x, f);
      } else if x[f] == LETTER_L {
        ItemsLeadOn(x, f + 1, []);
      } else if x[f] == LETTER_D {
        EntriesLeadOn(x, f + 1, map[]);
      }
    }
  }

  lemma {:induction false} IntLeadsOn(x: Bytes, f: nat)
    ensures DecodeInt(x, f) != Backward
  {}

  lemma {:induction false} ItemsLeadOn(x: Bytes, f: nat, r: seq<Value>)
    requires KeysLeadOn(x)
    ensures DecodeItems(x, f, r) != Backward
    decreases Left(x, f), 1
  {
    hide DecodeInt, DecodeString;
    if !(f < |x| && x[f] == LETTER_E) {
      ValueLeadsOn(x, f);
      var o := Decode(x, f);
      if o.Decoded? {
        ItemsLeadOn(x, o.next, r + [o.value]);
      }
    }
  }

  lemma {:induction false} EntriesLeadOn(x: Bytes, f: nat, r: map<Bytes, Value>)
    requires KeysLeadOn(x)
    ensures DecodeEntries(x, f, r) != Backward
    decreases Left(x, f), 1
  {
    if !(f < |x| && x[f] == LETTER_E) {
      NothingBehind(x, f);
      hide DecodeInt, DecodeString;
      var key := DecodeString(x, f);
      if key.Decoded? {
        ValueLeadsOn(x, key.next);
        var o := Decode(x, key.next);
        if o.Decoded? {
          EntriesLeadOn(x, o.next, r[key.value := o.value]);
        }
      }
    }
  }

  lemma {:induction false} NothingBehind(x: Bytes, f: nat)
    requires KeysLeadOn(x)
    ensures DecodeString(x, f) != Backward
  {
    if f >= |x| {
      assert IndexOf(x, COLON, f) == None;
    }
  }

  /**
   `bdecode` ends, in a value or in a `BTFailure`, on every text in which no key could lead back; and so on every
   encoded value, with that value.
   */
  lemma {:induction false} DecodingEnds(x: Bytes, v: Value)
    ensures KeysLeadOn(x) ==> Decode(x, 0) != Backward && RunValue(x, 0, Enough(x, 0)) == AsRun(Decode(x, 0))
    ensures RunValue(Encoding(v), 0, Enough(Encoding(v), 0)) == Ended(v, |Encoding(v)|)
  {
    if KeysLeadOn(x) {
      ValueLeadsOn(x, 0);
      ValueEnds(x, 0, Enough(x, 0));
    }
    RoundTrip(v);
    ValueEnds(Encoding(v), 0, Enough(Encoding(v), 0));
  }

  // ----- a text that is decoded for ever

  /** The key of `d-4:` is the empty string, and its value is the dictionary itself. */
  lemma {:induction false} NeverEnds(steps: nat)
    ensures RunValue([LETTER_D, MINUS, 52, COLON], 0, steps) == Running
  {
    var x: Bytes := [LETTER_D, MINUS, 52, COLON];
    if steps > 1 {
      KeyLeadsBack(52);
      NeverEnds(steps - 2);
    }
  }

  /** The key of `d-3:` leads back to its own beginning, where there is no value. */
  lemma {:induction false} BackAndFails()
    ensures RunValue([LETTER_D, MINUS, 51, COLON], 0, 3) == Raised
  {
    KeyLeadsBack(51);
  }

  lemma {:induction false} KeyLeadsBack(digit: Byte)
    requires DIGIT_0 < digit < DIGIT_0 + 10
    ensures RunString([LETTER_D, MINUS, digit, COLON], 1) == Ended([], 4 - (digit - DIGIT_0))
  {
    var x: Bytes := [LETTER_D, MINUS, digit, COLON];
    IndexIs(x, COLON, 1, 3);
    assert Slice(x, 1, 3) == [MINUS, digit] && [MINUS, digit][1..] == [digit];
    PlainIsRead([MINUS, digit]);
    DecimalOfOne(digit);
  }

  // ----- whether decoding ends at all, on any text

  /** What a decoder has to do from an offset on: a value, or the rest of a list or of a dictionary. */
  datatype Place = AtValue(f: int) | AtItems(f: int) | AtEntries(f: int)

  /** It ends within so many steps. */
  predicate Stops(x: Bytes, p: Place, steps: nat) {
    match p
    case AtValue(f) => RunValue(x, f, steps) != Running
    case AtItems(f) => RunItems(x, f, [], steps) != Running
    case AtEntries(f) => RunEntries(x, f, map[], steps) != Running
  }

  /** How a run ends, but for the value. */
  predicate SameEnd(o: Run<Value>, p: Run<Value>) {
    && (o == Running <==> p == Running) && (o.Ended? <==> p.Ended?) && (o.Ended? ==> o.next == p.next)
  }

  lemma {:induction false} ItemsEndAlike(x: Bytes, f: int, r: seq<Value>, s: seq<Value>, steps: nat)
    ensures SameEnd(RunItems(x, f, r, steps), RunItems(x, f, s, steps))
    decreases steps
  {
    if steps > 0 {
      var o := RunValue(x, f, steps - 1);
      if o.Ended? {
        ItemsEndAlike(x, o.next, r + [o.value], s + [o.value], steps - 1);
      }
    }
  }

  lemma {:induction false} EntriesEndAlike(x: Bytes, f: int, r: map<Bytes, Value>, s: map<Bytes, Value>, steps: nat)
    ensures SameEnd(RunEntries(x, f, r, steps), RunEntries(x, f, s, steps))
    decreases steps
  {
    hide RunString;
    if steps > 0 {
      var k := RunString(x, f);
      if k.Ended? {
        var o := RunValue(x, k.next, steps - 1);
        if o.Ended? {
          EntriesEndAlike(x, o.next, r[k.value := o.value], s[k.value := o.value], steps - 1);
        }
      }
    }
  }

  /** More steps do not change how a run ended. */
  lemma {:induction false} ValueStays(x: Bytes, f: int, steps: nat, more: nat)
    requires RunValue(x, f, steps) != Running && steps <= more
    ensures RunValue(x, f, more) == RunValue(x, f, steps)
    decreases steps
  {
    hide RunString, RunInt;
    var c := At(x, f);
    if c == Some(LETTER_L) {
      ItemsStay(x, f + 1, [], steps - 1, more - 1);
    } else if c == Some(LETTER_D) {
      EntriesStay(x, f + 1, map[], steps - 1, more - 1);
    }
  }

  lemma {:induction false} ItemsStay(x: Bytes, f: int, r: seq<Value>, steps: nat, more: nat)
    requires RunItems(x, f, r, steps) != Running && steps <= more
    ensures RunItems(x, f, r, more) == RunItems(x, f, r, steps)
    decreases steps
  {
    if At(x, f) != Some(LETTER_E) {
      var o := RunValue(x, f, steps - 1);
      ValueStays(x, f, steps - 1, more - 1);
      if o.Ended? {
        ItemsStay(x, o.next, r + [o.value], steps - 1, more - 1);
      }
    }
  }

  lemma {:induction false} EntriesStay(x: Bytes, f: int, r: map<Bytes, Value>, steps: nat, more: nat)
    requires RunEntries(x, f, r, steps) != Running && steps <= more
    ensures RunEntries(x, f, r, more) == RunEntries(x, f, r, steps)
    decreases steps
  {
    hide RunString;
    if At(x, f) != Some(LETTER_E) {
      var k := RunString(x, f);
      if k.Ended? {
        var o := RunValue(x, k.next, steps - 1);
        ValueStays(x, k.next, steps - 1, more - 1);
        if o.Ended? {
          EntriesStay(x, o.next, r[k.value := o.value], steps - 1, more - 1);
        }
      }
    }
  }

  lemma {:induction false} StaysStopped(x: Bytes, p: Place, steps: nat, more: nat)
    requires Stops(x, p, steps) && steps <= more
    ensures Stops(x, p, more)
  {
    match p
    case AtValue(f) => ValueStays(x, f, steps, more);
    case AtItems(f) => ItemsStay(x, f, [], steps, more);
    case AtEntries(f) => EntriesStay(x, f, map[], steps, more);
  }

  /** One step more stops nothing more. */
  ghost predicate Settled(x: Bytes, n: nat) {
    forall p: Place :: Stops(x, p, n + 1) ==> Stops(x, p, n)
  }

  /** Then no number of steps does. */
  lemma {:induction false} NothingMoreStops(x: Bytes, n: nat, p: Place, steps: nat)
    requires Settled(x, n) && Stops(x, p, steps)
    ensures Stops(x, p, n)
    decreases steps, 0
  {
    if steps <= n {
      StaysStopped(x, p, steps, n);
    } else {
      hide RunString, RunInt;
      StopsOneStepLater(x, n, p, steps - 1);
      assert Stops(x, p, n + 1);
    }
  }

  /** If whatever stops within so many steps does so within `n` steps, then what needs one more does within `n + 1`. */
  lemma {:induction false} StopsOneStepLater(x: Bytes, n: nat, p: Place, steps: nat)
    requires Settled(x, n) && n <= steps && Stops(x, p, steps + 1)
    ensures Stops(x, p, n + 1)
    decreases steps, 1
  {
    hide RunString, RunInt, Settled;
    match p
    case AtValue(f) =>
      var c := At(x, f);
      if c == Some(LETTER_L) {
        NothingMoreStops(x, n, AtItems(f + 1), steps);
      } else if c == Some(LETTER_D) {
        NothingMoreStops(x, n, AtEntries(f + 1), steps);
      }
    case AtItems(f) =>
      if At(x, f) != Some(LETTER_E) {
        var o := RunValue(x, f, steps);
        NothingMoreStops(x, n, AtValue(f), steps);
        ValueStays(x, f, n, steps);
        if o.Ended? {
          ItemsEndAlike(x, o.next, [] + [o.value], [], steps);
          NothingMoreStops(x, n, AtItems(o.next), steps);
          ItemsEndAlike(x, o.next, [] + [o.value], [], n);
        }
      }
    case AtEntries(f) =>
      if At(x, f) != Some(LETTER_E) {
        var k := RunString(x, f);
        if k.Ended? {
          var o := RunValue(x, k.next, steps);
          NothingMoreStops(x, n, AtValue(k.next), steps);
          ValueStays(x, k.next, n, steps);
          if o.Ended? {
            var r := map[k.value := o.value];
            EntriesEndAlike(x, o.next, r, map[], steps);
            NothingMoreStops(x, n, AtEntries(o.next), steps);
            EntriesEndAlike(x, o.next, r, map[], n);
          }
        }
      }
  }

  // Offsets outside of the text are no places of their own, so that there are only so many places.

  function Lowest(x: Bytes): int {
    -|x| - 1
  }

  function Offsets(x: Bytes): nat {
    2 * |x| + 1
  }

  function One(b: bool): nat {
    if b then 1 else 0
  }

  /** How many of the places at the first `i` offsets stop within so many steps. */
  function Stopping(x: Bytes, steps: nat, i: nat): (count: nat)
    ensures count <= 3 * i
  {
    if i == 0 then 0 else
    var f := Lowest(x) + i - 1;
    Stopping(x, steps, i - 1)
    + One(Stops(x, AtValue(f), steps)) + One(Stops(x, AtItems(f), steps)) + One(Stops(x, AtEntries(f), steps))
  }

  function Offset(p: Place): int {
    match p
    case AtValue(f) => f
    case AtItems(f) => f
    case AtEntries(f) => f
  }

  lemma {:induction false} StoppingGrows(x: Bytes, n: nat, i: nat)
    ensures Stopping(x, n, i) <= Stopping(x, n + 1, i)
    ensures Stopping(x, n, i) == Stopping(x, n + 1, i) ==>
              forall p: Place :: Lowest(x) <= Offset(p) < Lowest(x) + i && Stops(x, p, n + 1) ==> Stops(x, p, n)
  {
    hide Stops;
    if i > 0 {
      var f := Lowest(x) + i - 1;
      StoppingGrows(x, n, i - 1);
      GoesOn(x, AtValue(f), n);
      GoesOn(x, AtItems(f), n);
      GoesOn(x, AtEntries(f), n);
      forall p: Place | Offset(p) == f
        ensures p == AtValue(f) || p == AtItems(f) || p == AtEntries(f)
      {}
    }
  }

  lemma {:induction false} GoesOn(x: Bytes, p: Place, n: nat)
    ensures Stops(x, p, n) ==> Stops(x, p, n + 1)
  {
    if Stops(x, p, n) {
      StaysStopped(x, p, n, n + 1);
    }
  }

  /** Outside of the text there is nothing that takes more than two steps, but for a key that is far in front of it. */
  lemma {:induction false} Outside(x: Bytes, p: Place, n: nat)
    requires n >= 2 && !(Lowest(x) <= Offset(p) < Lowest(x) + Offsets(x))
    ensures Stops(x, p, n) || (p.AtEntries? && p.f < Lowest(x))
  {
    hide RunString;
    match p
    case AtValue(f) =>
    case AtItems(f) =>
      assert RunValue(x, f, n - 1) == Raised;
    case AtEntries(f) =>
      if f >= |x| {
        NoKeyBehind(x, f);
      }
  }

  lemma {:induction false} NoKeyBehind(x: Bytes, f: int)
    requires f >= |x|
    ensures RunString(x, f) == Raised && At(x, f) == None
  {
    assert IndexOf(x, COLON, |x|) == None;
  }

  /** Wherever that is, it is read as from the beginning. */
  lemma {:induction false} FarInFront(x: Bytes, f: int, n: nat)
    requires f < Lowest(x)
    ensures Stops(x, AtEntries(f), n) <==> Stops(x, AtEntries(Lowest(x)), n)
  {
    assert RunString(x, f) == RunString(x, Lowest(x)) by {
      var colon := Index(x, COLON, f);
      if colon.Some? {
        assert Slice(x, f, colon.value) == Slice(x, Lowest(x), colon.value);
      }
    }
    hide RunString;
  }

  /** If one step more stops nothing more in the text, it stops nothing more at all. */
  lemma {:induction false} SettledIfCounted(x: Bytes, n: nat)
    requires n >= 2 && Stopping(x, n, Offsets(x)) == Stopping(x, n + 1, Offsets(x))
    ensures Settled(x, n)
  {
    hide Stops;
    StoppingGrows(x, n, Offsets(x));
    forall p: Place | Stops(x, p, n + 1)
      ensures Stops(x, p, n)
    {
      if p.AtEntries? && p.f < Lowest(x) {
        FarInFront(x, p.f, n);
        FarInFront(x, p.f, n + 1);
        assert Offset(AtEntries(Lowest(x))) == Lowest(x);
      } else if !(Lowest(x) <= Offset(p) < Lowest(x) + Offsets(x)) {
        Outside(x, p, n);
      }
    }
  }

  function MostSteps(x: Bytes): nat {
    3 * Offsets(x) + 2
  }

  /** Every step stops something more, or no step does any more. */
  lemma {:induction false} Settles(x: Bytes, from: nat) returns (n: nat)
    requires from >= 2 && Stopping(x, from, Offsets(x)) >= from - 2
    ensures n <= MostSteps(x) && Settled(x, n)
    decreases 3 * Offsets(x) - Stopping(x, from, Offsets(x))
  {
    StoppingGrows(x, from, Offsets(x));
    if Stopping(x, from, Offsets(x)) == Stopping(x, from + 1, Offsets(x)) {
      SettledIfCounted(x, from);
      n := from;
    } else {
      n := Settles(x, from + 1);
    }
  }

  /**
   A decoder that has not ended after six steps for every byte and five more never does, on any text; and how one ends
   does not depend on the steps that it is given.
   */
  lemma {:induction false} EndsSoonOrNever(x: Bytes, f: int, steps: nat)
    ensures RunValue(x, f, steps) != Running ==> RunValue(x, f, MostSteps(x)) == RunValue(x, f, steps)
  {
    if RunValue(x, f, steps) != Running {
      var n := Settles(x, 2);
      assert Stops(x, AtValue(f), steps);
      NothingMoreStops(x, n, AtValue(f), steps);
      ValueStays(x, f, n, MostSteps(x));
      if steps <= MostSteps(x) {
        ValueStays(x, f, steps, MostSteps(x));
      } else {
        ValueStays(x, f, MostSteps(x), steps);
      }
    }
  }
}
