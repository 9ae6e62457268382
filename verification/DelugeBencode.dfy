/**
 Deluge's `bencode.py`: the encoders, which append pieces of text to a shared list, and the recursive decoders, which
 find their way by offsets into the whole text.
 */
module DelugeBencode {
  import opened Bytes
  import opened PythonText

  datatype Value =
    | VInt(n: int)
    | VBytes(content: Bytes)
    | VList(items: seq<Value>)
    | VDict(entries: map<Bytes, Value>)

  // ----- the keys of a dictionary in order

  ghost predicate Increasing(keys: seq<Bytes>) {
    forall i, j :: 0 <= i < j < |keys| ==> Less(keys[i], keys[j])
  }

  /** `key` among keys that are in order. */
  function Insert(key: Bytes, keys: seq<Bytes>): (r: seq<Bytes>)
    ensures forall k :: k in r <==> k == key || k in keys
  {
    if keys == [] || Less(key, keys[0]) then [key] + keys else
    assert keys == [keys[0]] + keys[1..];
    [keys[0]] + Insert(key, keys[1..])
  }

  lemma {:induction false} IncreasingHead(head: Bytes, tail: seq<Bytes>)
    requires Increasing(tail) && forall k :: k in tail ==> Less(head, k)
    ensures Increasing([head] + tail)
  {
    var keys := [head] + tail;
    forall i, j | 0 <= i < j < |keys|
      ensures Less(keys[i], keys[j])
    {
      if i == 0 {
        assert keys[j] in tail;
      } else {
        assert keys[i] == tail[i - 1] && keys[j] == tail[j - 1];
      }
    }
  }

  lemma {:induction false} IncreasingTail(keys: seq<Bytes>)
    requires Increasing(keys) && keys != []
    ensures Increasing(keys[1..]) && forall k :: k in keys[1..] ==> Less(keys[0], k)
  {}

  lemma {:induction false} InsertKeepsOrder(key: Bytes, keys: seq<Bytes>)
    requires Increasing(keys) && key !in keys
    ensures Increasing(Insert(key, keys))
  {
    if keys == [] {
      IncreasingHead(key, keys);
    } else if Less(key, keys[0]) {
      IncreasingTail(keys);
      forall k | k in keys
        ensures Less(key, k)
      {
        if k != keys[0] {
          assert k in keys[1..];
          LessIsTransitive(key, keys[0], k);
        }
      }
      IncreasingHead(key, keys);
    } else {
      IncreasingTail(keys);
      InsertKeepsOrder(key, keys[1..]);
      LessIsTotal(key, keys[0]);
      IncreasingHead(keys[0], Insert(key, keys[1..]));
    }
  }

  ghost function SortedKeys(keys: set<Bytes>): (r: seq<Bytes>)
    ensures Increasing(r) && forall k :: k in r <==> k in keys
  {
    if keys == {} then [] else
    var k :| k in keys;
    var rest := SortedKeys(keys - {k});
    InsertKeepsOrder(k, rest);
    Insert(k, rest)
  }

  lemma {:induction false} SomeElement<T>(s: seq<T>)
    ensures s == [] || exists x :: x in s
  {
    if s != [] {
      assert s[0] in s;
    }
  }

  /** There is but one way to put keys in order. */
  lemma {:induction false} OrderIsUnique(a: seq<Bytes>, b: seq<Bytes>)
    requires Increasing(a) && Increasing(b) && forall k :: k in a <==> k in b
    ensures a == b
  {
    if a == [] {
      SomeElement(b);
    } else {
      assert a[0] in a && a[0] in b;
      assert b[0] in b && b[0] in a;
      IncreasingTail(a);
      IncreasingTail(b);
      assert a == [a[0]] + a[1..] && b == [b[0]] + b[1..];
      LessIsTotal(a[0], b[0]);
      forall k
        ensures k in a[1..] <==> k in b[1..]
      {
        assert k in a <==> k == a[0] || k in a[1..];
        assert k in b <==> k == b[0] || k in b[1..];
        LessIsIrreflexive(k);
      }
      OrderIsUnique(a[1..], b[1..]);
    }
  }

  /** All of those keys, each in front of all later ones. */
  ghost predicate InByteOrder(order: seq<Bytes>, keys: set<Bytes>) {
    && (forall k :: k in order <==> k in keys)
    && forall i, j :: 0 <= i < j < |order| ==> Before(order[i], order[j])
  }

  lemma {:induction false} SortedIff(order: seq<Bytes>, keys: set<Bytes>)
    ensures InByteOrder(order, keys) <==> order == SortedKeys(keys)
  {
    assert Increasing(order) <==> forall i, j :: 0 <= i < j < |order| ==> Before(order[i], order[j]) by {
      forall i, j | 0 <= i < j < |order|
        ensures Less(order[i], order[j]) <==> Before(order[i], order[j])
      {
        LessIff(order[i], order[j]);
      }
    }
    if InByteOrder(order, keys) {
      OrderIsUnique(order, SortedKeys(keys));
    }
  }

  /** `sorted`, for the keys of a dictionary. */
  method Sorted(keys: set<Bytes>) returns (r: seq<Bytes>)
    ensures r == SortedKeys(keys) && InByteOrder(r, keys)
  {
    var rest := keys;
    r := [];
    while rest != {}
      invariant rest <= keys && Increasing(r) && forall k :: k in r <==> k in keys - rest
      decreases |rest|
    {
      var k :| k in rest;
      InsertKeepsOrder(k, r);
      r := Insert(k, r);
      rest := rest - {k};
    }
    OrderIsUnique(r, SortedKeys(keys));
    SortedIff(r, keys);
  }

  // ----- what a value is encoded as

  function IntText(n: int): Bytes {
    if n < 0 then [MINUS] + DigitsOf(-n) else DigitsOf(n)
  }

  function BytesText(content: Bytes): Bytes {
    DigitsOf(|content|) + [COLON] + content
  }

  ghost function Encoding(v: Value): Bytes
    decreases v, 1, 0
  {
    match v
    case VInt(n) => [LETTER_I] + IntText(n) + [LETTER_E]
    case VBytes(content) => BytesText(content)
    case VList(items) => [LETTER_L] + EncodingAll(items) + [LETTER_E]
    case VDict(entries) => [LETTER_D] + EntriesText(v, SortedKeys(entries.Keys)) + [LETTER_E]
  }

  ghost function EncodingAll(items: seq<Value>): Bytes
    decreases items, 0, 0
  {
    if items == [] then [] else Encoding(items[0]) + EncodingAll(items[1..])
  }

  ghost predicate KeysOf(v: Value, keys: seq<Bytes>) {
    v.VDict? && forall i :: 0 <= i < |keys| ==> keys[i] in v.entries
  }

  ghost function EntriesText(v: Value, keys: seq<Bytes>): Bytes
    requires KeysOf(v, keys)
    decreases v, 0, |keys|
  {
    if keys == [] then [] else
    BytesText(keys[0]) + Encoding(v.entries[keys[0]]) + EntriesText(v, keys[1..])
  }

  // ----- the encoders

  lemma {:induction false} JoinThree(a: Bytes, b: Bytes, c: Bytes)
    ensures Join([a, b, c]) == a + b + c
  {
    JoinOne(a);
    assert [a, b, c][..2] == [a, b] && [a, b][..1] == [a];
  }

  /** The list that all encoders append to. */
  class PartList {
    var parts: seq<Bytes>

    constructor ()
      ensures parts == []
    {
      parts := [];
    }

    function Joined(): Bytes
      reads this
    {
      Join(parts)
    }

    method Append(part: Bytes)
      modifies this
      ensures parts == old(parts) + [part] && Joined() == old(Joined()) + part
    {
      JoinConcat(parts, [part]);
      JoinOne(part);
      parts := parts + [part];
    }

    method Extend(a: Bytes, b: Bytes, c: Bytes)
      modifies this
      ensures parts == old(parts) + [a, b, c] && Joined() == old(Joined()) + (a + b + c)
    {
      JoinConcat(parts, [a, b, c]);
      JoinThree(a, b, c);
      parts := parts + [a, b, c];
    }
  }

  method EncodeInt(n: int, r: PartList)
    modifies r
    ensures r.Joined() == old(r.Joined()) + Encoding(VInt(n))
  {
    r.Extend([LETTER_I], IntText(n), [LETTER_E]);
  }

  method EncodeBytes(content: Bytes, r: PartList)
    modifies r
    ensures r.Joined() == old(r.Joined()) + BytesText(content)
  {
    r.Extend(DigitsOf(|content|), [COLON], content);
  }

  lemma {:induction false} Bracketed(before: Bytes, open: Bytes, inner: Bytes, close: Bytes)
    ensures ((before + open) + inner) + close == before + (open + inner + close)
  {}

  lemma {:induction false} TextGoesOn(before: Bytes, head: Bytes, tail: Bytes)
    ensures (before + head) + tail == before + (head + tail)
  {}

  method EncodeList(v: Value, r: PartList)
    requires v.VList?
    modifies r
    ensures r.Joined() == old(r.Joined()) + Encoding(v)
    decreases v, 0
  {
    ghost var before := r.Joined();
    r.Append([LETTER_L]);
    ghost var goal := r.Joined() + EncodingAll(v.items);
    for i := 0 to |v.items|
      invariant r.Joined() + EncodingAll(v.items[i..]) == goal
    {
      ghost var soFar := r.Joined();
      Encode(v.items[i], r);
      assert v.items[i..][1..] == v.items[i + 1..];
      TextGoesOn(soFar, Encoding(v.items[i]), EncodingAll(v.items[i + 1..]));
    }
    assert r.Joined() == goal;
    r.Append([LETTER_E]);
    Bracketed(before, [LETTER_L], EncodingAll(v.items), [LETTER_E]);
  }

  method EncodeDict(v: Value, r: PartList)
    requires v.VDict?
    modifies r
    ensures r.Joined() == old(r.Joined()) + Encoding(v)
    ensures exists keys :: InByteOrder(keys, v.entries.Keys) && KeysOf(v, keys)
              && r.Joined() == old(r.Joined()) + ([LETTER_D] + EntriesText(v, keys) + [LETTER_E])
    decreases v, 0, 1
  {
    hide InByteOrder;
    ghost var before := r.Joined();
    r.Append([LETTER_D]);
    var keys := Sorted(v.entries.Keys);
    EncodeEntries(v, keys, r);
    r.Append([LETTER_E]);
    Bracketed(before, [LETTER_D], EntriesText(v, keys), [LETTER_E]);
  }

  /** The keys and their values, one after the other. */
  method EncodeEntries(v: Value, keys: seq<Bytes>, r: PartList)
    requires KeysOf(v, keys)
    modifies r
    ensures r.Joined() == old(r.Joined()) + EntriesText(v, keys)
    decreases v, 0, 0
  {
    ghost var goal := r.Joined() + EntriesText(v, keys);
    assert keys[0..] == keys;
    for i := 0 to |keys|
      invariant r.Joined() + EntriesText(v, keys[i..]) == goal
    {
      ghost var soFar := r.Joined();
      EncodeBytes(keys[i], r);
      Encode(v.entries[keys[i]], r);
      assert keys[i..][1..] == keys[i + 1..];
      EntryGoesOn(soFar, BytesText(keys[i]), Encoding(v.entries[keys[i]]), EntriesText(v, keys[i + 1..]));
    }
    assert r.Joined() == goal;
  }

  lemma {:induction false} EntryGoesOn(before: Bytes, key: Bytes, value: Bytes, tail: Bytes)
    ensures ((before + key) + value) + tail == before + (key + value + tail)
  {}

  /** `encode_func[type(v)](v, r)`. */
  method Encode(v: Value, r: PartList)
    modifies r
    ensures r.Joined() == old(r.Joined()) + Encoding(v)
    decreases v, 1
  {
    match v
    case VInt(n) => EncodeInt(n, r);
    case VBytes(content) => EncodeBytes(content, r);
    case VList(_) => EncodeList(v, r);
    case VDict(_) => EncodeDict(v, r);
  }

  method Bencode(v: Value) returns (text: Bytes)
    ensures text == Encoding(v)
  {
    var r := new PartList();
    Encode(v, r);
    text := r.Joined();
  }

  // ----- the decoders

  function IndexOf(x: Bytes, c: Byte, from: nat): (i: Option<nat>)
    ensures i.Some? ==> from <= i.value < |x| && x[i.value] == c && forall j :: from <= j < i.value ==> x[j] != c
    ensures i.None? ==> forall j :: from <= j < |x| ==> x[j] != c
    decreases |x| - from
  {
    if from >= |x| then None
    else if x[from] == c then Some(from)
    else IndexOf(x, c, from + 1)
  }

  /**
   A value and the offset behind it, or an exception that `bdecode` turns into a `BTFailure`; or decoding would go on at
   a place that is not behind the one where it began, because the length of a key is negative.
   */
  datatype Outcome<T> = Decoded(value: T, next: nat) | Failed | Backward

  function DecodeInt(x: Bytes, f: nat): (o: Outcome<Value>)
    ensures o.Decoded? ==> f < o.next
  {
    match IndexOf(x, LETTER_E, f + 1)
    case None => Failed
    case Some(end) =>
      IntUpTo(x, f, end, PyInt(x[f + 1..end]))
  }

  /** `decode_int`, once `int` has been called for what is in front of `end`. */
  function IntUpTo(x: Bytes, f: nat, end: nat, number: Numeral): (o: Outcome<Value>)
    requires f < end < |x| && (number.Number? ==> f + 1 < end)
    ensures o.Decoded? ==> f < o.next
  {
    if number.NoNumber? then Failed
    else if x[f + 1] == MINUS && x[f + 2] == DIGIT_0 then Failed
    else if x[f + 1] == DIGIT_0 && end != f + 2 then Failed
    else Decoded(VInt(number.n), end + 1)
  }

  function DecodeString(x: Bytes, f: nat): (o: Outcome<Bytes>)
    ensures o.Decoded? ==> f < o.next
  {
    match IndexOf(x, COLON, f)
    case None => Failed
    case Some(colon) =>
      StringUpTo(x, f, colon, PyInt(x[f..colon]))
  }

  /** `decode_string`, once `int` has been called for what is in front of the colon. */
  function StringUpTo(x: Bytes, f: nat, colon: nat, length: Numeral): (o: Outcome<Bytes>)
    requires f <= colon < |x| && (length.Number? ==> f < colon)
    ensures o.Decoded? ==> f < o.next
  {
    if length.NoNumber? then Failed
    else if x[f] == DIGIT_0 && colon != f + 1 then Failed
    // only in place of a key
    else if colon + 1 + length.n <= f then Backward
    else if length.n < 0 then Decoded([], colon + 1 + length.n)
    // a slice stops where the text does, the offset goes on behind it
    else Decoded(x[colon + 1..Bound(x, colon + 1 + length.n)], colon + 1 + length.n)
  }

  function Left(x: Bytes, f: nat): nat {
    if f < |x| then |x| - f else 0
  }

  /** `decode_func[x[f:f + 1]](x, f)`. */
  function Decode(x: Bytes, f: nat): (o: Outcome<Value>)
    ensures o.Decoded? ==> f < o.next
    decreases Left(x, f), 0
  {
    if f >= |x| then Failed
    else if x[f] == LETTER_I then DecodeInt(x, f)
    else if x[f] == LETTER_L then DecodeItems(x, f + 1, [])
    else if x[f] == LETTER_D then DecodeEntries(x, f + 1, map[])
    else if Numeric(x[f]) then
      match DecodeString(x, f)
      case Decoded(content, next) => Decoded(VBytes(content), next)
      case Failed => Failed
      case Backward => Backward
    else Failed
  }

  /** The rest of a list, from `f` on, of which `r` was decoded. */
  function DecodeItems(x: Bytes, f: nat, r: seq<Value>): (o: Outcome<Value>)
    ensures o.Decoded? ==> f < o.next
    decreases Left(x, f), 1
  {
    if f < |x| && x[f] == LETTER_E then Decoded(VList(r), f + 1) else
    match Decode(x, f)
    case Decoded(v, next) => DecodeItems(x, next, r + [v])
    case o => o
  }

  /** The rest of a dictionary, from `f` on, of which `r` was decoded. */
  function DecodeEntries(x: Bytes, f: nat, r: map<Bytes, Value>): (o: Outcome<Value>)
    ensures o.Decoded? ==> f < o.next
    decreases Left(x, f), 1
  {
    if f < |x| && x[f] == LETTER_E then Decoded(VDict(r), f + 1) else
    match DecodeString(x, f)
    case Failed => Failed
    case Backward => Backward
    case Decoded(k, g) =>
      match Decode(x, g)
      case Decoded(v, next) => DecodeEntries(x, next, r[k := v])
      case o => o
  }

  method ReadList(x: Bytes, from: nat) returns (o: Outcome<Value>)
    requires from < |x|
    ensures o == DecodeItems(x, from + 1, [])
    decreases Left(x, from), 0
  {
    var r, f := [], from + 1;
    while !(f < |x| && x[f] == LETTER_E)
      invariant from < f
      invariant DecodeItems(x, f, r) == DecodeItems(x, from + 1, [])
      decreases Left(x, f)
    {
      var v := Read(x, f);
      if !v.Decoded? {
        return v;
      }
      r, f := r + [v.value], v.next;
    }
    o := Decoded(VList(r), f + 1);
  }

  method ReadDict(x: Bytes, from: nat) returns (o: Outcome<Value>)
    requires from < |x|
    ensures o == DecodeEntries(x, from + 1, map[])
    decreases Left(x, from), 0
  {
    var r, f := map[], from + 1;
    while !(f < |x| && x[f] == LETTER_E)
      invariant from < f
      invariant DecodeEntries(x, f, r) == DecodeEntries(x, from + 1, map[])
      decreases Left(x, f)
    {
      var k := DecodeString(x, f);
      if !k.Decoded? {
        return if k.Failed? then Failed else Backward;
      }
      var v := Read(x, k.next);
      if !v.Decoded? {
        return v;
      }
      r, f := r[k.value := v.value], v.next;
    }
    o := Decoded(VDict(r), f + 1);
  }

  method Read(x: Bytes, f: nat) returns (o: Outcome<Value>)
    ensures o == Decode(x, f)
    decreases Left(x, f), 1
  {
    if f >= |x| {
      o := Failed;
    } else if x[f] == LETTER_I {
      o := DecodeInt(x, f);
    } else if x[f] == LETTER_L {
      o := ReadList(x, f);
    } else if x[f] == LETTER_D {
      o := ReadDict(x, f);
    } else if Numeric(x[f]) {
      var s := DecodeString(x, f);
      o := match s
        case Decoded(content, next) => Decoded(VBytes(content), next)
        case Failed => Failed
        case Backward => Backward;
    } else {
      o := Failed;
    }
  }

  /** `bdecode`: what follows the value is not looked at. */
  method Bdecode(x: Bytes) returns (o: Outcome<Value>)
    ensures o == Decode(x, 0)
  {
    o := Read(x, 0);
  }

  // ----- decoding undoes encoding, wherever the text stands

  lemma {:induction false} IndexIs(x: Bytes, c: Byte, from: nat, i: nat)
    requires from <= i < |x| && x[i] == c && forall j :: from <= j < i ==> x[j] != c
    ensures IndexOf(x, c, from) == Some(i)
    decreases i - from
  {}

  lemma {:induction false} PyIntOf(n: int)
    ensures PyInt(IntText(n)) == Number(n)
    ensures forall i :: 0 <= i < |IntText(n)| ==> IntText(n)[i] != LETTER_E
    ensures IntText(n) != [] && (IntText(n)[0] == DIGIT_0 ==> |IntText(n)| == 1)
    ensures IntText(n)[0] == MINUS ==> |IntText(n)| > 1 && IntText(n)[1] != DIGIT_0
  {
    var magnitude: nat := if n < 0 then -n else n;
    DecimalOfDigits(magnitude);
    FirstDigit(magnitude);
    if n < 0 {
      assert IntText(n)[1..] == DigitsOf(magnitude);
    }
    PlainIsRead(IntText(n));
  }

  lemma {:induction false} IntParts(x: Bytes, f: nat, n: int) returns (text: Bytes, end: nat)
    requires LaidOut(x, f, Encoding(VInt(n)))
    ensures text == IntText(n) && end == f + 1 + |text| < |x| && x[end] == LETTER_E && |Encoding(VInt(n))| == |text| + 2
    ensures x[f + 1..end] == text && forall j :: f + 1 <= j < end ==> x[j] == text[j - f - 1]
  {
    text := IntText(n);
    end := f + 1 + |text|;
    BracketedText(x, f, LETTER_I, text);
    LaidOutParts(x, f + 1, text, [LETTER_E]);
    LaidOutHead(x, end, [LETTER_E]);
    TextAt(x, f + 1, text);
  }

  lemma {:induction false} IntDecoded(x: Bytes, f: nat, n: int)
    requires LaidOut(x, f, Encoding(VInt(n)))
    ensures DecodeInt(x, f) == Decoded(VInt(n), f + |Encoding(VInt(n))|)
  {
    var text, end := IntParts(x, f, n);
    PyIntOf(n);
    IndexIs(x, LETTER_E, f + 1, end);
    NumberRead(x, f, end, Number(n));
  }

  lemma {:induction false} NumberRead(x: Bytes, f: nat, end: nat, number: Numeral)
    requires IndexOf(x, LETTER_E, f + 1) == Some(end) && f < end < |x| && PyInt(x[f + 1..end]) == number
    ensures number.Number? ==> f + 1 < end
    ensures DecodeInt(x, f) == IntUpTo(x, f, end, number)
  {}

  lemma {:induction false} TextAt(x: Bytes, f: nat, text: Bytes)
    requires LaidOut(x, f, text)
    ensures forall j :: f <= j < f + |text| ==> x[j] == text[j - f]
  {
    forall j | f <= j < f + |text|
      ensures x[j] == text[j - f]
    {
      assert x[j] == x[f..f + |text|][j - f];
    }
  }

  lemma {:induction false} StringDecoded(x: Bytes, f: nat, content: Bytes)
    requires LaidOut(x, f, BytesText(content))
    ensures f < |x| && Numeric(x[f])
    ensures DecodeString(x, f) == Decoded(content, f + |BytesText(content)|)
  {
    hide LaidOut, AllDigits;
    var digits := DigitsOf(|content|);
    var colon := f + |digits|;
    StringParts(x, f, digits, content);
    IndexIs(x, COLON, f, colon);
    SizeRead(x, f, colon, |content|);
  }

  lemma {:induction false} StringParts(x: Bytes, f: nat, digits: Bytes, content: Bytes)
    requires LaidOut(x, f, digits + [COLON] + content) && digits != [] && AllDigits(digits)
    ensures var colon := f + |digits|;
      && colon + 1 + |content| <= |x| && x[f..colon] == digits && x[f] == digits[0] && x[colon] == COLON
      && (forall j :: f <= j < colon ==> x[j] != COLON) && Numeric(x[f])
      && x[colon + 1..colon + 1 + |content|] == content
  {
    LaidOutParts(x, f, digits + [COLON], content);
    LaidOutParts(x, f, digits, [COLON]);
    LaidOutHead(x, f + |digits|, [COLON]);
    TextAt(x, f, digits);
  }

  lemma {:induction false} LengthRead(x: Bytes, f: nat, colon: nat, length: Numeral)
    requires IndexOf(x, COLON, f) == Some(colon) && f <= colon < |x| && PyInt(x[f..colon]) == length
    ensures length.Number? ==> f < colon
    ensures DecodeString(x, f) == StringUpTo(x, f, colon, length)
  {}

  lemma {:induction false} SizeRead(x: Bytes, f: nat, colon: nat, n: nat)
    requires IndexOf(x, COLON, f) == Some(colon) && f <= colon < |x| && x[f..colon] == DigitsOf(n)
    requires x[f] == DigitsOf(n)[0]
    ensures DecodeString(x, f) == Decoded(x[colon + 1..Bound(x, colon + 1 + n)], colon + 1 + n)
  {
    hide PyInt, DecodeString, IndexOf;
    PyIntOf(n);
    LengthRead(x, f, colon, Number(n));
  }

  /** Decoding where the text of a value stands gives that value, and ends where its text does. */
  lemma {:induction false} ValueDecoded(x: Bytes, f: nat, v: Value)
    requires LaidOut(x, f, Encoding(v))
    ensures Decode(x, f) == Decoded(v, f + |Encoding(v)|)
    decreases v, 1, 1
  {
    match v
    case VInt(n) =>
      IntDecoded(x, f, n);
      LaidOutHead(x, f, Encoding(v));
    case VBytes(content) =>
      StringDecoded(x, f, content);
    case VList(items) =>
      ListDecoded(x, f, items);
    case VDict(entries) =>
      DictDecoded(x, f, v);
  }

  lemma {:induction false} ListDecoded(x: Bytes, f: nat, items: seq<Value>)
    requires LaidOut(x, f, [LETTER_L] + EncodingAll(items) + [LETTER_E])
    ensures Decode(x, f) == Decoded(VList(items), f + |EncodingAll(items)| + 2)
    decreases items, 1, 0
  {
    BracketedText(x, f, LETTER_L, EncodingAll(items));
    ItemsDecoded(x, f + 1, [], items);
    assert [] + items == items;
  }

  lemma {:induction false} DictDecoded(x: Bytes, f: nat, v: Value)
    requires v.VDict?
    requires LaidOut(x, f, [LETTER_D] + EntriesText(v, SortedKeys(v.entries.Keys)) + [LETTER_E])
    ensures Decode(x, f) == Decoded(v, f + |EntriesText(v, SortedKeys(v.entries.Keys))| + 2)
    decreases v, 1, 0
  {
    hide LaidOut, Decode, DecodeEntries;
    var keys := SortedKeys(v.entries.Keys);
    BracketedText(x, f, LETTER_D, EntriesText(v, keys));
    EntriesDecoded(x, f + 1, map[], v, keys);
    AllGathered(v, keys);
    DictBegins(x, f);
  }

  lemma {:induction false} DictBegins(x: Bytes, f: nat)
    requires f < |x| && x[f] == LETTER_D
    ensures Decode(x, f) == DecodeEntries(x, f + 1, map[])
  {}

  lemma {:induction false} AllGathered(v: Value, keys: seq<Bytes>)
    requires KeysOf(v, keys) && forall k :: k in keys <==> k in v.entries
    ensures Gathered(v, keys, map[]) == v.entries
  {
    GatheredIs(v, keys, map[]);
  }

  lemma {:induction false} BracketedText(x: Bytes, f: nat, open: Byte, inner: Bytes)
    requires LaidOut(x, f, [open] + inner + [LETTER_E])
    ensures f < |x| && x[f] == open && LaidOut(x, f + 1, inner + [LETTER_E])
  {
    ConcatAssociative([open], inner, [LETTER_E]);
    LaidOutParts(x, f, [open], inner + [LETTER_E]);
    LaidOutHead(x, f, [open]);
  }

  lemma {:induction false} FirstOf(v: Value)
    ensures Encoding(v) != [] && Encoding(v)[0] != LETTER_E
  {
    if v.VBytes? {
      assert Encoding(v)[0] == DigitsOf(|v.content|)[0];
    }
  }

  lemma {:induction false} ItemsDecoded(x: Bytes, f: nat, done: seq<Value>, rest: seq<Value>)
    requires LaidOut(x, f, EncodingAll(rest) + [LETTER_E])
    ensures DecodeItems(x, f, done) == Decoded(VList(done + rest), f + |EncodingAll(rest)| + 1)
    decreases rest, 0, 0
  {
    if rest == [] {
      LaidOutHead(x, f, EncodingAll(rest) + [LETTER_E]);
      assert done + rest == done;
    } else {
      var v, next, tail := ItemTexts(x, f, rest);
      ValueDecoded(x, f, v);
      NextItem(x, f, done, v, next);
      ItemsDecoded(x, next, done + [v], tail);
      HeadMoves(done, rest);
    }
  }

  /** The first item, and what follows at `next`. */
  lemma {:induction false} ItemTexts(x: Bytes, f: nat, rest: seq<Value>)
    returns (v: Value, next: nat, tail: seq<Value>)
    requires rest != [] && LaidOut(x, f, EncodingAll(rest) + [LETTER_E])
    ensures v == rest[0] && tail == rest[1..] && next == f + |Encoding(v)| && f < |x| && x[f] != LETTER_E
    ensures LaidOut(x, f, Encoding(v)) && LaidOut(x, next, EncodingAll(tail) + [LETTER_E])
    ensures f + |EncodingAll(rest)| == next + |EncodingAll(tail)|
  {
    v, tail := rest[0], rest[1..];
    next := f + |Encoding(v)|;
    FirstOf(v);
    ConcatAssociative(Encoding(v), EncodingAll(tail), [LETTER_E]);
    LaidOutParts(x, f, Encoding(v), EncodingAll(tail) + [LETTER_E]);
    LaidOutHead(x, f, Encoding(v));
  }

  lemma {:induction false} HeadMoves<T>(done: seq<T>, rest: seq<T>)
    requires rest != []
    ensures done + [rest[0]] + rest[1..] == done + rest
  {}

  lemma {:induction false} NextItem(x: Bytes, f: nat, done: seq<Value>, v: Value, next: nat)
    requires f < |x| && x[f] != LETTER_E && Decode(x, f) == Decoded(v, next)
    ensures DecodeItems(x, f, done) == DecodeItems(x, next, done + [v])
  {}

  /** The dictionary that decoding the entries with those keys makes of `done`. */
  ghost function Gathered(v: Value, keys: seq<Bytes>, done: map<Bytes, Value>): map<Bytes, Value>
    requires KeysOf(v, keys)
    decreases keys
  {
    if keys == [] then done else Gathered(v, keys[1..], done[keys[0] := v.entries[keys[0]]])
  }

  lemma {:induction false} GatheredIs(v: Value, keys: seq<Bytes>, done: map<Bytes, Value>)
    requires KeysOf(v, keys)
    ensures forall k :: k in Gathered(v, keys, done) <==> k in done || k in keys
    ensures forall k :: k in keys ==> k in v.entries
    ensures forall k :: k in Gathered(v, keys, done) && k in keys ==> Gathered(v, keys, done)[k] == v.entries[k]
    ensures forall k :: k in done && k !in keys ==> Gathered(v, keys, done)[k] == done[k]
    decreases keys
  {
    if keys != [] {
      GatheredIs(v, keys[1..], done[keys[0] := v.entries[keys[0]]]);
      assert keys == [keys[0]] + keys[1..];
    }
  }

  lemma {:induction false} EntriesDecoded(x: Bytes, f: nat, done: map<Bytes, Value>, v: Value, keys: seq<Bytes>)
    requires KeysOf(v, keys) && LaidOut(x, f, EntriesText(v, keys) + [LETTER_E])
    ensures DecodeEntries(x, f, done) == Decoded(VDict(Gathered(v, keys, done)), f + |EntriesText(v, keys)| + 1)
    decreases v, 0, |keys|
  {
    if keys == [] {
      LaidOutHead(x, f, EntriesText(v, keys) + [LETTER_E]);
    } else {
      var k, value, g, next, rest := EntryTexts(x, f, done, v, keys);
      StringDecoded(x, f, k);
      ValueDecoded(x, g, value);
      NextEntry(x, f, done, k, g, value, next);
      EntriesDecoded(x, next, done[k := value], v, rest);
    }
  }

  /** The first entry: its key, its value and where that starts, and what follows at `next`. */
  lemma {:induction false} EntryTexts(x: Bytes, f: nat, done: map<Bytes, Value>, v: Value, keys: seq<Bytes>)
    returns (k: Bytes, value: Value, g: nat, next: nat, rest: seq<Bytes>)
    requires KeysOf(v, keys) && keys != [] && LaidOut(x, f, EntriesText(v, keys) + [LETTER_E])
    ensures k == keys[0] && k in v.entries && value == v.entries[k] && rest == keys[1..] && KeysOf(v, rest)
    ensures g == f + |BytesText(k)| && next == g + |Encoding(value)|
    ensures f < |x| && x[f] != LETTER_E
    ensures LaidOut(x, f, BytesText(k)) && LaidOut(x, g, Encoding(value))
      && LaidOut(x, next, EntriesText(v, rest) + [LETTER_E])
    ensures f + |EntriesText(v, keys)| == next + |EntriesText(v, rest)|
    ensures Gathered(v, keys, done) == Gathered(v, rest, done[k := value])
  {
    hide LaidOut;
    k, value, rest := keys[0], v.entries[keys[0]], keys[1..];
    g := f + |BytesText(k)|;
    next := g + |Encoding(value)|;
    EntryParts(x, f, BytesText(k), Encoding(value), EntriesText(v, rest));
    BytesTextHead(k);
    LaidOutHead(x, f, BytesText(k));
  }

  lemma {:induction false} NextEntry(x: Bytes, f: nat, done: map<Bytes, Value>, k: Bytes, g: nat, v: Value, next: nat)
    requires f < |x| && x[f] != LETTER_E && DecodeString(x, f) == Decoded(k, g) && Decode(x, g) == Decoded(v, next)
    ensures DecodeEntries(x, f, done) == DecodeEntries(x, next, done[k := v])
  {}

  lemma {:induction false} EntryParts(x: Bytes, f: nat, key: Bytes, head: Bytes, tail: Bytes)
    requires LaidOut(x, f, (key + head + tail) + [LETTER_E])
    ensures LaidOut(x, f, key) && LaidOut(x, f + |key|, head) && LaidOut(x, f + |key| + |head|, tail + [LETTER_E])
  {
    ConcatAssociative(key + head, tail, [LETTER_E]);
    LaidOutParts(x, f, key + head, tail + [LETTER_E]);
    LaidOutParts(x, f, key, head);
  }

  /** Round trip in context: what stands in front of an encoded value and behind it does not matter. */
  lemma {:induction false} RoundTripInContext(p: Bytes, v: Value, s: Bytes)
    ensures Decode(p + Encoding(v) + s, |p|) == Decoded(v, |p| + |Encoding(v)|)
  {
    var x := p + Encoding(v) + s;
    assert x[|p|..|p| + |Encoding(v)|] == Encoding(v);
    ValueDecoded(x, |p|, v);
  }

  /** `bdecode(bencode(v)) == v`, and nothing is left over. */
  lemma {:induction false} RoundTrip(v: Value)
    ensures Decode(Encoding(v), 0) == Decoded(v, |Encoding(v)|)
  {
    RoundTripInContext([], v, []);
    assert [] + Encoding(v) + [] == Encoding(v);
  }

  /** No text begins with the encodings of two values: the encoding is injective, and none is a prefix of another. */
  lemma {:induction false} PrefixFree(v: Value, w: Value, text: Bytes)
    requires Encoding(v) <= text && Encoding(w) <= text
    ensures v == w
  {
    assert text[0..|Encoding(v)|] == Encoding(v) && text[0..|Encoding(w)|] == Encoding(w);
    ValueDecoded(text, 0, v);
    ValueDecoded(text, 0, w);
  }

  // ----- which integers and strings the decoders take besides encoded ones

  lemma {:induction false} EncodedNumbers(s: Bytes, n: int)
    requires s != [] && PyInt(s) == Number(n)
    requires (s[0] == DIGIT_0 ==> |s| == 1) && (s[0] == MINUS && |s| > 1 ==> s[1] != DIGIT_0)
    ensures s == IntText(n) <==> Plain(s)
  {
    if Plain(s) {
      var digits := if s[0] == MINUS then s[1..] else s;
      PlainIsRead(s);
      DigitsOfDecimal(digits);
      if s[0] == MINUS {
        assert digits[0] == s[1];
        assert s == [MINUS] + digits;
      }
    } else {
      IntTextIsPlain(n);
    }
  }

  lemma {:induction false} IntTextIsPlain(n: int)
    ensures Plain(IntText(n))
  {
    FirstDigit(if n < 0 then -n else n);
    if n < 0 {
      assert IntText(n)[1..] == DigitsOf(-n);
    }
  }

  /** An integer that is decoded is an encoded one exactly if there are only digits, and a minus sign perhaps. */
  lemma {:induction false} OnlyEncodedInts(x: Bytes, f: nat)
    requires f < |x| && x[f] == LETTER_I && DecodeInt(x, f).Decoded?
    ensures var text, end := Encoding(DecodeInt(x, f).value), IndexOf(x, LETTER_E, f + 1).value;
      LaidOut(x, f, text) && DecodeInt(x, f).next == f + |text| <==> Plain(x[f + 1..end])
  {
    var end, s, n := IntRead(x, f);
    EncodedNumbers(s, n);
    IntLaidOut(x, f, end, IntText(n));
  }

  /** What `decode_int` has read: a number `s` in front of the `e`. */
  lemma {:induction false} IntRead(x: Bytes, f: nat) returns (end: nat, s: Bytes, n: int)
    requires f < |x| && DecodeInt(x, f).Decoded?
    ensures IndexOf(x, LETTER_E, f + 1) == Some(end) && f + 1 < end < |x| && x[end] == LETTER_E
    ensures s == x[f + 1..end] && PyInt(s) == Number(n) && DecodeInt(x, f) == Decoded(VInt(n), end + 1)
    ensures (s[0] == DIGIT_0 ==> |s| == 1) && (s[0] == MINUS && |s| > 1 ==> s[1] != DIGIT_0)
  {
    end := IndexOf(x, LETTER_E, f + 1).value;
    s := x[f + 1..end];
    var number := PyInt(s);
    NumberRead(x, f, end, number);
    n := number.n;
    SliceOfSlice(x, f + 1, |s|, 0, |s|);
    SliceOfSlice(x, f + 1, |s|, 1, |s|);
  }

  lemma {:induction false} IntLaidOut(x: Bytes, f: nat, end: nat, text: Bytes)
    requires f < end < |x| && x[f] == LETTER_I && x[end] == LETTER_E
    ensures var whole := [LETTER_I] + text + [LETTER_E];
      LaidOut(x, f, whole) && end + 1 == f + |whole| <==> x[f + 1..end] == text
  {
    var whole := [LETTER_I] + text + [LETTER_E];
    SliceAround(x, f, end);
    if LaidOut(x, f, whole) && end + 1 == f + |whole| {
      assert x[f..end + 1][1..end - f] == x[f + 1..end];
      assert whole[1..|whole| - 1] == text;
    }
  }

  /**
   A string that is decoded is an encoded one exactly if there are only digits in front of the colon, and all of it is
   there.
   */
  lemma {:induction false} OnlyEncodedStrings(x: Bytes, f: nat)
    requires f < |x| && DecodeString(x, f).Decoded?
    ensures var o, colon := DecodeString(x, f), IndexOf(x, COLON, f).value;
      LaidOut(x, f, BytesText(o.value)) && o.next == f + |BytesText(o.value)| <==>
      AllDigits(x[f..colon]) && o.next <= |x|
  {
    hide LaidOut, DecodeString, PyInt;
    var colon, s, n, content := StringRead(x, f);
    if AllDigits(s) && colon + 1 + n <= |x| {
      EncodedNumbers(s, n);
      PlainIsRead(s);
      StringTextIs(x, f, colon, content);
    } else if LaidOut(x, f, BytesText(content)) && colon + 1 + n == f + |BytesText(content)| {
      EncodedText(x, f, content);
    }
  }

  /** Texts that are decoded though nothing is encoded as them: the key `-0:`, and ` 1:a`, `1_0:` and `i+5e`. */
  lemma {:induction false} NotEncodedButDecoded(ten: Bytes)
    requires |ten| == 10
    ensures DecodeString([45, 48, 58], 0) == Decoded([], 3)
    ensures DecodeString([32, 49, 58, 97], 0) == Decoded([97], 4)
    ensures Decode([49, 95, 48, 58] + ten, 0) == Decoded(VBytes(ten), 14)
    ensures Decode([105, 43, 53, 101], 0) == Decoded(VInt(5), 4)
  {
    MinusZeroKey();
    BlankInFront();
    UnderscoreInside(ten);
    PlusInFront();
  }

  lemma {:induction false} MinusZeroKey()
    ensures DecodeString([MINUS, DIGIT_0, COLON], 0) == Decoded([], 3)
  {
    var x: Bytes := [MINUS, DIGIT_0, COLON];
    IndexIs(x, COLON, 0, 2);
    assert x[0..2] == [MINUS, DIGIT_0] && [MINUS, DIGIT_0][1..] == [DIGIT_0];
    PlainIsRead(x[0..2]);
    DecimalOfOne(DIGIT_0);
    LengthRead(x, 0, 2, Number(0));
    assert x[3..3] == [];
  }

  lemma {:induction false} BlankInFront()
    ensures DecodeString([32, 49, COLON, 97], 0) == Decoded([97], 4)
  {
    var x: Bytes := [32, 49, COLON, 97];
    IndexIs(x, COLON, 0, 2);
    WhiteSpaceAround([32], [49], []);
    PlainIsRead([49]);
    DecimalOfOne(49);
    assert x[0..2] == [32] + [49] + [] && x[3..4] == [97];
    LengthRead(x, 0, 2, Number(1));
  }

  lemma {:induction false} UnderscoreInside(ten: Bytes)
    requires |ten| == 10
    ensures Decode([49, UNDERSCORE, DIGIT_0, COLON] + ten, 0) == Decoded(VBytes(ten), 14)
  {
    var x: Bytes := [49, UNDERSCORE, DIGIT_0, COLON] + ten;
    IndexIs(x, COLON, 0, 3);
    assert x[0..3] == [49, UNDERSCORE, DIGIT_0];
    TenWithUnderscore();
    LengthRead(x, 0, 3, Number(10));
    assert x[4..14] == ten;
  }

  lemma {:induction false} TenWithUnderscore()
    ensures PyInt([49, UNDERSCORE, DIGIT_0]) == Number(10)
  {
    var s: Bytes := [49, UNDERSCORE, DIGIT_0];
    assert s[..1] == [49] && s[..2] == [49, UNDERSCORE];
    assert Grouped([49]) && !Grouped([49, UNDERSCORE]) && Grouped(s);
    assert Ungrouped(s) == Ungrouped([49]) + [DIGIT_0] == [49, DIGIT_0];
    assert Stripped(s) == s;
    DecimalOfTen();
  }

  lemma {:induction false} DecimalOfTen()
    ensures Decimal([49, DIGIT_0]) == 10
  {
    DecimalOfOne(49);
    DigitsGrow(0, [49, DIGIT_0], 0, 1);
    assert [49, DIGIT_0][0..1] == [49] && [49, DIGIT_0][0..2] == [49, DIGIT_0];
  }

  lemma {:induction false} FiveWithPlus()
    ensures PyInt([PLUS, 53]) == Number(5)
  {
    assert Stripped([PLUS, 53]) == [PLUS, 53] && [PLUS, 53][1..] == [53];
    UngroupedDigits([53]);
    DecimalOfOne(53);
  }

  lemma {:induction false} PlusInFront()
    ensures Decode([LETTER_I, PLUS, 53, LETTER_E], 0) == Decoded(VInt(5), 4)
  {
    var x: Bytes := [LETTER_I, PLUS, 53, LETTER_E];
    IndexIs(x, LETTER_E, 1, 3);
    assert x[1..3] == [PLUS, 53];
    FiveWithPlus();
    NumberRead(x, 0, 3, Number(5));
    assert Decode(x, 0) == DecodeInt(x, 0) == IntUpTo(x, 0, 3, Number(5));
  }

  lemma {:induction false} EncodedText(x: Bytes, f: nat, content: Bytes)
    requires LaidOut(x, f, BytesText(content))
    ensures f + |DigitsOf(|content|)| < |x| && f + |BytesText(content)| <= |x|
    ensures IndexOf(x, COLON, f) == Some(f + |DigitsOf(|content|)|)
    ensures x[f..f + |DigitsOf(|content|)|] == DigitsOf(|content|)
  {
    var digits := DigitsOf(|content|);
    StringParts(x, f, digits, content);
    IndexIs(x, COLON, f, f + |digits|);
  }

  /** What `decode_string` has read: a number `s` in front of the colon, and the string. */
  lemma {:induction false} StringRead(x: Bytes, f: nat) returns (colon: nat, s: Bytes, n: int, content: Bytes)
    requires f < |x| && DecodeString(x, f).Decoded?
    ensures content == DecodeString(x, f).value && DecodeString(x, f).next == colon + 1 + n
    ensures IndexOf(x, COLON, f) == Some(colon) && f < colon < |x| && x[colon] == COLON
    ensures s == x[f..colon] && s[0] == x[f] && PyInt(s) == Number(n) && (s[0] == DIGIT_0 ==> |s| == 1)
    ensures n >= 0 && colon + 1 + n <= |x| ==> |content| == n && x[colon + 1..colon + 1 + n] == content
  {
    colon := IndexOf(x, COLON, f).value;
    s, content := x[f..colon], DecodeString(x, f).value;
    var length := PyInt(s);
    LengthRead(x, f, colon, length);
    n := length.n;
    SliceOfSlice(x, f, |s|, 0, |s|);
  }

  lemma {:induction false} BytesTextHead(content: Bytes)
    ensures BytesText(content) != [] && Numeric(BytesText(content)[0])
  {
    assert BytesText(content)[0] == DigitsOf(|content|)[0];
  }

  lemma {:induction false} StringTextIs(x: Bytes, f: nat, colon: nat, content: Bytes)
    requires f < colon && colon + 1 + |content| <= |x| && x[colon] == COLON
    requires x[f..colon] == DigitsOf(|content|) && x[colon + 1..colon + 1 + |content|] == content
    ensures LaidOut(x, f, BytesText(content)) && |BytesText(content)| == colon + 1 + |content| - f
  {
    assert x[f..colon + 1 + |content|] == x[f..colon] + [COLON] + content;
  }
}
