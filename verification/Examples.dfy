/** What the programs do with a few texts, most of which their own tests use; written out byte by byte. */
module Examples {
  import opened Bytes
  import opened BencodeGrammar
  import opened BdecodeScan
  import opened BdecodeReading
  import opened Bdecode
  import opened DelugeBencode
  import Transfer

  /** The bytes of a text in ASCII. */
  function Text(s: string): (b: Bytes)
    ensures |b| == |s| && forall i :: 0 <= i < |s| ==> b[i] == s[i] as int % 256
  {
    seq(|s|, i requires 0 <= i < |s| => s[i] as int % 256)
  }

  // ----- Deluge's encoder

  lemma {:induction false} Digit(n: nat)
    requires n < 10
    ensures IntText(n) == DigitsOf(n) == [48 + n]
  {}

  lemma {:induction false} DictText(v: Value, keys: seq<Bytes>)
    requires v.VDict? && InByteOrder(keys, v.entries.Keys)
    ensures KeysOf(v, keys) && Encoding(v) == [LETTER_D] + EntriesText(v, keys) + [LETTER_E]
  {
    SortedIff(keys, v.entries.Keys);
  }

  lemma {:induction false} OneEntryText(v: Value, key: Byte, n: nat, keys: seq<Bytes>)
    requires KeysOf(v, [[key]] + keys) && KeysOf(v, keys) && n < 10
    requires [key] in v.entries && v.entries[[key]] == VInt(n)
    ensures EntriesText(v, [[key]] + keys) == [49, 58, key, 105, 48 + n, 101] + EntriesText(v, keys)
  {
    Digit(1);
    Digit(n);
    assert ([[key]] + keys)[1..] == keys;
  }

  lemma {:induction false} DictExample()
    ensures var v := VDict(map[Text("b") := VInt(2), Text("a") := VInt(1)]); Encoding(v) == Text("d1:ai1e1:bi2ee")
  {
    hide EntriesText, Encoding;
    var v := VDict(map[Text("b") := VInt(2), Text("a") := VInt(1)]);
    assert Text("a") == [97] && Text("b") == [98];
    assert FirstSmaller([97], [98], 0);
    DictText(v, [[97], [98]]);
    OneEntryText(v, 97, 1, [[98]]);
    OneEntryText(v, 98, 2, []);
    NoEntries(v);
    assert [[98]] == [[98]] + [];
    assert [[97], [98]] == [[97]] + [[98]];
  }

  lemma {:induction false} NoEntries(v: Value)
    requires v.VDict?
    ensures KeysOf(v, []) && EntriesText(v, []) == []
  {}

  lemma {:induction false} ListExample()
    ensures Encoding(VList([VInt(-3), VBytes(Text("ab"))])) == Text("li-3e2:abe")
  {
    var items := [VInt(-3), VBytes(Text("ab"))];
    Digit(3);
    Digit(2);
    assert items[1..] == [VBytes(Text("ab"))] && items[1..][1..] == [];
    assert Encoding(items[0]) == [105, 45, 51, 101];
    assert Encoding(items[1]) == [50, 58, 97, 98];
    assert EncodingAll(items[1..]) == [50, 58, 97, 98];
    assert EncodingAll(items) == [105, 45, 51, 101, 50, 58, 97, 98];
  }

  // ----- libtorrent's decoder

  /** The error of a text of which nothing can be read, under the default limits. */
  ghost predicate Refused(text: string, ec: ErrorCode, errorPos: nat)
  {
    StuckAt(Text(text), 0, [], 100, 2_000_000, ec, errorPos)
  }

  lemma {:induction false} RefusedIf(text: string, ec: ErrorCode, errorPos: nat)
    requires Next(Text(text), 0, [], 0, 100, 2_000_000) == Bad(ec, errorPos)
    ensures Refused(text, ec, errorPos)
  {
    ReadingStarts(Text(text));
  }

  lemma {:induction false} EndExamples()
    ensures Refused("", UnexpectedEof, 0) && Refused("e", UnexpectedEof, 0)
    ensures Refused("-1:", ExpectedValue, 0)
  {
    hide Refused;
    RefusedIf("", UnexpectedEof, 0);
    RefusedIf("e", UnexpectedEof, 0);
    RefusedIf("-1:", ExpectedValue, 0);
  }

  lemma {:induction false} CutIntegerExamples()
    ensures Refused("i", UnexpectedEof, 1) && Refused("i-", UnexpectedEof, 2) && Refused("i10", UnexpectedEof, 3)
  {
    hide Refused;
    DigitRunIs(Text("i10"), 1, 2);
    RefusedIf("i", UnexpectedEof, 1);
    RefusedIf("i-", UnexpectedEof, 2);
    RefusedIf("i10", UnexpectedEof, 3);
  }

  lemma {:induction false} NoDigitExamples()
    ensures Refused("ie", ExpectedDigit, 1) && Refused("i-e", ExpectedDigit, 2)
  {
    hide Refused;
    RefusedIf("ie", ExpectedDigit, 1);
    RefusedIf("i-e", ExpectedDigit, 2);
  }

  lemma {:induction false} StringExamples()
    ensures Refused("5:abc", UnexpectedEof, 1) && Refused("12", ExpectedColon, 2) && Refused("7", UnexpectedEof, 1)
  {
    hide Refused;
    DigitRunIs(Text("5:abc"), 0, 1);
    DigitRunIs(Text("12"), 0, 2);
    assert Text("5:abc")[0..1] == [53] && Text("12")[0..2] == [49] + [50];
    DecimalOfOne(53);
    DecimalOfOne(49);
    DecimalOfOne(50);
    DecimalOfConcat([49], [50]);
    assert PowerOfTen(1) == 10;
    RefusedIf("5:abc", UnexpectedEof, 1);
    RefusedIf("12", ExpectedColon, 2);
    RefusedIf("7", UnexpectedEof, 1);
  }

  // ----- Deluge's messages

  lemma {:induction false} HeaderExample()
    ensures Transfer.Header(5) == [1, 0, 0, 0, 5] && Transfer.Header(66_051) == [1, 0, 1, 2, 3]
    ensures Transfer.HeaderLength([1, 0, 1, 2, 3]) == 66_051
  {}
}
