/** What Deluge's decoder makes of dictionaries that no encoder writes, and where decoded lists and dictionaries end. */
module DelugeDecoding {
  import opened Bytes
  import opened DelugeBencode

  // ----- keys in any order, and more than once

  datatype Pair = Pair(key: Bytes, value: Value)

  ghost function PairsText(pairs: seq<Pair>): Bytes {
    if pairs == [] then [] else BytesText(pairs[0].key) + Encoding(pairs[0].value) + PairsText(pairs[1..])
  }

  /** Every key has the value of the last pair with it. */
  ghost predicate LastOnes(pairs: seq<Pair>, entries: map<Bytes, Value>) {
    && (forall i :: 0 <= i < |pairs| ==> pairs[i].key in entries)
    && (forall k :: k in entries ==> exists i :: 0 <= i < |pairs| && pairs[i].key == k)
    && forall i :: 0 <= i < |pairs| && (forall j :: i < j < |pairs| ==> pairs[j].key != pairs[i].key) ==>
         entries[pairs[i].key] == pairs[i].value
  }

  lemma {:induction false} OnePairMore(pairs: seq<Pair>, entries: map<Bytes, Value>, pair: Pair)
    requires LastOnes(pairs, entries)
    ensures LastOnes(pairs + [pair], entries[pair.key := pair.value])
  {
    var all, more := pairs + [pair], entries[pair.key := pair.value];
    assert all[|pairs|] == pair;
    forall k | k in more
      ensures exists i :: 0 <= i < |all| && all[i].key == k
    {
      if k != pair.key {
        var i :| 0 <= i < |pairs| && pairs[i].key == k;
        assert all[i].key == k;
      }
    }
    forall i | 0 <= i < |all| && (forall j :: i < j < |all| ==> all[j].key != all[i].key)
      ensures more[all[i].key] == all[i].value
    {
      if i < |pairs| {
        assert all[|pairs|].key != all[i].key;
        assert forall j :: i < j < |pairs| ==> all[j] == pairs[j];
      }
    }
  }

  /** From `f` on, `rest` is still to be read behind `done`. */
  lemma {:induction false} PairsDecoded(x: Bytes, f: nat, done: seq<Pair>, entries: map<Bytes, Value>,
                                        rest: seq<Pair>) returns (all: map<Bytes, Value>)
    requires LaidOut(x, f, PairsText(rest) + [LETTER_E]) && LastOnes(done, entries)
    ensures LastOnes(done + rest, all)
    ensures DecodeEntries(x, f, entries) == Decoded(VDict(all), f + |PairsText(rest)| + 1)
    decreases |rest|
  {
    hide LaidOut, LastOnes, DecodeString, Encoding;
    if rest == [] {
      LaidOutHead(x, f, PairsText(rest) + [LETTER_E]);
      all := entries;
      assert done + rest == done;
    } else {
      var pair := rest[0];
      var g, next := PairTexts(x, f, rest);
      StringDecoded(x, f, pair.key);
      ValueDecoded(x, g, pair.value);
      NextEntry(x, f, entries, pair.key, g, pair.value, next);
      OnePairMore(done, entries, pair);
      all := PairsDecoded(x, next, done + [pair], entries[pair.key := pair.value], rest[1..]);
      assert (done + [pair]) + rest[1..] == done + rest;
    }
  }

  lemma {:induction false} PairTexts(x: Bytes, f: nat, rest: seq<Pair>) returns (g: nat, next: nat)
    requires rest != [] && LaidOut(x, f, PairsText(rest) + [LETTER_E])
    ensures g == f + |BytesText(rest[0].key)| && next == g + |Encoding(rest[0].value)|
    ensures f < |x| && x[f] != LETTER_E
    ensures LaidOut(x, f, BytesText(rest[0].key)) && LaidOut(x, g, Encoding(rest[0].value))
      && LaidOut(x, next, PairsText(rest[1..]) + [LETTER_E])
    ensures f + |PairsText(rest)| == next + |PairsText(rest[1..])|
  {
    hide LaidOut, Encoding;
    var key, value := BytesText(rest[0].key), Encoding(rest[0].value);
    g, next := f + |key|, f + |key| + |value|;
    EntryParts(x, f, key, value, PairsText(rest[1..]));
    BytesTextHead(rest[0].key);
    LaidOutHead(x, f, key);
  }

  /** A dictionary is decoded whatever the order of its keys; of several values for one key it has the last one. */
  lemma {:induction false} AnyDictionary(front: Bytes, pairs: seq<Pair>, behind: Bytes)
    returns (entries: map<Bytes, Value>)
    ensures LastOnes(pairs, entries)
    ensures var text := [LETTER_D] + PairsText(pairs) + [LETTER_E];
      Decode(front + text + behind, |front|) == Decoded(VDict(entries), |front| + |text|)
  {
    hide LastOnes, Encoding, PairsText;
    var text := [LETTER_D] + PairsText(pairs) + [LETTER_E];
    var x, f := front + text + behind, |front|;
    assert x[f..f + |text|] == text;
    BracketedText(x, f, LETTER_D, PairsText(pairs));
    NoPairs();
    entries := PairsDecoded(x, f + 1, [], map[], pairs);
    assert [] + pairs == pairs;
    DictBegins(x, f);
  }

  lemma {:induction false} NoPairs()
    ensures LastOnes([], map[])
  {}

  // ----- lists and dictionaries are complete

  /** A list or a dictionary that is decoded ends inside of the text, with its `e`. */
  lemma {:induction false} ContainersEnd(x: Bytes, f: nat)
    requires f < |x| && (x[f] == LETTER_L || x[f] == LETTER_D)
    ensures Decode(x, f).Decoded? ==> f + 1 < Decode(x, f).next <= |x| && x[Decode(x, f).next - 1] == LETTER_E
  {
    if x[f] == LETTER_L {
      ItemsEnd(x, f + 1, []);
    } else {
      EntriesEnd(x, f + 1, map[]);
    }
  }

  lemma {:induction false} ItemsEnd(x: Bytes, f: nat, r: seq<Value>)
    ensures var o := DecodeItems(x, f, r); o.Decoded? ==> f < o.next <= |x| && x[o.next - 1] == LETTER_E
    decreases Left(x, f)
  {
    if !(f < |x| && x[f] == LETTER_E) {
      var o := Decode(x, f);
      if o.Decoded? {
        if f < |x| {
          ItemsEnd(x, o.next, r + [o.value]);
        }
      }
    }
  }

  lemma {:induction false} EntriesEnd(x: Bytes, f: nat, r: map<Bytes, Value>)
    ensures var o := DecodeEntries(x, f, r); o.Decoded? ==> f < o.next <= |x| && x[o.next - 1] == LETTER_E
    decreases Left(x, f)
  {
    hide DecodeString, DecodeInt;
    if !(f < |x| && x[f] == LETTER_E) {
      var k := DecodeString(x, f);
      if k.Decoded? && k.next < |x| {
        var o := Decode(x, k.next);
        if o.Decoded? {
          EntriesEnd(x, o.next, r[k.value := o.value]);
        }
      }
    }
  }
}
