/**
 From Deluge's encoder to libtorrent's decoder: what the one writes the other accepts, finds nothing wrong with, and
 reads back as the same value.
 */
module RoundTrip {
  import opened Bytes
  import opened BencodeGrammar
  import opened BdecodeScan
  import opened BdecodeTokens
  import opened BdecodeReading
  import LibtorrentDecoder = Bdecode
  import opened BdecodeNode
  import opened SoftError
  import opened DelugeBencode

  // ----- the tree that a value is encoded as

  function StringTree(content: Bytes): Tree {
    TStr(DigitsOf(|content|), content)
  }

  ghost function TreeOf(v: Value): Tree
    decreases v, 1, 0
  {
    match v
    case VInt(n) => TInt(IntText(n))
    case VBytes(content) => StringTree(content)
    case VList(items) => TList(TreesOf(items))
    case VDict(entries) => TDict(EntryTrees(v, SortedKeys(entries.Keys)))
  }

  ghost function TreesOf(items: seq<Value>): (ts: seq<Tree>)
    ensures |ts| == |items|
    decreases items, 0, 0
  {
    if items == [] then [] else [TreeOf(items[0])] + TreesOf(items[1..])
  }

  ghost function EntryTrees(v: Value, keys: seq<Bytes>): (ts: seq<Tree>)
    requires KeysOf(v, keys)
    ensures |ts| == 2 * |keys|
    decreases v, 0, |keys|
  {
    if keys == [] then [] else
    [StringTree(keys[0]), TreeOf(v.entries[keys[0]])] + EntryTrees(v, keys[1..])
  }

  lemma {:induction false} TreesOfAt(items: seq<Value>, i: nat)
    requires i < |items|
    ensures TreesOf(items)[i] == TreeOf(items[i])
  {
    if i > 0 {
      TreesOfAt(items[1..], i - 1);
    }
  }

  lemma {:induction false} EntryTreesAt(v: Value, keys: seq<Bytes>, i: nat)
    requires KeysOf(v, keys) && i < |keys|
    ensures EntryTrees(v, keys)[2 * i] == StringTree(keys[i])
    ensures EntryTrees(v, keys)[2 * i + 1] == TreeOf(v.entries[keys[i]])
    decreases keys
  {
    if i > 0 {
      EntryTreesAt(v, keys[1..], i - 1);
    }
  }

  // ----- the tree prints as the value is encoded

  lemma {:induction false} RenderIsEncoding(v: Value)
    ensures Render(TreeOf(v)) == Encoding(v)
    decreases v, 1, 0
  {
    match v
    case VInt(_) =>
    case VBytes(_) =>
    case VList(items) => RenderTrees(items);
    case VDict(entries) => RenderEntries(v, SortedKeys(entries.Keys));
  }

  lemma {:induction false} RenderTrees(items: seq<Value>)
    ensures RenderAll(TreesOf(items)) == EncodingAll(items)
    decreases items, 0, 0
  {
    if items != [] {
      var ts := TreesOf(items);
      RenderAllHead(ts);
      assert ts[1..] == TreesOf(items[1..]);
      RenderIsEncoding(items[0]);
      RenderTrees(items[1..]);
    }
  }

  lemma {:induction false} RenderEntries(v: Value, keys: seq<Bytes>)
    requires KeysOf(v, keys)
    ensures RenderAll(EntryTrees(v, keys)) == EntriesText(v, keys)
    decreases v, 0, |keys|
  {
    if keys != [] {
      var k, t, ts := StringTree(keys[0]), TreeOf(v.entries[keys[0]]), EntryTrees(v, keys[1..]);
      RenderIsEncoding(v.entries[keys[0]]);
      RenderEntries(v, keys[1..]);
      RenderPair(k, t, ts);
      assert EntryTrees(v, keys) == [k, t] + ts;
    }
  }

  lemma {:induction false} RenderPair(k: Tree, t: Tree, ts: seq<Tree>)
    ensures RenderAll([k, t] + ts) == Render(k) + Render(t) + RenderAll(ts)
  {
    var items := [k, t] + ts;
    RenderAllHead(items);
    RenderAllHead(items[1..]);
    assert items[1..][0] == t && items[1..][1..] == ts;
    ConcatAssociative(Render(k), Render(t), RenderAll(ts));
  }

  // ----- the tree is one of the grammar, and canonical

  function Magnitude(n: int): nat {
    if n < 0 then -n else n
  }

  /** No integer has more digits than libtorrent takes. */
  ghost predicate Readable(v: Value) {
    match v
    case VInt(n) => |DigitsOf(Magnitude(n))| <= MAX_INT_DIGITS
    case VBytes(_) => true
    case VList(items) => forall i :: 0 <= i < |items| ==> Readable(items[i])
    case VDict(entries) => forall k :: k in entries ==> Readable(entries[k])
  }

  /** All strings fit into a buffer of libtorrent's. */
  ghost predicate StringsFit(v: Value) {
    match v
    case VInt(_) => true
    case VBytes(content) => |content| <= MAX_OFFSET
    case VList(items) => forall i :: 0 <= i < |items| ==> StringsFit(items[i])
    case VDict(entries) => forall k :: k in entries ==> |k| <= MAX_OFFSET && StringsFit(entries[k])
  }

  /** All integers fit into 64 bits. */
  ghost predicate Within64(v: Value) {
    match v
    case VInt(n) => -INT64_MAX <= n <= INT64_MAX
    case VBytes(_) => true
    case VList(items) => forall i :: 0 <= i < |items| ==> Within64(items[i])
    case VDict(entries) => forall k :: k in entries ==> Within64(entries[k])
  }

  /** The same value with 0 in place of the integers that do not. */
  ghost function Clipped(v: Value): Value
    decreases v
  {
    match v
    case VInt(n) => VInt(if -INT64_MAX <= n <= INT64_MAX then n else 0)
    case VBytes(_) => v
    case VList(items) => VList(seq(|items|, i requires 0 <= i < |items| => Clipped(items[i])))
    case VDict(entries) => VDict(map k | k in entries :: Clipped(entries[k]))
  }

  lemma {:induction false} ClippedIff(v: Value)
    ensures Clipped(v) == v <==> Within64(v)
    decreases v
  {
    match v
    case VInt(_) =>
    case VBytes(_) =>
    case VList(items) =>
      forall i | 0 <= i < |items|
        ensures Clipped(v).items[i] == items[i] <==> Within64(items[i])
      {
        ClippedIff(items[i]);
      }
      if Within64(v) {
        assert Clipped(v).items == items;
      }
    case VDict(entries) =>
      forall k | k in entries
        ensures Clipped(v).entries[k] == entries[k] <==> Within64(entries[k])
      {
        ClippedIff(entries[k]);
      }
      if Within64(v) {
        assert Clipped(v).entries == entries;
      }
  }

  lemma {:induction false} ItemWithin(items: seq<Value>, i: nat)
    requires i < |items|
    ensures |Encoding(items[i])| <= |EncodingAll(items)|
  {
    if i > 0 {
      ItemWithin(items[1..], i - 1);
    }
  }

  lemma {:induction false} EntryWithin(v: Value, keys: seq<Bytes>, i: nat)
    requires KeysOf(v, keys) && i < |keys|
    ensures |keys[i]| + |Encoding(v.entries[keys[i]])| <= |EntriesText(v, keys)|
    decreases keys
  {
    if i > 0 {
      EntryWithin(v, keys[1..], i - 1);
    }
  }

  /** A string is not longer than the text that it is in. */
  lemma {:induction false} StringsAreShort(v: Value)
    requires |Encoding(v)| <= MAX_OFFSET
    ensures StringsFit(v)
    decreases v
  {
    match v
    case VInt(_) =>
    case VBytes(_) =>
    case VList(items) =>
      forall i | 0 <= i < |items|
        ensures StringsFit(items[i])
      {
        ItemWithin(items, i);
        StringsAreShort(items[i]);
      }
    case VDict(entries) =>
      var keys := SortedKeys(entries.Keys);
      forall k | k in entries
        ensures |k| <= MAX_OFFSET && StringsFit(entries[k])
      {
        var i :| 0 <= i < |keys| && keys[i] == k;
        EntryWithin(v, keys, i);
        StringsAreShort(entries[k]);
      }
  }

  lemma {:induction false} IntIsWide(n: int)
    ensures WideInt(IntText(n)) && (IntText(n)[0] == DIGIT_0 ==> |IntText(n)| == 1)
    ensures IntBody(IntText(n)) <==> |DigitsOf(Magnitude(n))| <= MAX_INT_DIGITS
    ensures Decimal(DigitsOf(Magnitude(n))) == Magnitude(n)
  {
    DecimalOfDigits(Magnitude(n));
    PyIntOf(n);
    if n < 0 {
      assert IntText(n)[1..] == DigitsOf(Magnitude(n));
    }
  }

  /** What `int_value` makes of a number that was written. */
  lemma {:induction false} IntReadBack(n: int)
    requires IntBody(IntText(n))
    ensures IntValueOf(IntText(n)) == if -INT64_MAX <= n <= INT64_MAX then n else 0
  {
    IntIsWide(n);
    PyIntOf(n);
    if n < 0 {
      assert IntText(n)[1..] == DigitsOf(Magnitude(n));
    }
  }

  lemma {:induction false} PowersOfTen()
    ensures PowerOfTen(9) == 1_000_000_000
    ensures PowerOfTen(19) == 10_000_000_000_000_000_000
  {
    assert PowerOfTen(4) == 10000;
    assert PowerOfTen(9) == 1_000_000_000;
    assert PowerOfTen(14) == 100_000_000_000_000;
  }

  lemma {:induction false} StringIsCanonical(content: Bytes)
    ensures Wide(StringTree(content))
    ensures |content| <= MAX_OFFSET ==> Lax(StringTree(content)) && Canonical(StringTree(content))
  {
    DecimalOfDigits(|content|);
    FirstDigit(|content|);
    if |content| <= MAX_OFFSET {
      PowersOfTen();
      FewDigits(|content|, 9);
    }
  }

  lemma {:induction false} TreeIsCanonical(v: Value)
    requires Readable(v) && StringsFit(v)
    ensures Lax(TreeOf(v)) && Canonical(TreeOf(v))
    decreases v, 1, 0
  {
    match v
    case VInt(n) =>
      IntIsWide(n);
    case VBytes(content) =>
      StringIsCanonical(content);
    case VList(items) =>
      forall i | 0 <= i < |items|
        ensures Lax(TreesOf(items)[i]) && Canonical(TreesOf(items)[i])
      {
        TreesOfAt(items, i);
        TreeIsCanonical(items[i]);
      }
    case VDict(entries) =>
      DictIsCanonical(v, SortedKeys(entries.Keys));
  }

  lemma {:induction false} DictIsCanonical(v: Value, keys: seq<Bytes>)
    requires KeysOf(v, keys) && Readable(v) && StringsFit(v) && Increasing(keys)
    ensures var t := TDict(EntryTrees(v, keys)); Lax(t) && Canonical(t)
    decreases v, 0, 1
  {
    var items := EntryTrees(v, keys);
    forall i | 0 <= i < |items|
      ensures Lax(items[i]) && Canonical(items[i])
    {
      var k := i / 2;
      EntryIsCanonical(v, keys, k);
      assert i == 2 * k || i == 2 * k + 1;
    }
    EntryKeysIncrease(v, keys);
    DictOfEntries(items);
  }

  /** Whatever the value, its tree is one of the grammar but for the lengths of its numbers. */
  lemma {:induction false} TreeIsWide(v: Value)
    ensures Wide(TreeOf(v))
    decreases v, 1, 0
  {
    match v
    case VInt(n) =>
      IntIsWide(n);
    case VBytes(content) =>
      StringIsCanonical(content);
    case VList(items) =>
      forall i | 0 <= i < |items|
        ensures Wide(TreesOf(items)[i])
      {
        TreesOfAt(items, i);
        TreeIsWide(items[i]);
      }
    case VDict(entries) =>
      var keys := SortedKeys(entries.Keys);
      EntriesAreWide(v, keys);
      EntryKeysIncrease(v, keys);
  }

  lemma {:induction false} EntriesAreWide(v: Value, keys: seq<Bytes>)
    requires KeysOf(v, keys)
    ensures forall i :: 0 <= i < |EntryTrees(v, keys)| ==> Wide(EntryTrees(v, keys)[i])
    decreases v, 0, 1
  {
    hide Wide;
    forall i | 0 <= i < |EntryTrees(v, keys)|
      ensures Wide(EntryTrees(v, keys)[i])
    {
      EntryTreesAt(v, keys, i / 2);
      StringIsCanonical(keys[i / 2]);
      TreeIsWide(v.entries[keys[i / 2]]);
      assert i == 2 * (i / 2) || i == 2 * (i / 2) + 1;
    }
  }

  lemma {:induction false} LaxIsReadable(v: Value)
    requires Lax(TreeOf(v))
    ensures Readable(v)
    decreases v
  {
    match v
    case VInt(n) =>
      IntIsWide(n);
    case VBytes(_) =>
    case VList(items) =>
      forall i | 0 <= i < |items|
        ensures Readable(items[i])
      {
        TreesOfAt(items, i);
        LaxIsReadable(items[i]);
      }
    case VDict(entries) =>
      var keys := SortedKeys(entries.Keys);
      forall k | k in entries
        ensures Readable(entries[k])
      {
        var i :| 0 <= i < |keys| && keys[i] == k;
        EntryTreesAt(v, keys, i);
        assert Lax(EntryTrees(v, keys)[2 * i + 1]);
        LaxIsReadable(entries[k]);
      }
  }

  lemma {:induction false} DictOfEntries(items: seq<Tree>)
    requires |items| % 2 == 0 && KeysAreStrings(items) && KeysIncrease(items)
    requires forall i :: 0 <= i < |items| ==> Lax(items[i]) && Canonical(items[i])
    ensures Lax(TDict(items)) && Canonical(TDict(items))
  {}

  lemma {:induction false} EntryIsCanonical(v: Value, keys: seq<Bytes>, k: nat)
    requires KeysOf(v, keys) && Readable(v) && StringsFit(v) && k < |keys|
    ensures var ts := EntryTrees(v, keys);
      && Lax(ts[2 * k]) && Canonical(ts[2 * k]) && ts[2 * k].TStr?
      && Lax(ts[2 * k + 1]) && Canonical(ts[2 * k + 1])
    decreases v, 0, 0
  {
    EntryTreesAt(v, keys, k);
    EntryIsReadable(v, keys[k]);
    StringIsCanonical(keys[k]);
    TreeIsCanonical(v.entries[keys[k]]);
  }

  lemma {:induction false} EntryIsReadable(v: Value, k: Bytes)
    requires v.VDict? && Readable(v) && StringsFit(v) && k in v.entries
    ensures |k| <= MAX_OFFSET && Readable(v.entries[k]) && StringsFit(v.entries[k])
  {}

  lemma {:induction false} EntryKeysIncrease(v: Value, keys: seq<Bytes>)
    requires KeysOf(v, keys) && Increasing(keys)
    ensures KeysAreStrings(EntryTrees(v, keys)) && KeysIncrease(EntryTrees(v, keys))
  {
    var items := EntryTrees(v, keys);
    forall i | 0 <= i < |items| && i % 2 == 0
      ensures items[i].TStr?
    {
      var k := i / 2;
      EntryTreesAt(v, keys, k);
      assert i == 2 * k;
    }
    forall i, j | 0 <= i < j < (|items| + 1) / 2
      ensures Before(KeyAt(items, i), KeyAt(items, j))
    {
      LessIff(keys[i], keys[j]);
      assert |items| == 2 * |keys|;
      assert j < |keys|;
      EntryTreesAt(v, keys, i);
      EntryTreesAt(v, keys, j);
    }
  }

  // ----- what libtorrent makes of a tree

  /** The value of a tree. Of entries with the same key the last one counts. */
  ghost function ValueOf(t: Tree): Value
    requires Lax(t)
    decreases t, 1, 0
  {
    match t
    case TInt(body) => VInt(IntValueOf(body))
    case TStr(_, content) => VBytes(content)
    case TList(items) => VList(ValuesOf(t, |items|))
    case TDict(items) => VDict(EntriesOf(t, |items| / 2))
  }

  ghost function ValuesOf(t: Tree, n: nat): (vs: seq<Value>)
    requires Lax(t) && t.TList? && n <= |t.items|
    ensures |vs| == n
    decreases t, 0, n
  {
    if n == 0 then [] else ValuesOf(t, n - 1) + [ValueOf(t.items[n - 1])]
  }

  ghost function EntriesOf(t: Tree, n: nat): map<Bytes, Value>
    requires Lax(t) && t.TDict? && n <= |t.items| / 2
    decreases t, 0, n
  {
    if n == 0 then map[] else EntriesOf(t, n - 1)[KeyAt(t.items, n - 1) := ValueOf(t.items[2 * n - 1])]
  }

  /** A list has the values of its items. */
  lemma {:induction false} ValuesAt(t: Tree, n: nat, i: nat)
    requires Lax(t) && t.TList? && i < n <= |t.items|
    ensures ValuesOf(t, n)[i] == ValueOf(t.items[i])
  {
    if i < n - 1 {
      ValuesAt(t, n - 1, i);
    }
  }

  /** A dictionary has, for every key, the value of the last entry with it. */
  lemma {:induction false} LastEntryCounts(t: Tree, n: nat, i: nat)
    requires Lax(t) && t.TDict? && i < n <= |t.items| / 2
    requires forall j :: i < j < n ==> KeyAt(t.items, j) != KeyAt(t.items, i)
    ensures var key := KeyAt(t.items, i);
      key in EntriesOf(t, n) && EntriesOf(t, n)[key] == ValueOf(t.items[2 * i + 1])
  {
    hide ValueOf;
    if i < n - 1 {
      LastEntryCounts(t, n - 1, i);
    }
  }

  lemma {:induction false} EntryOfKey(t: Tree, n: nat, key: Bytes) returns (i: nat)
    requires Lax(t) && t.TDict? && n <= |t.items| / 2 && key in EntriesOf(t, n)
    ensures i < n && KeyAt(t.items, i) == key
  {
    hide ValueOf;
    if KeyAt(t.items, n - 1) == key {
      i := n - 1;
    } else {
      i := EntryOfKey(t, n - 1, key);
    }
  }

  /** The conversion of a node into an entry, which asks it for everything that is below. */
  method ReadBack(node: Node) returns (v: Value)
    requires node.Valid()
    modifies node
    ensures node.Valid() && v == ValueOf(node.tree)
    decreases node.tree
  {
    var kind := node.tokens[node.tokenIdx].kind;
    KindOf(node.tokens, node.buffer, node.tokenIdx, node.tree, node.offset);
    if kind == DictToken {
      v := ReadDictBack(node);
    } else if kind == ListToken {
      v := ReadListBack(node);
    } else if kind == IntegerToken {
      var n := node.IntValue();
      v := VInt(n);
    } else {
      var content := node.StringValue();
      v := VBytes(content);
    }
  }

  method ReadListBack(node: Node) returns (v: Value)
    requires node.Valid() && node.tree.TList?
    modifies node
    ensures node.Valid() && v == ValueOf(node.tree)
    decreases node.tree, 0
  {
    var items := [];
    var i := 0;
    var size := node.ListSize();
    while i < size
      invariant node.Valid() && 0 <= i <= size == |node.tree.items|
      invariant items == ValuesOf(node.tree, i)
    {
      var child := node.ListAt(i);
      var item := ReadBack(child);
      items := items + [item];
      i := i + 1;
      size := node.ListSize();
    }
    v := VList(items);
  }

  method ReadDictBack(node: Node) returns (v: Value)
    requires node.Valid() && node.tree.TDict?
    modifies node
    ensures node.Valid() && v == ValueOf(node.tree)
    decreases node.tree, 0, 1
  {
    var entries := map[];
    var i := 0;
    var size := node.DictSize();
    while i < size
      invariant node.Valid() && 0 <= i <= size == |node.tree.items| / 2
      invariant entries == EntriesOf(node.tree, i)
    {
      var name, value := ReadEntryBack(node, i);
      EntriesStep(node.tree, i);
      entries := entries[name := value];
      i := i + 1;
      size := node.DictSize();
    }
    v := VDict(entries);
  }

  lemma {:induction false} EntriesStep(t: Tree, n: nat)
    requires Lax(t) && t.TDict? && n < |t.items| / 2
    ensures Lax(t.items[2 * n + 1]) && t.items[2 * n].TStr?
    ensures EntriesOf(t, n + 1) == EntriesOf(t, n)[KeyAt(t.items, n) := ValueOf(t.items[2 * n + 1])]
  {}

  /** `dict_at`, and what its value is read back as. */
  method ReadEntryBack(node: Node, i: nat) returns (name: Bytes, value: Value)
    requires node.Valid() && node.tree.TDict? && i < EntryCount(node.tree)
    modifies node
    ensures node.Valid() && node.tree.items[2 * i].TStr? && Lax(node.tree.items[2 * i + 1])
    ensures name == KeyAt(node.tree.items, i) && value == ValueOf(node.tree.items[2 * i + 1])
    decreases node.tree, 0, 0
  {
    var key, child := node.DictAtNode(i);
    DictHasPairs(node.tree, i);
    name := key.StringValue();
    value := ReadBack(child);
  }

  // ----- reading back what was encoded

  lemma {:induction false} ValueOfTree(v: Value)
    requires Readable(v) && StringsFit(v)
    ensures Lax(TreeOf(v)) && ValueOf(TreeOf(v)) == Clipped(v)
    decreases v, 1, 0
  {
    TreeIsCanonical(v);
    match v
    case VInt(n) =>
      IntReadBack(n);
    case VBytes(_) =>
    case VList(items) =>
      ValuesOfTrees(v, TreeOf(v), |items|);
    case VDict(entries) =>
      var keys := SortedKeys(entries.Keys);
      EntriesOfTrees(v, keys, TreeOf(v), |keys|);
      DictValueOf(v, keys, TreeOf(v));
  }

  lemma {:induction false} DictValueOf(v: Value, keys: seq<Bytes>, t: Tree)
    requires v.VDict? && KeysOf(v, keys) && t == TDict(EntryTrees(v, keys)) && Lax(t)
    requires forall k :: k in v.entries <==> k in keys
    requires EntriesOf(t, |keys|) == Taken(v, keys, |keys|)
    ensures ValueOf(t) == Clipped(v)
  {
    TakenIs(v, keys, |keys|);
    assert keys[..|keys|] == keys;
    assert Taken(v, keys, |keys|) == Clipped(v).entries;
  }

  lemma {:induction false} ValuesOfTrees(v: Value, t: Tree, n: nat)
    requires v.VList? && n <= |v.items| && Readable(v) && StringsFit(v) && t == TList(TreesOf(v.items)) && Lax(t)
    ensures ValuesOf(t, n) == Clipped(v).items[..n]
    decreases v, 0, n
  {
    if n > 0 {
      ValuesOfTrees(v, t, n - 1);
      TreesOfAt(v.items, n - 1);
      ValueOfTree(v.items[n - 1]);
      OneMore(Clipped(v).items, n - 1);
    }
  }

  /** The entries of the first `n` keys, as they are read back. */
  ghost function Taken(v: Value, keys: seq<Bytes>, n: nat): map<Bytes, Value>
    requires KeysOf(v, keys) && n <= |keys|
  {
    if n == 0 then map[] else Taken(v, keys, n - 1)[keys[n - 1] := Clipped(v.entries[keys[n - 1]])]
  }

  lemma {:induction false} TakenIs(v: Value, keys: seq<Bytes>, n: nat)
    requires KeysOf(v, keys) && n <= |keys|
    ensures forall k :: k in Taken(v, keys, n) <==> k in keys[..n]
    ensures forall k :: k in Taken(v, keys, n) ==> k in v.entries && Taken(v, keys, n)[k] == Clipped(v.entries[k])
  {
    if n > 0 {
      TakenIs(v, keys, n - 1);
      OneMore(keys, n - 1);
    }
  }

  lemma {:induction false} EntriesOfTrees(v: Value, keys: seq<Bytes>, t: Tree, n: nat)
    requires v.VDict? && KeysOf(v, keys) && n <= |keys| && Readable(v) && StringsFit(v)
    requires t == TDict(EntryTrees(v, keys)) && Lax(t)
    ensures EntriesOf(t, n) == Taken(v, keys, n)
    decreases v, 0, n
  {
    if n > 0 {
      EntriesOfTrees(v, keys, t, n - 1);
      var key, value := EntryReadBack(v, keys, t, n - 1);
    }
  }

  lemma {:induction false} EntryReadBack(v: Value, keys: seq<Bytes>, t: Tree, i: nat) returns (key: Bytes, value: Value)
    requires v.VDict? && KeysOf(v, keys) && i < |keys| && Readable(v) && StringsFit(v)
    requires t == TDict(EntryTrees(v, keys)) && Lax(t)
    ensures key == keys[i] && value == Clipped(v.entries[key])
    ensures EntriesOf(t, i + 1) == EntriesOf(t, i)[key := value]
    decreases v, 0, 0
  {
    EntryTreesAt(v, keys, i);
    EntryIsReadable(v, keys[i]);
    ValueOfTree(v.entries[keys[i]]);
    EntriesStep(t, i);
    key, value := keys[i], Clipped(v.entries[keys[i]]);
  }

  /** The limits of a decoder that are large enough for a value, none of whose integers may have too many digits. */
  ghost predicate WithinLimits(v: Value, depthLimit: int, tokenLimit: int) {
    |Encoding(v)| <= MAX_OFFSET && Readable(v) && Nesting(TreeOf(v)) < depthLimit && TokenCount(TreeOf(v)) <= tokenLimit
  }

  /** The tree of a value is the only one that its encoding can begin with. */
  lemma {:induction false} FitsIff(v: Value, depthLimit: int, tokenLimit: int)
    ensures WithinLimits(v, depthLimit, tokenLimit) <==> exists t :: Fits(t, Encoding(v), depthLimit, tokenLimit)
    ensures forall t :: Fits(t, Encoding(v), depthLimit, tokenLimit) ==> t == TreeOf(v)
  {
    TreeIsWide(v);
    RenderIsEncoding(v);
    forall t | Fits(t, Encoding(v), depthLimit, tokenLimit)
      ensures t == TreeOf(v) && Readable(v)
    {
      LaxIsWide(t);
      ValueIsUnique(t, TreeOf(v), Encoding(v));
      LaxIsReadable(v);
    }
    if WithinLimits(v, depthLimit, tokenLimit) {
      StringsAreShort(v);
      TreeIsCanonical(v);
      assert Fits(TreeOf(v), Encoding(v), depthLimit, tokenLimit);
    }
  }

  /**
   libtorrent reads what Deluge has written: all of it, without any error. It is read back as the same value exactly if
   all integers fit into 64 bits; the others become 0.
   */
  method WriteAndRead(v: Value, depthLimit: int, tokenLimit: int)
    returns (ec: ErrorCode, size: nat, written: nat, softError: bool, read: Value)
    ensures ec == NoError <==> WithinLimits(v, depthLimit, tokenLimit)
    ensures ec == NoError ==> size == written == |Encoding(v)| && !softError && read == Clipped(v)
    ensures ec == NoError ==> (read == v <==> Within64(v))
  {
    var text := Bencode(v);
    written, softError, read := |text|, false, v;
    var tokens, errorPos;
    ghost var tree;
    FitsIff(v, depthLimit, tokenLimit);
    tokens, size, ec, errorPos, tree := LibtorrentDecoder.Decode(text, depthLimit, tokenLimit);
    if ec == NoError {
      RenderIsEncoding(v);
      RootIsLocated(tokens, text, tree);
      var root := new Node(tokens, text, 0, tree, 0);
      softError := HasSoftError(root);
      StringsAreShort(v);
      TreeIsCanonical(v);
      ValueOfTree(v);
      ClippedIff(v);
      read := ReadBack(root);
    }
  }

  lemma {:induction false} RootIsLocated(tokens: seq<Token>, text: Bytes, tree: Tree)
    requires Lax(tree) && Render(tree) <= text && tokens == Flat(tree, 0) + [Token(|Render(tree)|, EndToken, 0, 0)]
    ensures Located(tokens, text, 0, tree, 0)
  {
    assert tokens[0..TokenCount(tree)] == Flat(tree, 0);
    assert text[0..|Render(tree)|] == Render(tree);
  }

  // ----- values that are not read back, or not accepted

  /** An integer is accepted exactly if it has at most 20 digits, and comes back exactly if it is within 64 bits. */
  lemma {:induction false} IntegersIff(n: int, depthLimit: int, tokenLimit: int)
    requires depthLimit > 0 && tokenLimit > 0
    ensures WithinLimits(VInt(n), depthLimit, tokenLimit) <==> Magnitude(n) < PowerOfTen(20)
    ensures Clipped(VInt(n)) == VInt(n) <==> Magnitude(n) <= 9_223_372_036_854_775_807
  {
    if Magnitude(n) < PowerOfTen(MAX_INT_DIGITS) {
      FewDigits(Magnitude(n), MAX_INT_DIGITS);
    } else {
      ManyDigits(Magnitude(n), MAX_INT_DIGITS);
    }
  }

  /** 2^63 is accepted and comes back as 0; a number of 21 digits is refused. */
  lemma {:induction false} LargeIntegers()
    ensures var v := VInt(9_223_372_036_854_775_808); WithinLimits(v, 1, 1) && !Within64(v) && Clipped(v) == VInt(0)
    ensures forall d: int, t: int {:trigger WithinLimits(VInt(1_0000_0000_0000_0000_0000), d, t)} ::
              !WithinLimits(VInt(1_0000_0000_0000_0000_0000), d, t)
  {
    TwentyDigits();
    IntegersIff(INT64_MAX + 1, 1, 1);
    IntegersIff(1_0000_0000_0000_0000_0000, 1, 1);
  }

  lemma {:induction false} TwentyDigits()
    ensures PowerOfTen(MAX_INT_DIGITS) == 1_0000_0000_0000_0000_0000
  {
    assert PowerOfTen(4) == 1_0000;
    assert PowerOfTen(8) == 1_0000_0000;
    assert PowerOfTen(12) == 1_0000_0000_0000;
    assert PowerOfTen(16) == 1_0000_0000_0000_0000;
  }

  /** Lists in lists, so many levels of them. */
  function Nest(levels: nat): Value {
    if levels == 0 then VInt(0) else VList([Nest(levels - 1)])
  }

  /**
   Lists that are nested as deep as the limit are refused, however small all integers in them are; and so are those with
   more tokens, or bytes, than their limits.
   */
  lemma {:induction false} NestsIff(levels: nat, depthLimit: int, tokenLimit: int)
    ensures WithinLimits(Nest(levels), depthLimit, tokenLimit) <==>
            levels < depthLimit && 2 * levels + 1 <= tokenLimit && 2 * levels + 3 <= 0x1fff_ffff
    ensures Within64(Nest(levels))
  {
    NestIs(levels);
  }

  lemma {:induction false} NestIs(levels: nat)
    ensures |Encoding(Nest(levels))| == 2 * levels + 3 && Readable(Nest(levels)) && Within64(Nest(levels))
    ensures Nesting(TreeOf(Nest(levels))) == levels && TokenCount(TreeOf(Nest(levels))) == 2 * levels + 1
  {
    if levels > 0 {
      NestIs(levels - 1);
      OneItem(Nest(levels - 1));
    }
  }

  lemma {:induction false} OneItem(v: Value)
    ensures |Encoding(VList([v]))| == |Encoding(v)| + 2
    ensures Nesting(TreeOf(VList([v]))) == 1 + Nesting(TreeOf(v))
    ensures TokenCount(TreeOf(VList([v]))) == TokenCount(TreeOf(v)) + 2
  {
    var t := TreeOf(v);
    assert [v][1..] == [] && [t][..0] == [];
    assert TreesOf([v]) == [t] + TreesOf([]) == [t];
    assert EncodingAll([v]) == Encoding(v) + EncodingAll([]);
    assert LexemesAll([t]) == LexemesAll([]) + Lexemes(t);
    assert NestingAll([t]) == Nesting(t);
  }
}
