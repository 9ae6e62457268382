/**
 What is canonical is what an encoder writes: the values in which libtorrent's check finds nothing are those that Deluge
 would encode as the very same bytes, but for a zero behind a minus sign.
 */
module CanonicalText {
  import opened Bytes
  import opened PythonText
  import opened BencodeGrammar
  import opened BdecodeScan
  import opened BdecodeNode
  import opened SoftError
  import opened DelugeBencode
  import opened RoundTrip

  /** No number has a zero behind a minus sign, which `has_soft_error` does not look at. */
  ghost predicate NoMinusZero(t: Tree) {
    match t
    case TInt(body) => |body| > 1 && body[0] == MINUS ==> body[1] != DIGIT_0
    case TStr(_, _) => true
    case TList(items) => forall i :: 0 <= i < |items| ==> NoMinusZero(items[i])
    case TDict(items) => forall i :: 0 <= i < |items| ==> NoMinusZero(items[i])
  }

  // ----- what is encoded is canonical

  lemma {:induction false} NoneIsWritten(v: Value)
    ensures NoMinusZero(TreeOf(v))
    decreases v, 1, 0
  {
    match v
    case VInt(n) =>
      PyIntOf(n);
    case VBytes(_) =>
    case VList(items) =>
      forall i | 0 <= i < |items|
        ensures NoMinusZero(TreesOf(items)[i])
      {
        TreesOfAt(items, i);
        NoneIsWritten(items[i]);
      }
    case VDict(entries) =>
      NoneInEntries(v, SortedKeys(entries.Keys));
  }

  lemma {:induction false} NoneInEntries(v: Value, keys: seq<Bytes>)
    requires KeysOf(v, keys)
    ensures NoMinusZero(TDict(EntryTrees(v, keys)))
    decreases v, 0, 0
  {
    hide EntryTrees;
    var items := EntryTrees(v, keys);
    forall i | 0 <= i < |items|
      ensures NoMinusZero(items[i])
    {
      var k := i / 2;
      EntryTreesAt(v, keys, k);
      NoneIsWritten(v.entries[keys[k]]);
      assert i == 2 * k || i == 2 * k + 1;
    }
  }

  // ----- what is canonical is encoded

  lemma {:induction false} NumberWritten(body: Bytes) returns (n: int)
    requires IntBody(body) && (body[0] == DIGIT_0 ==> |body| == 1) && NoMinusZero(TInt(body))
    ensures IntText(n) == body
  {
    PlainIsRead(body);
    n := PyInt(body).n;
    EncodedNumbers(body, n);
  }

  lemma {:induction false} LengthWritten(digits: Bytes, content: Bytes)
    requires LengthDigits(digits, |content|) && (digits[0] == DIGIT_0 ==> |digits| == 1)
    ensures StringTree(content) == TStr(digits, content)
  {
    DigitsOfDecimal(digits);
  }

  /** The value that a canonical tree is the tree of. */
  lemma {:induction false} ValueWritten(t: Tree) returns (v: Value)
    requires Lax(t) && Canonical(t) && NoMinusZero(t)
    ensures TreeOf(v) == t
    decreases t, 1
  {
    match t
    case TInt(body) =>
      var n := NumberWritten(body);
      v := VInt(n);
    case TStr(digits, content) =>
      LengthWritten(digits, content);
      v := VBytes(content);
    case TList(items) =>
      var vs := ItemsWritten(items, |items|);
      AllTrees(items, vs);
      v := VList(vs);
    case TDict(items) =>
      v := DictWritten(items);
  }

  lemma {:induction false} ItemsWritten(items: seq<Tree>, n: nat) returns (vs: seq<Value>)
    requires n <= |items|
    requires forall i :: 0 <= i < |items| ==> Lax(items[i]) && Canonical(items[i]) && NoMinusZero(items[i])
    ensures |vs| == n && forall i :: 0 <= i < n ==> TreeOf(vs[i]) == items[i]
    decreases items, 0, n
  {
    vs := [];
    if n > 0 {
      vs := ItemsWritten(items, n - 1);
      var v := ValueWritten(items[n - 1]);
      vs := vs + [v];
    }
  }

  lemma {:induction false} AllTrees(items: seq<Tree>, vs: seq<Value>)
    requires |vs| == |items| && forall i :: 0 <= i < |vs| ==> TreeOf(vs[i]) == items[i]
    ensures TreesOf(vs) == items
  {
    forall i | 0 <= i < |vs|
      ensures TreesOf(vs)[i] == items[i]
    {
      TreesOfAt(vs, i);
    }
  }

  /** The first `n` entries: their keys, and their values by key. */
  ghost predicate EntriesWritten(items: seq<Tree>, n: nat, keys: seq<Bytes>, entries: map<Bytes, Value>)
    requires 2 * n <= |items| && KeysAreStrings(items)
  {
    && |keys| == n && (forall k :: k in entries <==> k in keys)
    && forall i :: 0 <= i < n ==>
         keys[i] == KeyAt(items, i) && keys[i] in entries && TreeOf(entries[keys[i]]) == items[2 * i + 1]
  }

  lemma {:induction false} PairsWritten(items: seq<Tree>, n: nat) returns (keys: seq<Bytes>, entries: map<Bytes, Value>)
    requires 2 * n <= |items| && KeysAreStrings(items) && KeysIncrease(items)
    requires forall i :: 0 <= i < |items| ==> Lax(items[i]) && Canonical(items[i]) && NoMinusZero(items[i])
    ensures EntriesWritten(items, n, keys, entries)
    decreases items, 0, n
  {
    hide Lax, Canonical, NoMinusZero, Before, TreeOf;
    keys, entries := [], map[];
    if n > 0 {
      keys, entries := PairsWritten(items, n - 1);
      var key := KeyAt(items, n - 1);
      var v := ValueWritten(items[2 * n - 1]);
      forall i | 0 <= i < n - 1
        ensures keys[i] != key
      {
        LessIff(KeyAt(items, i), key);
        LessIsIrreflexive(key);
      }
      keys, entries := keys + [key], entries[key := v];
    }
  }

  lemma {:induction false} DictWritten(items: seq<Tree>) returns (v: Value)
    requires Lax(TDict(items)) && Canonical(TDict(items)) && NoMinusZero(TDict(items))
    ensures TreeOf(v) == TDict(items)
    decreases items, 1
  {
    hide Lax, Canonical, NoMinusZero, KeysIncrease, EntriesWritten, InByteOrder, EntryTrees;
    DictParts(items);
    var n := |items| / 2;
    var keys, entries := PairsWritten(items, n);
    v := VDict(entries);
    KeysWritten(items, n, keys, entries);
    SortedIff(keys, entries.Keys);
    EntriesAre(v, items, n, keys);
  }

  lemma {:induction false} DictParts(items: seq<Tree>)
    requires Lax(TDict(items)) && Canonical(TDict(items)) && NoMinusZero(TDict(items))
    ensures |items| % 2 == 0 && KeysAreStrings(items) && KeysIncrease(items)
    ensures forall i :: 0 <= i < |items| ==> Lax(items[i]) && Canonical(items[i]) && NoMinusZero(items[i])
  {}

  lemma {:induction false} KeysWritten(items: seq<Tree>, n: nat, keys: seq<Bytes>, entries: map<Bytes, Value>)
    requires 2 * n <= |items| && KeysAreStrings(items) && KeysIncrease(items)
    requires EntriesWritten(items, n, keys, entries)
    ensures InByteOrder(keys, entries.Keys) && KeysOf(VDict(entries), keys)
  {
    hide Before;
    forall i, j | 0 <= i < j < n
      ensures Before(keys[i], keys[j])
    {
      assert Before(KeyAt(items, i), KeyAt(items, j));
    }
  }

  lemma {:induction false} EntriesAre(v: Value, items: seq<Tree>, n: nat, keys: seq<Bytes>)
    requires |items| == 2 * n && KeysAreStrings(items) && v.VDict? && EntriesWritten(items, n, keys, v.entries)
    requires forall i :: 0 <= i < |items| ==> Lax(items[i]) && Canonical(items[i])
    ensures EntryTrees(v, keys) == items
  {
    hide EntryTrees, EntriesWritten, Lax, Canonical, KeysOf;
    SameSize(v, items, n, keys);
    var ts := EntryTrees(v, keys);
    forall i | 0 <= i < |items|
      ensures ts[i] == items[i]
    {
      EntryIs(v, items, n, keys, i / 2);
      assert i == 2 * (i / 2) || i == 2 * (i / 2) + 1;
    }
  }

  lemma {:induction false} SameSize(v: Value, items: seq<Tree>, n: nat, keys: seq<Bytes>)
    requires |items| == 2 * n && KeysAreStrings(items) && v.VDict? && EntriesWritten(items, n, keys, v.entries)
    ensures KeysOf(v, keys) && |keys| == n
  {}

  lemma {:induction false} EntryIs(v: Value, items: seq<Tree>, n: nat, keys: seq<Bytes>, k: nat)
    requires |items| == 2 * n && KeysAreStrings(items) && v.VDict? && EntriesWritten(items, n, keys, v.entries)
    requires k < n && Lax(items[2 * k]) && Canonical(items[2 * k])
    ensures KeysOf(v, keys) && |keys| == n
    ensures EntryTrees(v, keys)[2 * k] == items[2 * k] && EntryTrees(v, keys)[2 * k + 1] == items[2 * k + 1]
  {
    hide Lax, Canonical, TreeOf, EntryTrees;
    SameSize(v, items, n, keys);
    EntryTreesAt(v, keys, k);
    KeyTree(items[2 * k]);
  }

  lemma {:induction false} KeyTree(t: Tree)
    requires t.TStr? && Lax(t) && Canonical(t)
    ensures StringTree(t.content) == t
  {
    LengthWritten(t.digits, t.content);
  }

  /**
   The bytes of a value are those that some value is encoded as, if and only if the check for soft errors finds nothing
   in it and there is no zero behind a minus sign.
   */
  lemma {:induction false} EncodedIff(t: Tree)
    requires Lax(t) && |Render(t)| <= MAX_OFFSET
    ensures (exists v :: Render(t) == Encoding(v)) <==> Canonical(t) && NoMinusZero(t)
  {
    if Canonical(t) && NoMinusZero(t) {
      var v := ValueWritten(t);
      RenderIsEncoding(v);
    }
    forall v | Render(t) == Encoding(v)
      ensures Canonical(t) && NoMinusZero(t)
    {
      RenderIsEncoding(v);
      TreeIsWide(v);
      LaxIsWide(t);
      ValueIsUnique(t, TreeOf(v), Render(t));
      LaxIsReadable(v);
      StringsAreShort(v);
      TreeIsCanonical(v);
      NoneIsWritten(v);
    }
  }
}
