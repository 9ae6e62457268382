/**
 What the accessors of a node do on any array that can be walked, be it the array of a value or one that was repaired
 after an error. A key in front of the place of an error may be read as longer than it was, but not beyond that place.
 */
module BdecodeRepaired {
  import opened Bytes
  import opened BencodeGrammar
  import opened BdecodeScan
  import opened BdecodeTokens
  import opened BdecodeNavigation
  import opened BdecodeIntegers
  import BdecodeNode

  /** The indices of the nodes from `j` on, up to the end token. */
  ghost function NodesFrom(tokens: seq<Token>, j: nat, isDict: bool, wantValue: bool): seq<nat>
    requires ItemsOk(tokens, j, isDict, wantValue)
    decreases |tokens| - j
  {
    if tokens[j].kind == EndToken then []
    else [j] + NodesFrom(tokens, j + tokens[j].nextItem, isDict, isDict && !wantValue)
  }

  /** The children of a container, as its links give them. */
  ghost function Children(tokens: seq<Token>, i: nat): seq<nat>
    requires NodeOk(tokens, i) && tokens[i].IsContainer()
  {
    NodesFrom(tokens, i + 1, tokens[i].kind == DictToken, false)
  }

  /** A node whose own link stays inside of the array. */
  ghost predicate Inside(tokens: seq<Token>, i: nat) {
    NodeOk(tokens, i) && 0 < tokens[i].nextItem && i + tokens[i].nextItem < |tokens|
  }

  lemma {:induction false} NodesAreInside(tokens: seq<Token>, j: nat, isDict: bool, wantValue: bool)
    requires ItemsOk(tokens, j, isDict, wantValue)
    ensures forall k :: 0 <= k < |NodesFrom(tokens, j, isDict, wantValue)| ==>
              j <= NodesFrom(tokens, j, isDict, wantValue)[k]
                && Inside(tokens, NodesFrom(tokens, j, isDict, wantValue)[k])
    ensures isDict ==> (|NodesFrom(tokens, j, isDict, wantValue)| % 2 == 1 <==> wantValue)
    decreases |tokens| - j
  {
    if tokens[j].kind != EndToken {
      NodesAreInside(tokens, j + tokens[j].nextItem, isDict, isDict && !wantValue);
    }
  }

  lemma {:induction false} KeysAreStringTokens(tokens: seq<Token>, j: nat, wantValue: bool, k: nat)
    requires ItemsOk(tokens, j, true, wantValue) && k < |NodesFrom(tokens, j, true, wantValue)|
    requires k % 2 == if wantValue then 1 else 0
    ensures var i := NodesFrom(tokens, j, true, wantValue)[k]; i < |tokens| && tokens[i].IsString()
    decreases |tokens| - j
  {
    if k > 0 {
      KeysAreStringTokens(tokens, j + tokens[j].nextItem, !wantValue, k - 1);
    }
  }

  /** The keys of a dictionary: every other child, the first one included. */
  ghost predicate StringsInFront(tokens: seq<Token>, nodes: seq<nat>) {
    forall k :: 0 <= k < |nodes| && k % 2 == 0 ==> nodes[k] < |tokens| && tokens[nodes[k]].IsString()
  }

  /**
   Every child of a node can be walked in its turn, and its link stays inside; a dictionary has a value for every key,
   and its keys are strings.
   */
  lemma {:induction false} ChildrenAreOk(tokens: seq<Token>, i: nat)
    requires NodeOk(tokens, i) && tokens[i].IsContainer()
    ensures forall k :: 0 <= k < |Children(tokens, i)| ==>
              i < Children(tokens, i)[k] && Inside(tokens, Children(tokens, i)[k])
    ensures tokens[i].kind == DictToken ==>
              |Children(tokens, i)| % 2 == 0 && StringsInFront(tokens, Children(tokens, i))
  {
    NodesAreInside(tokens, i + 1, tokens[i].kind == DictToken, false);
    if tokens[i].kind == DictToken {
      forall k | 0 <= k < |Children(tokens, i)| && k % 2 == 0
        ensures Children(tokens, i)[k] < |tokens| && tokens[Children(tokens, i)[k]].IsString()
      {
        KeysAreStringTokens(tokens, i + 1, false, k);
      }
    }
  }

  /** The walk from a child that stands at its place among the children goes over the ones behind it. */
  lemma {:induction false} NodesBehind(tokens: seq<Token>, j: nat, isDict: bool, wantValue: bool, k: nat)
    requires ItemsOk(tokens, j, isDict, wantValue) && k < |NodesFrom(tokens, j, isDict, wantValue)|
    ensures var all, want := NodesFrom(tokens, j, isDict, wantValue), isDict && (wantValue <==> k % 2 == 0);
      ItemsOk(tokens, all[k], isDict, want) && NodesFrom(tokens, all[k], isDict, want) == all[k..]
    decreases k
  {
    var all := NodesFrom(tokens, j, isDict, wantValue);
    if k == 0 {
      assert all[0..] == all;
    } else {
      NodesBehind(tokens, j + tokens[j].nextItem, isDict, isDict && !wantValue, k - 1);
      assert all[1..][k - 1..] == all[k..];
    }
  }

  /** What a node remembers: the child that was looked up last, and the number of entries; -1 when there is none. */
  datatype Cache = Cache(lastIndex: int, lastToken: nat, size: int)

  const NOTHING := Cache(-1, 0, -1)

  /** How many children make an entry. */
  function Width(tokens: seq<Token>, i: nat): nat
    requires i < |tokens|
  {
    if tokens[i].kind == DictToken then 2 else 1
  }

  /** What is remembered is so. */
  ghost predicate CacheOk(tokens: seq<Token>, i: nat, cache: Cache)
    requires NodeOk(tokens, i) && tokens[i].IsContainer()
  {
    var all, width := Children(tokens, i), Width(tokens, i);
    && (cache.lastIndex == -1
        || (cache.lastIndex >= 0 && cache.lastIndex * width < |all| && cache.lastToken == all[cache.lastIndex * width]))
    && (cache.size == -1 || cache.size * width == |all|)
  }

  /** The walk stands in front of the rest of the entries. */
  ghost predicate Walking(tokens: seq<Token>, i: nat, token: nat, child: nat)
    requires NodeOk(tokens, i) && tokens[i].IsContainer()
  {
    var isDict := tokens[i].kind == DictToken;
    && ItemsOk(tokens, token, isDict, isDict && child % 2 == 1)
    && child <= |Children(tokens, i)|
    && NodesFrom(tokens, token, isDict, isDict && child % 2 == 1) == Children(tokens, i)[child..]
  }

  lemma {:induction false} WalkFromCache(tokens: seq<Token>, i: nat, cache: Cache)
    requires NodeOk(tokens, i) && tokens[i].IsContainer() && CacheOk(tokens, i, cache)
    ensures Walking(tokens, i, i + 1, 0)
    ensures cache.lastIndex != -1 ==> Walking(tokens, i, cache.lastToken, cache.lastIndex * Width(tokens, i))
  {
    assert Children(tokens, i)[0..] == Children(tokens, i);
    if cache.lastIndex != -1 {
      NodesBehind(tokens, i + 1, tokens[i].kind == DictToken, false, cache.lastIndex * Width(tokens, i));
    }
  }

  /** One link further, unless the end is there. */
  lemma {:induction false} WalksOn(tokens: seq<Token>, i: nat, token: nat, child: nat)
    requires NodeOk(tokens, i) && tokens[i].IsContainer() && Walking(tokens, i, token, child)
    ensures token < |tokens| && (tokens[token].kind == EndToken <==> child == |Children(tokens, i)|)
    ensures child < |Children(tokens, i)| ==>
              && token == Children(tokens, i)[child] && token + tokens[token].nextItem < |tokens|
              && 0 < tokens[token].nextItem && Walking(tokens, i, token + tokens[token].nextItem, child + 1)
  {
    var all, isDict := Children(tokens, i), tokens[i].kind == DictToken;
    if child < |all| {
      assert ItemsOk(tokens, token + tokens[token].nextItem, isDict, isDict && (child + 1) % 2 == 1);
      assert all[child] == all[child..][0];
      assert all[child..][1..] == all[child + 1..];
    }
  }

  /** `list_at`, on a list that can be walked. */
  method ListAt(tokens: seq<Token>, i: nat, n: nat, cache: Cache) returns (token: nat, cache': Cache)
    requires NodeOk(tokens, i) && tokens[i].kind == ListToken && CacheOk(tokens, i, cache)
    requires n < |Children(tokens, i)|
    ensures token == Children(tokens, i)[n] && CacheOk(tokens, i, cache')
  {
    hide ItemsOk, NodesFrom, NodeOk, Walking;
    WalkFromCache(tokens, i, cache);
    token := i + 1;
    var item := 0;
    if cache.lastIndex <= n && cache.lastIndex != -1 {
      token, item := cache.lastToken, cache.lastIndex;
    }
    while item < n
      invariant 0 <= item <= n && Walking(tokens, i, token, item)
    {
      WalksOn(tokens, i, token, item);
      token, item := token + tokens[token].nextItem, item + 1;
    }
    WalksOn(tokens, i, token, n);
    cache' := cache.(lastIndex := n, lastToken := token);
  }

  /** `dict_at_node`, on a dictionary that can be walked: a key, which is a string, and its value. */
  method DictAtNode(tokens: seq<Token>, i: nat, n: nat, cache: Cache)
    returns (key: nat, value: nat, cache': Cache)
    requires NodeOk(tokens, i) && tokens[i].kind == DictToken && CacheOk(tokens, i, cache)
    requires 2 * n < |Children(tokens, i)|
    ensures 2 * n + 1 < |Children(tokens, i)| && key == Children(tokens, i)[2 * n]
    ensures value == Children(tokens, i)[2 * n + 1] && CacheOk(tokens, i, cache')
    ensures key < |tokens| && tokens[key].IsString()
  {
    hide ItemsOk, NodesFrom, NodeOk, Walking;
    WalkFromCache(tokens, i, cache);
    ChildrenAreOk(tokens, i);
    key := i + 1;
    var item := 0;
    if cache.lastIndex <= n && cache.lastIndex != -1 {
      key, item := cache.lastToken, cache.lastIndex;
    }
    while item < n
      invariant 0 <= item <= n && Walking(tokens, i, key, 2 * item)
    {
      WalksOn(tokens, i, key, 2 * item);
      // skip the key
      key := key + tokens[key].nextItem;
      WalksOn(tokens, i, key, 2 * item + 1);
      // skip the value
      key := key + tokens[key].nextItem;
      item := item + 1;
    }
    WalksOn(tokens, i, key, 2 * n);
    cache' := if n > 0 then cache.(lastIndex := n, lastToken := key) else cache;
    value := key + tokens[key].nextItem;
    WalksOn(tokens, i, value, 2 * n + 1);
  }

  /** `list_size` and `dict_size`, which only differ in what an entry is, on what can be walked. */
  method CountEntries(tokens: seq<Token>, i: nat, cache: Cache) returns (ret: int, cache': Cache)
    requires NodeOk(tokens, i) && tokens[i].IsContainer() && CacheOk(tokens, i, cache)
    ensures ret * Width(tokens, i) == |Children(tokens, i)| && CacheOk(tokens, i, cache')
  {
    if cache.size != -1 {
      return cache.size, cache;
    }
    WalkFromCache(tokens, i, cache);
    ChildrenAreOk(tokens, i);
    var token := i + 1;
    ret := 0;
    if cache.lastIndex != -1 {
      token, ret := cache.lastToken, cache.lastIndex * Width(tokens, i);
    }
    while token < |tokens| && tokens[token].kind != EndToken
      invariant 0 <= ret && Walking(tokens, i, token, ret)
      decreases |tokens| - token
    {
      WalksOn(tokens, i, token, ret);
      token, ret := token + tokens[token].nextItem, ret + 1;
    }
    WalksOn(tokens, i, token, ret);
    ret := ret / Width(tokens, i);
    cache' := cache.(size := ret);
  }

  /** `data_section`: what is between a node and where its link leads is a part of what was read. */
  method DataSection(tokens: seq<Token>, buffer: Bytes, i: nat, ghost size: nat) returns (data: Bytes)
    requires Inside(tokens, i) && Rising(tokens, 0, size) && size <= |buffer|
    ensures tokens[i].offset <= tokens[i + tokens[i].nextItem].offset <= size
    ensures data == buffer[tokens[i].offset..tokens[i + tokens[i].nextItem].offset]
  {
    var next := tokens[i + tokens[i].nextItem];
    data := buffer[tokens[i].offset..next.offset];
  }

  /** `text` is what a node says that its string is: it lies between the length and where the link leads. */
  ghost predicate HasText(tokens: seq<Token>, buffer: Bytes, i: nat, text: Bytes) {
    && i < |tokens| && i + tokens[i].nextItem < |tokens|
    && tokens[i].ContentStart() <= tokens[i + tokens[i].nextItem].offset <= |buffer|
    && text == buffer[tokens[i].ContentStart()..tokens[i + tokens[i].nextItem].offset]
  }

  /** `string_value`, of a string in a repaired array too. */
  method StringValue(tokens: seq<Token>, buffer: Bytes, i: nat, ghost size: nat) returns (text: Bytes)
    requires Inside(tokens, i) && tokens[i].IsString() && Rising(tokens, 0, size) && size <= |buffer|
    ensures HasText(tokens, buffer, i, text)
  {
    var next := tokens[i + tokens[i].nextItem];
    text := buffer[tokens[i].offset + tokens[i].StartOffset()..next.offset];
  }

  /** `int_value`, of an integer in a repaired array too: it has tokens of complete integers only. */
  method IntValue(tokens: seq<Token>, buffer: Bytes, i: nat, ghost size: nat) returns (val: int)
    requires Inside(tokens, i) && tokens[i].kind == IntegerToken && IntsStand(tokens, buffer, size) && size <= |buffer|
    ensures IntStands(buffer, tokens[i].offset)
    ensures var o := tokens[i].offset;
      IntBody(buffer[o + 1..IntEnd(buffer, o)]) && val == BdecodeNode.IntValueOf(buffer[o + 1..IntEnd(buffer, o)])
  {
    var t := tokens[i];
    assert TokenStands(tokens, i, buffer, size);
    IntegerBody(buffer, t.offset + 1, IntEnd(buffer, t.offset));
    ghost var body := buffer[t.offset + 1..IntEnd(buffer, t.offset)];
    var span := tokens[i + t.nextItem].offset - t.offset;
    var ptr := t.offset + 1;
    var last := if ptr + span < |buffer| then ptr + span else |buffer|;
    assert buffer[ptr] == body[0];
    val := BdecodeNode.SignedAt(buffer, ptr, last, body);
  }

  /** Entry `n` of a dictionary has that key. */
  ghost predicate HasKey(tokens: seq<Token>, buffer: Bytes, i: nat, n: nat, key: Bytes)
    requires NodeOk(tokens, i) && tokens[i].kind == DictToken
  {
    2 * n + 1 < |Children(tokens, i)| && HasText(tokens, buffer, Children(tokens, i)[2 * n], key)
  }

  /** Entry `n` is the first one with that key. */
  ghost predicate FirstWith(tokens: seq<Token>, buffer: Bytes, i: nat, n: nat, key: Bytes)
    requires NodeOk(tokens, i) && tokens[i].kind == DictToken
  {
    HasKey(tokens, buffer, i, n, key) && forall k :: 0 <= k < n ==> !HasKey(tokens, buffer, i, k, key)
  }

  /**
   `dict_find`, on any dictionary that can be walked: the value of the first entry whose key has that text, or none. It
   stays inside, and ends.
   */
  method DictFind(tokens: seq<Token>, buffer: Bytes, i: nat, key: Bytes, ghost size: nat)
    returns (found: bool, token: nat)
    requires NodeOk(tokens, i) && tokens[i].kind == DictToken && Rising(tokens, 0, size) && size <= |buffer|
    ensures found <==> exists n: nat :: HasKey(tokens, buffer, i, n, key)
    ensures found ==>
              exists n: nat :: FirstWith(tokens, buffer, i, n, key) && token == Children(tokens, i)[2 * n + 1]
  {
    hide ItemsOk, NodesFrom, NodeOk, Walking, Rising, HasText;
    ghost var all := Children(tokens, i);
    WalkFromCache(tokens, i, NOTHING);
    ChildrenAreOk(tokens, i);
    WalksOn(tokens, i, i + 1, 0);
    found, token := false, i + 1;
    ghost var n := 0;
    while tokens[token].kind != EndToken
      invariant 2 * n <= |all| && Walking(tokens, i, token, 2 * n)
      invariant token < |tokens| && (tokens[token].kind == EndToken <==> 2 * n == |all|)
      invariant forall k :: 0 <= k < n ==> !HasKey(tokens, buffer, i, k, key)
      decreases |tokens| - token
    {
      WalksOn(tokens, i, token, 2 * n);
      var text := StringValue(tokens, buffer, token, size);
      OneText(tokens, buffer, token, text, key);
      // skip key
      token := token + tokens[token].nextItem;
      WalksOn(tokens, i, token, 2 * n + 1);
      if text == key {
        assert FirstWith(tokens, buffer, i, n, key);
        found := true;
        return;
      }
      // skip value
      token := token + tokens[token].nextItem;
      n := n + 1;
      WalksOn(tokens, i, token, 2 * n);
    }
  }

  lemma {:induction false} OneText(tokens: seq<Token>, buffer: Bytes, i: nat, text: Bytes, other: Bytes)
    requires HasText(tokens, buffer, i, text)
    ensures HasText(tokens, buffer, i, other) <==> other == text
  {}
}
