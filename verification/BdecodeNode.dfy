/**
 libtorrent's `bdecode_node`: a cursor into the token array, which remembers the last child that was looked up and the
 number of children. What it answers is what the value it stands on says, whatever it remembers.
 */
module BdecodeNode {
  import opened Bytes
  import opened BencodeGrammar
  import opened BdecodeScan
  import opened BdecodeTokens
  import opened BdecodeNavigation

  // ----- where the children of a container are

  /**
   The value `t` is laid out at token `i` and stands at `offset` in the buffer; a token follows that says where it ends.
   */
  ghost predicate Located(tokens: seq<Token>, buffer: Bytes, i: nat, t: Tree, offset: nat) {
    var n, end := TokenCount(t), offset + |Render(t)|;
    && Lax(t)
    && i + n < |tokens| && tokens[i..i + n] == Flat(t, offset) && tokens[i + n].offset == end
    && end <= |buffer| && buffer[offset..end] == Render(t)
  }

  function ChildIndex(i: nat, items: seq<Tree>, k: nat): nat
    requires k <= |items|
  {
    i + 1 + |LexemesAll(items[..k])|
  }

  function ChildOffset(offset: nat, items: seq<Tree>, k: nat): nat
    requires k <= |items|
  {
    offset + 1 + |RenderAll(items[..k])|
  }

  function ItemsOf(t: Tree): seq<Tree> {
    match t
    case TList(items) => items
    case TDict(items) => items
    case _ => []
  }

  lemma {:induction false} FirstChild(token: nat, t: Tree)
    ensures ChildIndex(token, ItemsOf(t), 0) == token + 1
  {
    assert ItemsOf(t)[..0] == [];
  }

  lemma {:induction false} OneMoreItem(items: seq<Tree>, k: nat)
    requires k < |items|
    ensures LexemesAll(items[..k + 1]) == LexemesAll(items[..k]) + Lexemes(items[k])
    ensures RenderAll(items[..k + 1]) == RenderAll(items[..k]) + Render(items[k])
  {
    OneMore(items, k);
    InitOfAppend(items[..k], items[k]);
  }

  lemma {:induction false} FlatOneMore(items: seq<Tree>, k: nat, offset: nat)
    requires k < |items|
    ensures FlatAll(items[..k + 1], offset)
         == FlatAll(items[..k], offset) + Flat(items[k], offset + |RenderAll(items[..k])|)
  {
    OneMore(items, k);
    InitOfAppend(items[..k], items[k]);
  }

  /** The items up to `k` are laid out first. */
  lemma {:induction false} FlatAllPrefix(items: seq<Tree>, k: nat, offset: nat)
    requires k <= |items|
    ensures FlatAll(items[..k], offset) <= FlatAll(items, offset)
    ensures RenderAll(items[..k]) <= RenderAll(items)
    decreases |items| - k
  {
    if k == |items| {
      TakeAll(items);
    } else {
      FlatAllPrefix(items, k + 1, offset);
      FlatOneMore(items, k, offset);
      OneMoreItem(items, k);
    }
  }

  lemma {:induction false} PrefixInside<T>(whole: seq<T>, a: seq<T>, b: seq<T>)
    requires a + b <= whole
    ensures |a| + |b| <= |whole| && whole[|a|..|a| + |b|] == b
  {
    assert whole[..|a + b|] == a + b;
    assert whole[|a|..|a| + |b|] == whole[..|a + b|][|a|..];
  }

  lemma {:induction false} InsideBracketed<T>(s: seq<T>, i: nat, x: T, inner: seq<T>, y: T)
    requires i + |inner| + 2 <= |s| && s[i..i + |inner| + 2] == [x] + inner + [y]
    ensures s[i] == x && s[i + 1..i + 1 + |inner|] == inner && s[i + 1 + |inner|] == y
  {
    var whole := s[i..i + |inner| + 2];
    assert s[i] == whole[0] && s[i + 1 + |inner|] == whole[1 + |inner|];
    SliceOfSlice(s, i, |whole|, 1, 1 + |inner|);
    assert whole[1..1 + |inner|] == inner;
  }

  lemma {:induction false} InsideSlice<T>(s: seq<T>, i: nat, inner: seq<T>, from: nat, to: nat)
    requires i + |inner| <= |s| && s[i..i + |inner|] == inner && from <= to <= |inner|
    ensures s[i + from..i + to] == inner[from..to]
    ensures from < |inner| ==> s[i + from] == inner[from]
  {
    SliceOfSlice(s, i, |inner|, from, to);
  }

  /** The tokens of item `k`. */
  lemma {:induction false} ItemTokens(items: seq<Tree>, k: nat, offset: nat)
    requires k < |items|
    ensures var from, to := |LexemesAll(items[..k])|, |LexemesAll(items[..k + 1])|;
      from <= to <= |LexemesAll(items)|
      && FlatAll(items, offset)[from..to] == Flat(items[k], offset + |RenderAll(items[..k])|)
  {
    FlatAllPrefix(items, k + 1, offset);
    FlatOneMore(items, k, offset);
    PrefixInside(FlatAll(items, offset), FlatAll(items[..k], offset), Flat(items[k], offset + |RenderAll(items[..k])|));
    OneMoreItem(items, k);
  }

  lemma {:induction false} ItemText(items: seq<Tree>, k: nat)
    requires k < |items|
    ensures var from, to := |RenderAll(items[..k])|, |RenderAll(items[..k + 1])|;
      from <= to <= |RenderAll(items)| && RenderAll(items)[from..to] == Render(items[k])
  {
    FlatAllPrefix(items, k + 1, 0);
    OneMoreItem(items, k);
    PrefixInside(RenderAll(items), RenderAll(items[..k]), Render(items[k]));
  }

  /** The token behind the first `k` items says where they end. */
  lemma {:induction false} TokenBehind(tokens: seq<Token>, buffer: Bytes, i: nat, t: Tree, offset: nat, k: nat)
    requires Located(tokens, buffer, i, t, offset) && (t.TList? || t.TDict?) && k <= |ItemsOf(t)|
    ensures var j := ChildIndex(i, ItemsOf(t), k);
      && j < i + TokenCount(t) < |tokens| && tokens[j].offset == ChildOffset(offset, ItemsOf(t), k)
      && (tokens[j].kind == EndToken <==> k == |ItemsOf(t)|)
  {
    var items := ItemsOf(t);
    ContainerTokens(tokens, i, t, offset);
    if k == |items| {
      TakeAll(items);
    } else {
      var _ := ItemToken(tokens, i + 1, items, k, offset + 1);
    }
  }

  /** The token of item `k`, where the tokens of the items begin at `first`. */
  lemma {:induction false} ItemToken(tokens: seq<Token>, first: nat, items: seq<Tree>, k: nat, offset: nat)
    returns (from: nat)
    requires k < |items| && first + |LexemesAll(items)| <= |tokens|
    requires tokens[first..first + |LexemesAll(items)|] == FlatAll(items, offset)
    ensures from == |LexemesAll(items[..k])| < |LexemesAll(items)|
    ensures tokens[first + from].kind != EndToken && tokens[first + from].offset == offset + |RenderAll(items[..k])|
  {
    from := |LexemesAll(items[..k])|;
    ItemHead(items, k, offset);
    InsideSlice(tokens, first, FlatAll(items, offset), from, from);
  }

  lemma {:induction false} ItemHead(items: seq<Tree>, k: nat, offset: nat)
    requires k < |items|
    ensures |LexemesAll(items[..k])| < |LexemesAll(items)|
    ensures var head := FlatAll(items, offset)[|LexemesAll(items[..k])|];
      && head.offset == offset + |RenderAll(items[..k])| && head.kind != EndToken
      && head.nextItem == |LexemesAll(items[..k + 1])| - |LexemesAll(items[..k])|
      && (head.IsString() <==> items[k].TStr?)
  {
    var from, to := |LexemesAll(items[..k])|, |LexemesAll(items[..k + 1])|;
    ItemTokens(items, k, offset);
    OneMoreItem(items, k);
    FlatHead(items[k], offset + |RenderAll(items[..k])|);
    assert FlatAll(items, offset)[from] == FlatAll(items, offset)[from..to][0];
  }

  lemma {:induction false} ContainerTokens(tokens: seq<Token>, i: nat, t: Tree, offset: nat)
    requires (t.TList? || t.TDict?) && i + TokenCount(t) <= |tokens| && tokens[i..i + TokenCount(t)] == Flat(t, offset)
    ensures var items := ItemsOf(t);
      && TokenCount(t) == |LexemesAll(items)| + 2
      && tokens[i].kind == ContainerType(t.TDict?)
      && tokens[i + 1..i + 1 + |LexemesAll(items)|] == FlatAll(items, offset + 1)
      && tokens[i + 1 + |LexemesAll(items)|] == Token(offset + 1 + |RenderAll(items)|, EndToken, 1, 0)
  {
    var items := ItemsOf(t);
    var x := Token(offset, ContainerType(t.TDict?), |LexemesAll(items)| + 2, 0);
    var y := Token(offset + 1 + |RenderAll(items)|, EndToken, 1, 0);
    assert Flat(t, offset) == [x] + FlatAll(items, offset + 1) + [y];
    InsideBracketed(tokens, i, x, FlatAll(items, offset + 1), y);
  }

  lemma {:induction false} ContainerText(buffer: Bytes, t: Tree, offset: nat)
    requires (t.TList? || t.TDict?) && offset + |Render(t)| <= |buffer|
      && buffer[offset..offset + |Render(t)|] == Render(t)
    ensures |Render(t)| == |RenderAll(ItemsOf(t))| + 2
    ensures buffer[offset + 1..offset + 1 + |RenderAll(ItemsOf(t))|] == RenderAll(ItemsOf(t))
  {
    InsideBracketed(buffer, offset, OpenByte(t.TDict?), RenderAll(ItemsOf(t)), LETTER_E);
  }

  /** Every item of a container is located, where the links of the items in front of it lead. */
  lemma {:induction false} LocatedChild(tokens: seq<Token>, buffer: Bytes, i: nat, t: Tree, offset: nat, k: nat)
    requires Located(tokens, buffer, i, t, offset) && (t.TList? || t.TDict?) && k < |ItemsOf(t)|
    ensures var items, j := ItemsOf(t), ChildIndex(i, ItemsOf(t), k);
      && Located(tokens, buffer, j, items[k], ChildOffset(offset, items, k))
      && tokens[j].nextItem == ChildIndex(i, items, k + 1) - j
      && (tokens[j].IsString() <==> items[k].TStr?)
  {
    var items, j, at := ItemsOf(t), ChildIndex(i, ItemsOf(t), k), ChildOffset(offset, ItemsOf(t), k);
    ChildTokens(tokens, i, t, offset, k);
    ChildText(buffer, t, offset, k);
    TokenBehind(tokens, buffer, i, t, offset, k + 1);
    ItemIsLax(t, k);
    OneMoreItem(items, k);
  }

  lemma {:induction false} ChildTokens(tokens: seq<Token>, i: nat, t: Tree, offset: nat, k: nat)
    requires (t.TList? || t.TDict?) && i + TokenCount(t) <= |tokens| && tokens[i..i + TokenCount(t)] == Flat(t, offset)
    requires k < |ItemsOf(t)|
    ensures var items, j := ItemsOf(t), ChildIndex(i, ItemsOf(t), k);
      && ChildIndex(i, items, k + 1) == j + TokenCount(items[k]) < i + TokenCount(t)
      && tokens[j..j + TokenCount(items[k])] == Flat(items[k], ChildOffset(offset, items, k))
      && tokens[j].nextItem == TokenCount(items[k])
      && (tokens[j].IsString() <==> items[k].TStr?)
  {
    hide Flat, FlatAll, Render, RenderAll;
    var flat, from, n := ItemInside(ItemsOf(t), k, offset + 1);
    ContainerTokens(tokens, i, t, offset);
    TokensInside(tokens, i, flat, from, n);
    FlatHead(ItemsOf(t)[k], ChildOffset(offset, ItemsOf(t), k));
  }

  lemma {:induction false} ItemInside(items: seq<Tree>, k: nat, offset: nat)
    returns (flat: seq<Token>, from: nat, n: nat)
    requires k < |items|
    ensures flat == FlatAll(items, offset) && from == |LexemesAll(items[..k])| && n == TokenCount(items[k]) > 0
    ensures from + n == |LexemesAll(items[..k + 1])| <= |flat| == |LexemesAll(items)|
    ensures flat[from..from + n] == Flat(items[k], offset + |RenderAll(items[..k])|)
  {
    flat, from, n := FlatAll(items, offset), |LexemesAll(items[..k])|, TokenCount(items[k]);
    OneMoreItem(items, k);
    ItemTokens(items, k, offset);
  }

  lemma {:induction false} TokensInside(tokens: seq<Token>, i: nat, flat: seq<Token>, from: nat, n: nat)
    requires i + 1 + |flat| <= |tokens| && tokens[i + 1..i + 1 + |flat|] == flat && 0 < n && from + n <= |flat|
    ensures var j := i + 1 + from; tokens[j..j + n] == flat[from..from + n] && tokens[j] == flat[from..from + n][0]
  {
    InsideSlice(tokens, i + 1, flat, from, from + n);
  }

  lemma {:induction false} ChildText(buffer: Bytes, t: Tree, offset: nat, k: nat)
    requires (t.TList? || t.TDict?) && offset + |Render(t)| <= |buffer|
      && buffer[offset..offset + |Render(t)|] == Render(t)
    requires k < |ItemsOf(t)|
    ensures var items, at := ItemsOf(t), ChildOffset(offset, ItemsOf(t), k);
      && ChildOffset(offset, items, k + 1) == at + |Render(items[k])| <= |buffer|
      && buffer[at..at + |Render(items[k])|] == Render(items[k])
  {
    var items := ItemsOf(t);
    ContainerText(buffer, t, offset);
    OneMoreItem(items, k);
    ItemText(items, k);
    InsideSlice(buffer, offset + 1, RenderAll(items), |RenderAll(items[..k])|, |RenderAll(items[..k + 1])|);
  }

  lemma {:induction false} ItemIsLax(t: Tree, k: nat)
    requires Lax(t) && (t.TList? || t.TDict?) && k < |ItemsOf(t)|
    ensures Lax(ItemsOf(t)[k])
  {}

  /** How many tokens of a container make up one entry. */
  function EntrySize(t: Tree): nat {
    if t.TDict? then 2 else 1
  }

  function EntryCount(t: Tree): nat {
    |ItemsOf(t)| / EntrySize(t)
  }

  /** A dictionary has a value for every key, and its keys are strings. */
  lemma {:induction false} LocatedKeys(tokens: seq<Token>, buffer: Bytes, i: nat, t: Tree, offset: nat)
    requires Located(tokens, buffer, i, t, offset) && t.TDict?
    ensures |t.items| == 2 * EntryCount(t) && KeysAreStrings(t.items)
  {}

  /** The number that an integer node gives: what it says, or 0 when that is beyond 64 bits. */
  function IntValueOf(body: Bytes): int
    requires IntBody(body)
  {
    var negative := body[0] == MINUS;
    var magnitude: int := Decimal(if negative then body[1..] else body);
    if magnitude > INT64_MAX then 0 else if negative then -magnitude else magnitude
  }

  /** The key of entry `k` of a dictionary. */
  function KeyAt(items: seq<Tree>, k: nat): Bytes
    requires 2 * k < |items| && items[2 * k].TStr?
  {
    items[2 * k].content
  }

  class Node {
    const tokens: seq<Token>
    const buffer: Bytes
    const tokenIdx: int
    var lastIndex: int
    var lastToken: int
    var size: int

    // the value the node stands on, and where in the buffer it is
    ghost const tree: Tree
    ghost const offset: nat

    /** A node that stands on nothing. */
    constructor None()
      ensures tokenIdx == -1 && lastIndex == -1 && size == -1
    {
      tokens, buffer, tokenIdx, lastIndex, lastToken, size := [], [], -1, -1, -1, -1;
      tree, offset := TInt([]), 0;
    }

    constructor (tokens: seq<Token>, buffer: Bytes, tokenIdx: nat, ghost tree: Tree, ghost offset: nat)
      requires Located(tokens, buffer, tokenIdx, tree, offset)
      ensures Valid() && this.tokens == tokens && this.buffer == buffer && this.tokenIdx == tokenIdx
      ensures this.tree == tree && this.offset == offset && lastIndex == -1 && size == -1
    {
      this.tokens, this.buffer, this.tokenIdx := tokens, buffer, tokenIdx;
      lastIndex, lastToken, size := -1, -1, -1;
      this.tree, this.offset := tree, offset;
    }

    ghost predicate Valid()
      reads this
    {
      tokenIdx >= 0 && Located(tokens, buffer, tokenIdx, tree, offset) && CacheOk()
    }

    /** What is remembered is an entry that exists, and where it is; and the number of entries. */
    ghost predicate CacheOk()
      requires tokenIdx >= 0
      reads this
    {
      && (lastIndex != -1 ==>
            && (tree.TList? || tree.TDict?) && 0 <= lastIndex < EntryCount(tree)
            && lastToken == ChildIndex(tokenIdx, ItemsOf(tree), EntrySize(tree) * lastIndex))
      && (size == -1 || size == EntryCount(tree))
    }

    ghost predicate IsChild(n: Node, k: nat)
      requires tokenIdx >= 0 && k < |ItemsOf(tree)|
      reads n
    {
      && n.Valid() && n.tokens == tokens && n.buffer == buffer && n.lastIndex == -1 && n.size == -1
      && n.tree == ItemsOf(tree)[k] && n.offset == ChildOffset(offset, ItemsOf(tree), k)
      && n.tokenIdx == ChildIndex(tokenIdx, ItemsOf(tree), k)
    }

    method Child(token: nat, ghost k: nat) returns (n: Node)
      requires Valid() && (tree.TList? || tree.TDict?) && k < |ItemsOf(tree)|
      requires token == ChildIndex(tokenIdx, ItemsOf(tree), k)
      ensures fresh(n) && IsChild(n, k)
    {
      LocatedChild(tokens, buffer, tokenIdx, tree, offset, k);
      n := new Node(tokens, buffer, token, ItemsOf(tree)[k], ChildOffset(offset, ItemsOf(tree), k));
    }

    /** From item `k`, along its link, to the next item or to the end of the container. */
    method Skip(token: int, ghost k: nat) returns (next: int)
      requires Valid() && (tree.TList? || tree.TDict?) && k < |ItemsOf(tree)|
      requires token == ChildIndex(tokenIdx, ItemsOf(tree), k)
      ensures next == ChildIndex(tokenIdx, ItemsOf(tree), k + 1) < |tokens|
      ensures tokens[next].kind == EndToken <==> k + 1 == |ItemsOf(tree)|
    {
      LocatedChild(tokens, buffer, tokenIdx, tree, offset, k);
      TokenBehind(tokens, buffer, tokenIdx, tree, offset, k + 1);
      next := token + tokens[token].nextItem;
    }

    /** Where to start from to get to entry `i`: the entry that is remembered, unless it is behind that. */
    method Start(i: int) returns (token: int, item: int)
      requires Valid() && (tree.TList? || tree.TDict?) && 0 <= i
      ensures 0 <= item <= i && EntrySize(tree) * item <= |ItemsOf(tree)|
      ensures token == ChildIndex(tokenIdx, ItemsOf(tree), EntrySize(tree) * item)
    {
      token, item := tokenIdx + 1, 0;
      assert ItemsOf(tree)[..0] == [];
      if lastIndex <= i && lastIndex != -1 {
        token, item := lastToken, lastIndex;
      }
    }

    /** Item `i` of a list. */
    method ListAt(i: int) returns (n: Node)
      requires Valid() && tree.TList? && 0 <= i < EntryCount(tree)
      modifies this`lastIndex, this`lastToken
      ensures Valid()
      ensures fresh(n) && IsChild(n, i)
    {
      hide Located, ChildIndex;
      var token, item := Start(i);
      while item < i
        invariant Valid() && 0 <= item <= i && token == ChildIndex(tokenIdx, ItemsOf(tree), item)
      {
        token := Skip(token, item);
        item := item + 1;
      }
      n := Child(token, i);
      lastToken, lastIndex := token, i;
    }

    /** The number of items of a list. */
    method ListSize() returns (ret: int)
      requires Valid() && tree.TList?
      modifies this`size
      ensures Valid() && ret == EntryCount(tree)
    {
      if size != -1 {
        return size;
      }
      var token := tokenIdx + 1;
      ret := 0;
      if lastIndex != -1 {
        token, ret := lastToken, lastIndex;
      }
      ret := CountItems(token, ret);
      size := ret;
    }

    /** Counts on from item `item` at `token`, to the end of the container. */
    method CountItems(token: int, item: int) returns (ret: int)
      requires Valid() && (tree.TList? || tree.TDict?) && 0 <= item <= |ItemsOf(tree)|
      requires token == if item == 0 then tokenIdx + 1 else ChildIndex(tokenIdx, ItemsOf(tree), item)
      ensures ret == |ItemsOf(tree)|
    {
      var t := token;
      ret := item;
      assert ItemsOf(tree)[..0] == [];
      TokenBehind(tokens, buffer, tokenIdx, tree, offset, ret);
      while tokens[t].kind != EndToken
        invariant 0 <= ret <= |ItemsOf(tree)| && t == ChildIndex(tokenIdx, ItemsOf(tree), ret) < |tokens|
        invariant tokens[t].kind == EndToken <==> ret == |ItemsOf(tree)|
        decreases |ItemsOf(tree)| - ret
      {
        t := Skip(t, ret);
        ret := ret + 1;
      }
    }

    /** The token of the key of entry `i` of a dictionary. */
    method KeyToken(i: int) returns (token: int)
      requires Valid() && tree.TDict? && 0 <= i < EntryCount(tree)
      ensures token == ChildIndex(tokenIdx, ItemsOf(tree), 2 * i)
    {
      hide Located, ChildIndex, EntryCount;
      LocatedKeys(tokens, buffer, tokenIdx, tree, offset);
      var item;
      token, item := Start(i);
      while item < i
        invariant Valid() && 0 <= item <= i && token == ChildIndex(tokenIdx, ItemsOf(tree), 2 * item)
      {
        // skip the key
        token := Skip(token, 2 * item);
        // skip the value
        token := Skip(token, 2 * item + 1);
        item := item + 1;
      }
    }

    /** Key and value of entry `i` of a dictionary. The first entry is not worth remembering. */
    method DictAtNode(i: int) returns (key: Node, value: Node)
      requires Valid() && tree.TDict? && 0 <= i < EntryCount(tree)
      modifies this`lastIndex, this`lastToken
      ensures Valid()
      ensures fresh(key) && IsChild(key, 2 * i) && fresh(value) && IsChild(value, 2 * i + 1) && key != value
    {
      var token := KeyToken(i);
      if i > 0 {
        lastToken, lastIndex := token, i;
      }
      var valueToken := Skip(token, 2 * i);
      key, value := EntryNodes(token, valueToken, i);
    }

    method EntryNodes(token: nat, valueToken: nat, ghost i: nat) returns (key: Node, value: Node)
      requires Valid() && tree.TDict? && 2 * i + 1 < |ItemsOf(tree)|
      requires token == ChildIndex(tokenIdx, ItemsOf(tree), 2 * i)
      requires valueToken == ChildIndex(tokenIdx, ItemsOf(tree), 2 * i + 1)
      ensures fresh(key) && IsChild(key, 2 * i) && fresh(value) && IsChild(value, 2 * i + 1) && key != value
    {
      key := Child(token, 2 * i);
      value := Child(valueToken, 2 * i + 1);
    }

    /** The number of entries of a dictionary. */
    method DictSize() returns (ret: int)
      requires Valid() && tree.TDict?
      modifies this`size
      ensures Valid() && ret == EntryCount(tree)
    {
      if size != -1 {
        return size;
      }
      var token := tokenIdx + 1;
      ret := 0;
      if lastIndex != -1 {
        ret, token := lastIndex * 2, lastToken;
      }
      ret := CountItems(token, ret);
      ret := ret / 2;
      size := ret;
    }

    /** Whether the key at `token`, of entry `k`, is `key`. */
    method KeyIs(token: int, ghost k: nat, key: Bytes) returns (same: bool)
      requires Valid() && tree.TDict? && k < EntryCount(tree)
      requires token == ChildIndex(tokenIdx, ItemsOf(tree), 2 * k)
      ensures tree.items[2 * k].TStr? && (same <==> KeyAt(tree.items, k) == key)
    {
      LocatedChild(tokens, buffer, tokenIdx, tree, offset, 2 * k);
      assert tree.items[2 * k].TStr?;
      var content := StringAt(tokens, buffer, token, tree.items[2 * k], ChildOffset(offset, tree.items, 2 * k));
      same := content == key;
    }

    /** The value of the first entry with that key, or a node that stands on nothing. */
    method DictFind(key: Bytes) returns (n: Node, ghost found: nat)
      requires Valid() && tree.TDict?
      ensures fresh(n) && found <= EntryCount(tree)
      ensures forall j :: 0 <= j < found ==> tree.items[2 * j].TStr? && KeyAt(tree.items, j) != key
      ensures found == EntryCount(tree) ==> n.tokenIdx == -1
      ensures found < EntryCount(tree) ==>
                tree.items[2 * found].TStr? && KeyAt(tree.items, found) == key && IsChild(n, 2 * found + 1)
    {
      hide Located, ChildIndex, EntryCount;
      LocatedKeys(tokens, buffer, tokenIdx, tree, offset);
      TokenBehind(tokens, buffer, tokenIdx, tree, offset, 0);
      FirstChild(tokenIdx, tree);
      var token := tokenIdx + 1;
      found := 0;
      while tokens[token].kind != EndToken
        invariant found <= EntryCount(tree) && token == ChildIndex(tokenIdx, ItemsOf(tree), 2 * found) < |tokens|
        invariant tokens[token].kind == EndToken <==> found == EntryCount(tree)
        invariant forall j :: 0 <= j < found ==> tree.items[2 * j].TStr? && KeyAt(tree.items, j) != key
        decreases EntryCount(tree) - found
      {
        var same := KeyIs(token, found, key);
        // skip key
        token := Skip(token, 2 * found);
        if same {
          n := Child(token, 2 * found + 1);
          return;
        }
        // skip value
        token := Skip(token, 2 * found + 1);
        found := found + 1;
      }
      n := new Node.None();
    }

    method IntValue() returns (val: int)
      requires Valid() && tree.TInt?
      ensures val == IntValueOf(tree.body)
    {
      val := IntAt(tokens, buffer, tokenIdx, tree, offset);
    }

    method StringValue() returns (content: Bytes)
      requires Valid() && tree.TStr?
      ensures content == tree.content
    {
      content := StringAt(tokens, buffer, tokenIdx, tree, offset);
    }

    /** The part of the buffer that the value was read from. */
    method DataSection() returns (data: Bytes)
      requires Valid()
      ensures data == Render(tree)
    {
      FlatHead(tree, offset);
      SliceOfSlice(tokens, tokenIdx, TokenCount(tree), 0, 0);
      var t := tokens[tokenIdx];
      var next := tokens[tokenIdx + t.nextItem];
      data := buffer[t.offset..next.offset];
    }
  }

  /** The contents of the string token at `i`: what is between its header and the token behind it. */
  method StringAt(tokens: seq<Token>, buffer: Bytes, i: nat, ghost t: Tree, ghost offset: nat) returns (content: Bytes)
    requires Located(tokens, buffer, i, t, offset) && t.TStr?
    ensures content == t.content
  {
    LeafToken(tokens, buffer, i, t, offset);
    var token := tokens[i];
    var size := tokens[i + 1].offset - token.offset - token.StartOffset();
    ghost var text := t.digits + [COLON] + t.content;
    SliceOfSlice(buffer, offset, |text|, |t.digits| + 1, |text|);
    assert text[|t.digits| + 1..] == t.content;
    content := buffer[token.offset + token.StartOffset()..token.offset + token.StartOffset() + size];
  }

  method IntAt(tokens: seq<Token>, buffer: Bytes, i: nat, ghost t: Tree, ghost offset: nat) returns (val: int)
    requires Located(tokens, buffer, i, t, offset) && t.TInt?
    ensures val == IntValueOf(t.body)
  {
    LeafToken(tokens, buffer, i, t, offset);
    var token := tokens[i];
    var size := tokens[i + 1].offset - token.offset;
    ghost var body := t.body;
    assert |Render(t)| == |body| + 2;
    IntegerAt(buffer, offset, body);
    var ptr := token.offset + 1;
    // the end is meant to be that of the token, but is one byte behind it; the scan stops at the 'e' in any case
    var last := if ptr + size < |buffer| then ptr + size else |buffer|;
    assert ptr == offset + 1 && ptr + |body| < last <= |buffer|;
    val := SignedAt(buffer, ptr, last, body);
  }

  /** The number of an integer whose body stands at `ptr`. */
  method SignedAt(buffer: Bytes, ptr: nat, last: nat, ghost body: Bytes) returns (val: int)
    requires IntBody(body) && ptr + |body| < last <= |buffer|
    requires buffer[ptr..ptr + |body|] == body && buffer[ptr] == body[0] && buffer[ptr + |body|] == LETTER_E
    ensures val == IntValueOf(body)
  {
    var negative := buffer[ptr] == MINUS;
    ghost var magnitude := IntegerMagnitude(buffer, ptr, body);
    val := DigitsAt(buffer, ptr + if negative then 1 else 0, last, magnitude);
    if negative {
      val := -val;
    }
  }

  /** The number that the digits from `first` on spell, or 0 when it does not fit. */
  method DigitsAt(buffer: Bytes, first: nat, last: nat, ghost digits: Bytes) returns (val: int)
    requires first + |digits| < last <= |buffer| && AllDigits(digits)
    requires buffer[first..first + |digits|] == digits && buffer[first + |digits|] == LETTER_E
    ensures val == if Decimal(digits) > INT64_MAX then 0 else Decimal(digits)
  {
    DigitsEnd(buffer, first, last, digits);
    var end, v, ec := ParseInt(buffer, first, last, LETTER_E, 0);
    if ec == Overflow {
      InsideSlice(buffer, first, digits, 0, end + 1 - first);
      DecimalFromMonotone(0, digits, end + 1 - first);
    }
    val := if ec != NoError then 0 else v;
  }

  lemma {:induction false} DigitsEnd(buffer: Bytes, first: nat, last: nat, digits: Bytes)
    requires first + |digits| < last <= |buffer| && AllDigits(digits)
    requires buffer[first..first + |digits|] == digits && buffer[first + |digits|] == LETTER_E
    ensures DigitRun(buffer[..last], first) == |digits|
  {
    forall k | first <= k < first + |digits|
      ensures Numeric(buffer[..last][k])
    {
      assert buffer[first..first + |digits|][k - first] == digits[k - first];
    }
    DigitRunIs(buffer[..last], first, |digits|);
  }

  lemma {:induction false} LeafToken(tokens: seq<Token>, buffer: Bytes, i: nat, t: Tree, offset: nat)
    requires Located(tokens, buffer, i, t, offset) && (t.TInt? || t.TStr?)
    ensures tokens[i].offset == offset && tokens[i + 1].offset == offset + |Render(t)| <= |buffer|
    ensures buffer[offset..offset + |Render(t)|] == Render(t)
    ensures t.TStr? ==> tokens[i].IsString() && tokens[i].StartOffset() == |t.digits| + 1
  {
    SliceOfSlice(tokens, i, 1, 0, 0);
  }

  lemma {:induction false} IntegerAt(buffer: Bytes, offset: nat, body: Bytes)
    requires IntBody(body) && offset + |body| + 2 <= |buffer|
    requires buffer[offset..offset + |body| + 2] == Render(TInt(body))
    ensures buffer[offset + 1..offset + 1 + |body|] == body && buffer[offset + 1] == body[0]
    ensures buffer[offset + 1 + |body|] == LETTER_E
  {
    InsideBracketed(buffer, offset, LETTER_I, body, LETTER_E);
    InsideSlice(buffer, offset + 1, body, 0, 0);
  }

  /** The digits of an integer, which stand behind its sign. */
  lemma {:induction false} IntegerMagnitude(buffer: Bytes, ptr: nat, body: Bytes) returns (digits: Bytes)
    requires IntBody(body) && ptr + |body| <= |buffer| && buffer[ptr..ptr + |body|] == body
    ensures digits == if body[0] == MINUS then body[1..] else body
    ensures var sign := if body[0] == MINUS then 1 else 0;
      var first := ptr + sign;
      && AllDigits(digits) && |digits| == |body| - sign && buffer[first..first + |digits|] == digits
  {
    var sign := if body[0] == MINUS then 1 else 0;
    digits := if body[0] == MINUS then body[1..] else body;
    InsideSlice(buffer, ptr, body, sign, |body|);
  }

  // ----- any lookups, in any order

  datatype Query = ListItem(i: int) | ListLength | DictEntry(i: int) | DictLength

  /** A lookup answers with a number of entries, or with the tokens that it leads to. */
  datatype Answer = Length(n: int) | At(token: int) | Entry(key: int, value: int)

  predicate InRange(t: Tree, q: Query) {
    match q
    case ListItem(i) => t.TList? && 0 <= i < |t.items|
    case ListLength => t.TList?
    case DictEntry(i) => t.TDict? && 0 <= i < |t.items| / 2
    case DictLength => t.TDict?
  }

  /** What a walk over the value answers that remembers nothing. */
  function Uncached(i: nat, t: Tree, q: Query): Answer
    requires InRange(t, q)
  {
    match q
    case ListItem(k) => At(ChildIndex(i, t.items, k))
    case ListLength => Length(|t.items|)
    case DictEntry(k) =>
      assert 2 * k + 1 < |t.items|;
      Entry(ChildIndex(i, t.items, 2 * k), ChildIndex(i, t.items, 2 * k + 1))
    case DictLength => Length(|t.items| / 2)
  }

  method Ask(node: Node, q: Query) returns (a: Answer)
    requires node.Valid() && InRange(node.tree, q)
    modifies node
    ensures node.Valid() && a == Uncached(node.tokenIdx, node.tree, q)
  {
    match q
    case ListItem(i) =>
      var n := node.ListAt(i);
      a := At(n.tokenIdx);
    case ListLength =>
      var n := node.ListSize();
      a := Length(n);
    case DictEntry(i) =>
      var key, value := node.DictAtNode(i);
      a := Entry(key.tokenIdx, value.tokenIdx);
    case DictLength =>
      var n := node.DictSize();
      a := Length(n);
  }

  /** The caches are invisible: every lookup answers as if it were the first. */
  method AskAll(node: Node, qs: seq<Query>) returns (answers: seq<Answer>)
    requires node.Valid() && forall k :: 0 <= k < |qs| ==> InRange(node.tree, qs[k])
    modifies node
    ensures node.Valid() && |answers| == |qs|
    ensures forall k :: 0 <= k < |qs| ==> answers[k] == Uncached(node.tokenIdx, node.tree, qs[k])
  {
    answers := [];
    for n := 0 to |qs|
      invariant node.Valid() && |answers| == n
      invariant forall k :: 0 <= k < n ==> answers[k] == Uncached(node.tokenIdx, node.tree, qs[k])
    {
      var a := Ask(node, qs[n]);
      answers := answers + [a];
    }
  }
}
