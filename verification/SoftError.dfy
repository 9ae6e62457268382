/**
 `bdecode_node::has_soft_error`: one scan over the flat array of a value finds everything in it that is not canonical
 bencoding, at any depth, comparing only neighbouring keys.
 */
module SoftError {
  import opened Bytes
  import opened BencodeGrammar
  import opened BdecodeTokens
  import opened BdecodeNavigation
  import opened BdecodeNode

  // ----- canonical values

  /** Every key comes before all later ones. */
  ghost predicate KeysIncrease(items: seq<Tree>)
    requires KeysAreStrings(items)
  {
    forall i, j :: 0 <= i < j < (|items| + 1) / 2 ==> Before(KeyAt(items, i), KeyAt(items, j))
  }

  /**
   No string length and no integer starts with a superfluous zero, and the keys of every dictionary are in order and
   without repetition. Zeros behind a minus sign are not looked at: `-0` and `-01` pass.
   */
  ghost predicate Canonical(t: Tree)
    requires Lax(t)
  {
    match t
    case TInt(body) => body[0] == DIGIT_0 ==> |body| == 1
    case TStr(digits, _) => digits[0] == DIGIT_0 ==> |digits| == 1
    case TList(items) => forall i :: 0 <= i < |items| ==> Canonical(items[i])
    case TDict(items) => KeysIncrease(items) && forall i :: 0 <= i < |items| ==> Canonical(items[i])
  }

  // ----- the order of the keys

  /** The sign of `memcmp` over the first `n` bytes. */
  function Compare(a: Bytes, b: Bytes, n: nat): int
    requires n <= |a| && n <= |b|
  {
    if n == 0 then 0
    else if a[0] < b[0] then -1
    else if a[0] > b[0] then 1
    else Compare(a[1..], b[1..], n - 1)
  }

  lemma {:induction false} CompareDecides(a: Bytes, b: Bytes)
    ensures var n := if |a| < |b| then |a| else |b|;
      Less(a, b) <==> Compare(a, b, n) < 0 || (Compare(a, b, n) == 0 && |a| < |b|)
  {
    if a != [] && b != [] && a[0] == b[0] {
      CompareDecides(a[1..], b[1..]);
    }
  }

  /** Neighbours in order up to key `n` are all in order. */
  lemma {:induction false} NeighboursSuffice(items: seq<Tree>, i: nat, j: nat)
    requires KeysAreStrings(items) && i < j && 2 * j < |items|
    requires forall k :: 0 < k <= j ==> Less(KeyAt(items, k - 1), KeyAt(items, k))
    ensures Less(KeyAt(items, i), KeyAt(items, j))
    decreases j
  {
    if i < j - 1 {
      NeighboursSuffice(items, i, j - 1);
      LessIsTransitive(KeyAt(items, i), KeyAt(items, j - 1), KeyAt(items, j));
    }
  }

  /** The loop at the end token of a dictionary that is not empty. */
  method KeysInOrder(tokens: seq<Token>, buffer: Bytes, parent: nat, token: nat, ghost t: Tree, ghost offset: nat)
    returns (inOrder: bool)
    requires Located(tokens, buffer, parent, t, offset) && t.TDict? && t.items != []
    requires token == ChildIndex(parent, t.items, |t.items|)
    ensures inOrder <==> KeysIncrease(t.items)
  {
    hide Located, Lax, ChildIndex, Before;
    LocatedKeys(tokens, buffer, parent, t, offset);
    FirstChild(parent, t);
    var k1 := parent + 1;
    ghost var k := 0;
    while true
      invariant 2 * k < |t.items| && k1 == ChildIndex(parent, t.items, 2 * k)
      invariant forall j :: 0 < j <= k ==> Less(KeyAt(t.items, j - 1), KeyAt(t.items, j))
      decreases |t.items| - k
    {
      // skip to the first key's value, and then to the next key
      var key1, k2 := EntryAt(tokens, buffer, parent, t, offset, k1, k);
      ChildIndexGrows(parent, t.items, 2 * k + 2, |t.items|);
      if k2 == token {
        break;
      }
      var key2, _ := EntryAt(tokens, buffer, parent, t, offset, k2, k + 1);
      var minLen := if |key1| < |key2| then |key1| else |key2|;
      var cmp := Compare(key1, key2, minLen);
      CompareDecides(key1, key2);
      if cmp > 0 || (cmp == 0 && |key1| > |key2|) {
        LessIff(KeyAt(t.items, k), KeyAt(t.items, k + 1));
        return false;
      } else if cmp == 0 && |key1| == |key2| {
        LessIff(KeyAt(t.items, k), KeyAt(t.items, k + 1));
        return false;
      }
      k1 := k2;
      k := k + 1;
    }
    forall i, j | 0 <= i < j < (|t.items| + 1) / 2
      ensures Before(KeyAt(t.items, i), KeyAt(t.items, j))
    {
      NeighboursSuffice(t.items, i, j);
      LessIff(KeyAt(t.items, i), KeyAt(t.items, j));
    }
    inOrder := true;
  }

  /** The key of entry `k`, and the token behind its value. */
  method EntryAt(tokens: seq<Token>, buffer: Bytes, parent: nat, ghost t: Tree, ghost offset: nat, k1: nat,
                 ghost k: nat)
    returns (key: Bytes, k2: nat)
    requires Located(tokens, buffer, parent, t, offset) && t.TDict? && 2 * k < |t.items|
    requires k1 == ChildIndex(parent, t.items, 2 * k)
    ensures t.items[2 * k].TStr? && key == KeyAt(t.items, k)
    ensures 2 * k + 2 <= |t.items| && k2 == ChildIndex(parent, t.items, 2 * k + 2)
  {
    EntryLinks(tokens, buffer, parent, t, offset, k1, k);
    var v1 := k1 + tokens[k1].nextItem;
    key := StringAt(tokens, buffer, k1, t.items[2 * k], ChildOffset(offset, t.items, 2 * k));
    k2 := v1 + tokens[v1].nextItem;
  }

  lemma {:induction false} EntryLinks(tokens: seq<Token>, buffer: Bytes, parent: nat, t: Tree, offset: nat, k1: nat,
                                      k: nat)
    requires Located(tokens, buffer, parent, t, offset) && t.TDict? && 2 * k < |t.items|
    requires k1 == ChildIndex(parent, t.items, 2 * k)
    ensures 2 * k + 2 <= |t.items| && t.items[2 * k].TStr?
    ensures Located(tokens, buffer, k1, t.items[2 * k], ChildOffset(offset, t.items, 2 * k))
    ensures var v1 := k1 + tokens[k1].nextItem;
      v1 < |tokens| && v1 + tokens[v1].nextItem == ChildIndex(parent, t.items, 2 * k + 2)
  {
    DictHasPairs(t, k);
    var v := 2 * k + 1;
    LocatedChild(tokens, buffer, parent, t, offset, 2 * k);
    assert k1 + tokens[k1].nextItem == ChildIndex(parent, t.items, v);
    LocatedChild(tokens, buffer, parent, t, offset, v);
  }

  lemma {:induction false} DictHasPairs(t: Tree, k: nat)
    requires Lax(t) && t.TDict? && 2 * k < |t.items|
    ensures 2 * k + 2 <= |t.items| && t.items[2 * k].TStr?
  {}

  lemma {:induction false} ChildIndexGrows(i: nat, items: seq<Tree>, j: nat, k: nat)
    requires j <= k <= |items|
    ensures ChildIndex(i, items, j) <= ChildIndex(i, items, k)
    ensures j < k ==> ChildIndex(i, items, j) < ChildIndex(i, items, k)
    decreases k - j
  {
    if j < k {
      OneMoreItem(items, j);
      ChildIndexGrows(i, items, j + 1, k);
    }
  }

  // ----- the scan

  /** A container that the scan is in: where it is, and how many of its items it is through with. */
  datatype Visit = Visit(tree: Tree, index: nat, offset: nat, passed: nat)

  ghost predicate VisitOk(tokens: seq<Token>, buffer: Bytes, v: Visit) {
    && (v.tree.TList? || v.tree.TDict?) && v.passed <= |ItemsOf(v.tree)|
    && Located(tokens, buffer, v.index, v.tree, v.offset)
  }

  /** The item that the scan has reached in a container that it is not through with. */
  ghost predicate IsNext(v: Visit, t: Tree, index: nat, offset: nat) {
    && v.passed < |ItemsOf(v.tree)| && t == ItemsOf(v.tree)[v.passed]
    && index == ChildIndex(v.index, ItemsOf(v.tree), v.passed)
    && offset == ChildOffset(v.offset, ItemsOf(v.tree), v.passed)
  }

  /**
   The containers on the way from the whole value down to the place that the scan has reached, and the stack of them.
   */
  ghost predicate PathOk(tokens: seq<Token>, buffer: Bytes, stack: seq<nat>, path: seq<Visit>) {
    if path == [] then stack == [] else
    var top, outer := path[|path| - 1], path[..|path| - 1];
    && |stack| == |path| && stack[|stack| - 1] == top.index && VisitOk(tokens, buffer, top)
    && (outer != [] ==> IsNext(outer[|outer| - 1], top.tree, top.index, top.offset))
    && PathOk(tokens, buffer, stack[..|stack| - 1], outer)
  }

  /** What is left to be found out about a container, the first `from` items of which are canonical. */
  ghost predicate RestIsCanonical(t: Tree, from: nat) {
    && Lax(t)
    && (t.TDict? ==> KeysIncrease(t.items))
    && forall k :: from <= k < |ItemsOf(t)| ==> Canonical(ItemsOf(t)[k])
  }

  /**
   What is left to be found out: the rest of the innermost container, and of the others what comes after the one in it.
   */
  ghost predicate Pending(path: seq<Visit>, through: nat) {
    path == []
    || (RestIsCanonical(path[|path| - 1].tree, path[|path| - 1].passed + through) && Pending(path[..|path| - 1], 1))
  }

  /** The same path, one item on in the innermost container. */
  function Passed(path: seq<Visit>): seq<Visit> {
    if path == [] then [] else
    var top := path[|path| - 1];
    path[..|path| - 1] + [top.(passed := top.passed + 1)]
  }

  lemma {:induction false} RestUnfolds(t: Tree, from: nat)
    requires Lax(t) && from < |ItemsOf(t)|
    ensures RestIsCanonical(t, from) <==> RestIsCanonical(t, from + 1) && Canonical(ItemsOf(t)[from])
  {}

  lemma {:induction false} WholeIsRest(t: Tree)
    requires Lax(t) && (t.TList? || t.TDict?)
    ensures RestIsCanonical(t, 0) <==> Canonical(t)
  {
    match t
    case TList(items) =>
      assert ItemsOf(t) == items;
      assert Canonical(t) <==> forall i :: 0 <= i < |items| ==> Canonical(items[i]);
    case TDict(items) =>
      assert ItemsOf(t) == items;
      assert Canonical(t) <==> KeysIncrease(items) && forall i :: 0 <= i < |items| ==> Canonical(items[i]);
  }

  /** Passing an item leaves the rest, and fails with an item that is not canonical. */
  lemma {:induction false} PassedIs(tokens: seq<Token>, buffer: Bytes, stack: seq<nat>, path: seq<Visit>, t: Tree,
                                    index: nat, at: nat)
    requires PathOk(tokens, buffer, stack, path) && path != [] && IsNext(path[|path| - 1], t, index, at)
    ensures PathOk(tokens, buffer, stack, Passed(path))
    ensures Passed(path) != []
    ensures Passed(path)[|Passed(path)| - 1] == path[|path| - 1].(passed := path[|path| - 1].passed + 1)
    ensures Lax(t) && (Pending(path, 0) <==> Pending(path, 1) && Canonical(t))
    ensures Pending(Passed(path), 0) <==> Pending(path, 1)
  {
    var top, outer := path[|path| - 1], path[..|path| - 1];
    InitOfAppend(outer, top.(passed := top.passed + 1));
    ItemIsLax(top.tree, top.passed);
    RestUnfolds(top.tree, top.passed);
  }

  /** Into a container that is an item of the innermost one. */
  lemma {:induction false} EnteredIs(tokens: seq<Token>, buffer: Bytes, stack: seq<nat>, path: seq<Visit>, v: Visit)
    requires PathOk(tokens, buffer, stack, path) && VisitOk(tokens, buffer, v) && v.passed == 0
    requires path != [] ==> IsNext(path[|path| - 1], v.tree, v.index, v.offset)
    ensures PathOk(tokens, buffer, stack + [v.index], path + [v])
    ensures Lax(v.tree) && (Pending(path + [v], 0) <==> Canonical(v.tree) && Pending(path, 1))
  {
    InitOfAppend(path, v);
    InitOfAppend(stack, v.index);
    WholeIsRest(v.tree);
  }

  /** Out of a container that the scan is through with, and on in the one around it. */
  lemma {:induction false} LeftIs(tokens: seq<Token>, buffer: Bytes, stack: seq<nat>, path: seq<Visit>)
    requires PathOk(tokens, buffer, stack, path) && path != []
    requires path[|path| - 1].passed == |ItemsOf(path[|path| - 1].tree)|
    ensures var top, outer := path[|path| - 1], path[..|path| - 1];
      && PathOk(tokens, buffer, stack[..|stack| - 1], outer) && Lax(top.tree)
      && (Pending(path, 0) <==> (top.tree.TDict? ==> KeysIncrease(top.tree.items)) && Pending(outer, 1))
  {}

  /** What stands at the place that the scan has reached: an item, or the end of the innermost container. */
  ghost predicate Reached(tokens: seq<Token>, buffer: Bytes, path: seq<Visit>, token: nat, t: Tree, at: nat)
    requires token < |tokens|
  {
    if tokens[token].kind == EndToken then
      path != [] && path[|path| - 1].passed == |ItemsOf(path[|path| - 1].tree)|
    else
      && Located(tokens, buffer, token, t, at) && (path != [] ==> IsNext(path[|path| - 1], t, token, at))
      && (tokens[token].kind == DictToken <==> t.TDict?) && (tokens[token].kind == ListToken <==> t.TList?)
  }

  lemma {:induction false} KindOf(tokens: seq<Token>, buffer: Bytes, i: nat, t: Tree, offset: nat)
    requires Located(tokens, buffer, i, t, offset)
    ensures tokens[i].kind == DictToken <==> t.TDict?
    ensures tokens[i].kind == ListToken <==> t.TList?
    ensures tokens[i].kind == IntegerToken <==> t.TInt?
    ensures tokens[i].kind != EndToken && tokens[i].kind != NoneToken
  {
    FlatHead(t, offset);
    SliceOfSlice(tokens, i, TokenCount(t), 0, 0);
  }

  lemma {:induction false} WhatIsReached(tokens: seq<Token>, buffer: Bytes, stack: seq<nat>, path: seq<Visit>,
                                         token: nat)
    returns (t: Tree, at: nat)
    requires PathOk(tokens, buffer, stack, path) && path != []
    requires token == ChildIndex(path[|path| - 1].index, ItemsOf(path[|path| - 1].tree), path[|path| - 1].passed)
    ensures token < |tokens| && Reached(tokens, buffer, path, token, t, at)
  {
    var top := path[|path| - 1];
    TokenBehind(tokens, buffer, top.index, top.tree, top.offset, top.passed);
    t, at := top.tree, 0;
    if top.passed < |ItemsOf(top.tree)| {
      t, at := ItemsOf(top.tree)[top.passed], ChildOffset(top.offset, ItemsOf(top.tree), top.passed);
      LocatedChild(tokens, buffer, top.index, top.tree, top.offset, top.passed);
      KindOf(tokens, buffer, token, t, at);
    }
  }

  // ----- the scan itself

  /** The cases of integers and strings. */
  method LeafIsBad(tokens: seq<Token>, buffer: Bytes, token: nat, ghost t: Tree, ghost offset: nat) returns (bad: bool)
    requires Located(tokens, buffer, token, t, offset) && (t.TInt? || t.TStr?)
    ensures bad <==> !Canonical(t)
  {
    LeafToken(tokens, buffer, token, t, offset);
    LeafText(buffer, t, offset);
    var at := tokens[token].offset;
    FlatHead(t, offset);
    SliceOfSlice(tokens, token, 1, 0, 0);
    if tokens[token].kind == IntegerToken {
      bad := buffer[at + 1] == DIGIT_0 && buffer[at + 2] != LETTER_E;
    } else {
      bad := buffer[at] == DIGIT_0 && buffer[at + 1] != COLON;
    }
  }

  lemma {:induction false} LeafText(buffer: Bytes, t: Tree, offset: nat)
    requires Lax(t) && (t.TInt? || t.TStr?) && offset + |Render(t)| <= |buffer|
    requires buffer[offset..offset + |Render(t)|] == Render(t)
    ensures t.TInt? ==> |Render(t)| == |t.body| + 2 && buffer[offset + 1] == t.body[0]
                        && (buffer[offset + 2] == LETTER_E <==> |t.body| == 1)
    ensures t.TStr? ==> |Render(t)| > |t.digits| && buffer[offset] == t.digits[0]
                        && (buffer[offset + 1] == COLON <==> |t.digits| == 1)
  {
    var text := Render(t);
    SliceOfSlice(buffer, offset, |text|, 0, |text|);
    SliceOfSlice(buffer, offset, |text|, 1, |text|);
    if t.TInt? {
      SliceOfSlice(buffer, offset, |text|, 2, |text|);
      assert text[1] == t.body[0];
      assert text[2] == if |t.body| == 1 then LETTER_E else t.body[1];
      if |t.body| > 1 {
        IntBodyHasNoE(t.body);
      }
    } else {
      assert text[0] == t.digits[0];
      assert text[1] == if |t.digits| == 1 then COLON else t.digits[1];
    }
  }

  lemma {:induction false} IntBodyHasNoE(body: Bytes)
    requires IntBody(body) && |body| > 1
    ensures body[1] != LETTER_E
  {
    if body[0] == MINUS {
      assert body[1] == body[1..][0];
    }
  }

  /** The scan before it looks at `token`: nothing that it has passed is left to be found out. */
  ghost predicate Scanning(tokens: seq<Token>, buffer: Bytes, root: Tree, stack: seq<nat>, path: seq<Visit>,
                           token: nat) {
    && PathOk(tokens, buffer, stack, path) && path != [] && Lax(root)
    && token == ChildIndex(path[|path| - 1].index, ItemsOf(path[|path| - 1].tree), path[|path| - 1].passed)
    && (Canonical(root) <==> Pending(path, 0))
  }

  lemma {:induction false} AfterLeaf(tokens: seq<Token>, buffer: Bytes, root: Tree, stack: seq<nat>, path: seq<Visit>,
                                     token: nat, t: Tree, at: nat)
    requires Scanning(tokens, buffer, root, stack, path, token) && IsNext(path[|path| - 1], t, token, at)
    ensures Lax(t) && (!Canonical(t) ==> !Canonical(root))
    ensures Canonical(t) && TokenCount(t) == 1 ==> Scanning(tokens, buffer, root, stack, Passed(path), token + 1)
  {
    hide Canonical, Lax, Located;
    var top := path[|path| - 1];
    PassedIs(tokens, buffer, stack, path, t, token, at);
    OneMoreItem(ItemsOf(top.tree), top.passed);
  }

  lemma {:induction false} AfterOpening(tokens: seq<Token>, buffer: Bytes, root: Tree, stack: seq<nat>,
                                        path: seq<Visit>, token: nat, t: Tree, at: nat)
    requires Scanning(tokens, buffer, root, stack, path, token) && IsNext(path[|path| - 1], t, token, at)
    requires VisitOk(tokens, buffer, Visit(t, token, at, 0))
    ensures Scanning(tokens, buffer, root, stack + [token], path + [Visit(t, token, at, 0)], token + 1)
  {
    PassedIs(tokens, buffer, stack, path, t, token, at);
    EnteredIs(tokens, buffer, stack, path, Visit(t, token, at, 0));
    FirstChild(token, t);
  }

  lemma {:induction false} AtFirst(tokens: seq<Token>, buffer: Bytes, token: nat, t: Tree, at: nat)
    requires VisitOk(tokens, buffer, Visit(t, token, at, 0))
    ensures Scanning(tokens, buffer, t, [token], [Visit(t, token, at, 0)], token + 1)
  {
    var v := Visit(t, token, at, 0);
    EnteredIs(tokens, buffer, [], [], v);
    assert [] + [v] == [v] && [] + [token] == [token];
    FirstChild(token, t);
  }

  lemma {:induction false} AfterEnd(tokens: seq<Token>, buffer: Bytes, root: Tree, stack: seq<nat>, path: seq<Visit>,
                                    token: nat)
    requires Scanning(tokens, buffer, root, stack, path, token)
    requires path[|path| - 1].passed == |ItemsOf(path[|path| - 1].tree)|
    ensures var top, outer := path[|path| - 1], path[..|path| - 1];
      && stack[|stack| - 1] == top.index && VisitOk(tokens, buffer, top)
      && (top.tree.TDict? ==> (!KeysIncrease(top.tree.items) ==> !Canonical(root)))
      && ((top.tree.TDict? ==> KeysIncrease(top.tree.items)) ==>
            if outer == [] then Canonical(root)
            else Scanning(tokens, buffer, root, stack[..|stack| - 1], Passed(outer), token + 1))
  {
    var top, outer := path[|path| - 1], path[..|path| - 1];
    LeftIs(tokens, buffer, stack, path);
    if outer != [] {
      OnAfter(tokens, buffer, stack[..|stack| - 1], outer, top, token);
    }
  }

  /** Behind the end of a container the scan goes on in the one around it. */
  lemma {:induction false} OnAfter(tokens: seq<Token>, buffer: Bytes, stack: seq<nat>, outer: seq<Visit>, top: Visit,
                                   token: nat)
    requires PathOk(tokens, buffer, stack, outer) && outer != []
    requires IsNext(outer[|outer| - 1], top.tree, top.index, top.offset) && (top.tree.TList? || top.tree.TDict?)
    requires token == ChildIndex(top.index, ItemsOf(top.tree), |ItemsOf(top.tree)|)
    ensures var p := Passed(outer);
      && PathOk(tokens, buffer, stack, p) && p != [] && (Pending(p, 0) <==> Pending(outer, 1))
      && token + 1 == ChildIndex(p[|p| - 1].index, ItemsOf(p[|p| - 1].tree), p[|p| - 1].passed)
  {
    var around := outer[|outer| - 1];
    assert token + 1 == ChildIndex(around.index, ItemsOf(around.tree), around.passed + 1) by {
      BehindEnd(around.index, ItemsOf(around.tree), around.passed, top.tree, top.index, token);
    }
    PassedIs(tokens, buffer, stack, outer, top.tree, top.index, top.offset);
  }

  lemma {:induction false} BehindEnd(i: nat, items: seq<Tree>, k: nat, t: Tree, index: nat, end: nat)
    requires k < |items| && t == items[k] && (t.TList? || t.TDict?)
    requires index == ChildIndex(i, items, k) && end == ChildIndex(index, ItemsOf(t), |ItemsOf(t)|)
    ensures end + 1 == ChildIndex(i, items, k + 1)
  {
    OneMoreItem(items, k);
    TakeAll(ItemsOf(t));
    ContainerCount(t);
  }

  lemma {:induction false} ContainerCount(t: Tree)
    requires t.TList? || t.TDict?
    ensures TokenCount(t) == |LexemesAll(ItemsOf(t))| + 2
  {}

  /** At the end of a container. */
  method EndIsBad(tokens: seq<Token>, buffer: Bytes, parent: nat, token: nat, ghost v: Visit) returns (bad: bool)
    requires VisitOk(tokens, buffer, v) && v.index == parent && v.passed == |ItemsOf(v.tree)|
    requires token == ChildIndex(parent, ItemsOf(v.tree), v.passed)
    ensures bad <==> v.tree.TDict? && !KeysIncrease(v.tree.items)
  {
    KindOf(tokens, buffer, parent, v.tree, v.offset);
    bad := false;
    if tokens[parent].kind == DictToken && token != parent + 1 {
      NoItems(parent, v.tree.items, token);
      var inOrder := KeysInOrder(tokens, buffer, parent, token, v.tree, v.offset);
      bad := !inOrder;
    } else if v.tree.TDict? {
      ChildIndexGrows(parent, v.tree.items, 0, |v.tree.items|);
      FirstChild(parent, v.tree);
    }
  }

  lemma {:induction false} NoItems(i: nat, items: seq<Tree>, token: nat)
    requires token == ChildIndex(i, items, |items|) && token != i + 1
    ensures items != []
  {}

  /** The first token of the value. */
  method ScanRoot(node: Node) returns (bad: bool, stack: seq<nat>, ghost path: seq<Visit>)
    requires node.Valid()
    ensures stack == [] ==> (bad <==> !Canonical(node.tree))
    ensures stack != [] ==> !bad && Scanning(node.tokens, node.buffer, node.tree, stack, path, node.tokenIdx + 1)
  {
    bad, stack, path := false, [], [];
    KindOf(node.tokens, node.buffer, node.tokenIdx, node.tree, node.offset);
    var kind := node.tokens[node.tokenIdx].kind;
    if kind == DictToken || kind == ListToken {
      stack, path := [node.tokenIdx], [Visit(node.tree, node.tokenIdx, node.offset, 0)];
      AtFirst(node.tokens, node.buffer, node.tokenIdx, node.tree, node.offset);
    } else {
      bad := LeafIsBad(node.tokens, node.buffer, node.tokenIdx, node.tree, node.offset);
    }
  }

  /** A turn of the scan in a container. */
  method ScanToken(tokens: seq<Token>, buffer: Bytes, token: nat, stack: seq<nat>, ghost path: seq<Visit>,
                   ghost root: Tree)
    returns (bad: bool, stack': seq<nat>, ghost path': seq<Visit>)
    requires Scanning(tokens, buffer, root, stack, path, token)
    ensures token < |tokens| && Lax(root)
    ensures bad ==> !Canonical(root)
    ensures !bad && stack' == [] ==> Canonical(root)
    ensures !bad && stack' != [] ==> Scanning(tokens, buffer, root, stack', path', token + 1)
  {
    bad, stack', path' := false, stack, path;
    ghost var t, at := WhatIsReached(tokens, buffer, stack, path, token);
    if tokens[token].kind == EndToken {
      AfterEnd(tokens, buffer, root, stack, path, token);
      var parent := stack[|stack| - 1];
      bad := EndIsBad(tokens, buffer, parent, token, path[|path| - 1]);
      stack', path' := stack[..|stack| - 1], Passed(path[..|path| - 1]);
    } else if tokens[token].kind == DictToken || tokens[token].kind == ListToken {
      AfterOpening(tokens, buffer, root, stack, path, token, t, at);
      stack', path' := stack + [token], path + [Visit(t, token, at, 0)];
    } else {
      AfterLeaf(tokens, buffer, root, stack, path, token, t, at);
      bad := LeafIsBad(tokens, buffer, token, t, at);
      path' := Passed(path);
    }
  }

  /** `has_soft_error`: whether a value that was read is not canonical. A node that stands on nothing has no error. */
  method HasSoftError(node: Node) returns (bad: bool)
    requires node.tokenIdx != -1 ==> node.Valid()
    ensures node.tokenIdx == -1 ==> !bad
    ensures node.tokenIdx != -1 ==> (bad <==> !Canonical(node.tree))
  {
    if node.tokenIdx == -1 {
      return false;
    }
    var stack, token;
    ghost var path;
    bad, stack, path := ScanRoot(node);
    token := node.tokenIdx + 1;
    while !bad && stack != []
      invariant node.Valid()
      invariant stack != [] && !bad ==> Scanning(node.tokens, node.buffer, node.tree, stack, path, token)
      invariant bad ==> !Canonical(node.tree)
      invariant !bad && stack == [] ==> Canonical(node.tree)
      decreases |node.tokens| - token, !bad && stack != []
    {
      bad, stack, path := ScanToken(node.tokens, node.buffer, token, stack, path, node.tree);
      token := token + 1;
    }
  }
}
