/**
 What it takes to walk a token array along its links, whatever the buffer was, and that the array of a value and the
 repaired array of a part of one have it.
 */
module BdecodeNavigation {
  import opened Bytes
  import opened BencodeGrammar
  import opened BdecodeTokens

  /** Everything below the node at `i` can be walked. */
  ghost predicate NodeOk(tokens: seq<Token>, i: nat)
    decreases |tokens| - i, 0
  {
    && i < |tokens|
    && tokens[i].kind != NoneToken && tokens[i].kind != EndToken
    && (tokens[i].IsContainer() ==> ItemsOk(tokens, i + 1, tokens[i].kind == DictToken, false))
  }

  /**
   The links from `j` on lead from node to node, forward, to an end token inside of the array. In a dictionary they
   lead from a key, which is a string, to a value, and the end comes where a key would.
   */
  ghost predicate ItemsOk(tokens: seq<Token>, j: nat, isDict: bool, wantValue: bool)
    decreases if j < |tokens| then |tokens| - j else 0, 1
  {
    j < |tokens| && if tokens[j].kind == EndToken then !wantValue else
    && NodeOk(tokens, j)
    && (isDict && !wantValue ==> tokens[j].IsString())
    && 0 < tokens[j].nextItem
    && ItemsOk(tokens, j + tokens[j].nextItem, isDict, isDict && !wantValue)
  }

  /** The whole array can be walked from its first token, whose own link leads to an end token inside of it. */
  ghost predicate RootOk(tokens: seq<Token>) {
    && NodeOk(tokens, 0)
    && 0 < tokens[0].nextItem < |tokens| && tokens[tokens[0].nextItem].kind == EndToken
  }

  /** The links below a node do not depend on what is in front of it or behind its end. */
  ghost predicate SameFrom(tokens: seq<Token>, more: seq<Token>, i: nat) {
    |tokens| <= |more| && forall k :: i <= k < |tokens| ==> more[k] == tokens[k]
  }

  lemma {:induction false} NodeStaysOk(tokens: seq<Token>, more: seq<Token>, i: nat)
    requires NodeOk(tokens, i) && SameFrom(tokens, more, i)
    ensures NodeOk(more, i)
    decreases |tokens| - i, 0
  {
    if tokens[i].IsContainer() {
      ItemsStayOk(tokens, more, i + 1, tokens[i].kind == DictToken, false);
    }
  }

  lemma {:induction false} ItemsStayOk(tokens: seq<Token>, more: seq<Token>, j: nat, isDict: bool, wantValue: bool)
    requires ItemsOk(tokens, j, isDict, wantValue) && SameFrom(tokens, more, j)
    ensures ItemsOk(more, j, isDict, wantValue)
    decreases |tokens| - j, 1
  {
    if tokens[j].kind != EndToken {
      NodeStaysOk(tokens, more, j);
      ItemsStayOk(tokens, more, j + tokens[j].nextItem, isDict, isDict && !wantValue);
    }
  }

  // ----- the array of a value

  /** The first token of a value links to what is behind the value, and is a string token only for a string. */
  lemma {:induction false} FlatHead(t: Tree, offset: nat)
    ensures Flat(t, offset)[0].nextItem == |Flat(t, offset)|
    ensures Flat(t, offset)[0].offset == offset
    ensures Flat(t, offset)[0].IsString() <==> t.TStr?
    ensures Flat(t, offset)[0].kind == DictToken <==> t.TDict?
    ensures Flat(t, offset)[0].kind == ListToken <==> t.TList?
    ensures Flat(t, offset)[0].kind == IntegerToken <==> t.TInt?
    ensures Flat(t, offset)[0].kind != NoneToken && Flat(t, offset)[0].kind != EndToken
  {}

  lemma {:induction false} FlatIsOk(tokens: seq<Token>, i: nat, t: Tree, offset: nat)
    requires Lax(t) && LaidOut(tokens, i, Flat(t, offset))
    ensures NodeOk(tokens, i) && tokens[i] == Flat(t, offset)[0]
    decreases t, 1
  {
    assert tokens[i] == tokens[i..i + |Flat(t, offset)|][0];
    FlatHead(t, offset);
    match t
    case TList(items) => ContainerIsOk(tokens, i, false, items, offset);
    case TDict(items) => ContainerIsOk(tokens, i, true, items, offset);
    case _ =>
  }

  lemma {:induction false} ContainerIsOk(tokens: seq<Token>, i: nat, isDict: bool, items: seq<Tree>, offset: nat)
    requires LaxAll(items) && (isDict ==> KeysAreStrings(items) && |items| % 2 == 0)
    requires LaidOut(tokens, i, FlatContainer(isDict, items, offset))
    ensures ItemsOk(tokens, i + 1, isDict, false)
    decreases items, 1
  {
    var open := [Token(offset, ContainerType(isDict), |LexemesAll(items)| + 2, 0)];
    var flat, end := FlatAll(items, offset + 1), [Token(offset + 1 + |RenderAll(items)|, EndToken, 1, 0)];
    LaidOutParts(tokens, i, open + flat, end);
    LaidOutParts(tokens, i, open, flat);
    var j := i + 1 + |flat|;
    assert tokens[j] == tokens[j..j + 1][0] == end[0];
    FlatItemsAreOk(tokens, i + 1, j, isDict, items, offset + 1, false);
  }

  /**
   The items of a container can be walked, when what is behind them, at `next`, can. There `want` says whether a value
   has to follow.
   */
  lemma {:induction false} FlatItemsAreOk(tokens: seq<Token>, i: nat, next: nat, isDict: bool, items: seq<Tree>,
                                          offset: nat, want: bool)
    requires LaxAll(items) && (isDict ==> KeysAreStrings(items)) && want == (isDict && |items| % 2 == 1)
    requires i <= next <= |tokens| && tokens[i..next] == FlatAll(items, offset) && ItemsOk(tokens, next, isDict, want)
    ensures ItemsOk(tokens, i, isDict, false)
    decreases items, 0
  {
    if items != [] {
      var init, last := items[..|items| - 1], items[|items| - 1];
      var mid, wantInit := offset + |RenderAll(init)|, isDict && |init| % 2 == 1;
      var j := i + |FlatAll(init, offset)|;
      InitIsLax(items, isDict);
      FlatParts(tokens, i, next, FlatAll(init, offset), Flat(last, mid));
      FlatIsOk(tokens, j, last, mid);
      LastItemIsOk(tokens, j, next, isDict, last, mid, wantInit, want);
      FlatItemsAreOk(tokens, i, j, isDict, init, offset, wantInit);
    }
  }

  lemma {:induction false} InitIsLax(items: seq<Tree>, isDict: bool)
    requires items != [] && LaxAll(items) && (isDict ==> KeysAreStrings(items))
    ensures var init, last := items[..|items| - 1], items[|items| - 1];
      && Lax(last) && LaxAll(init) && (isDict ==> KeysAreStrings(init)) && (isDict && |init| % 2 == 0 ==> last.TStr?)
      && (|items| % 2 == 1 <==> |init| % 2 == 0)
  {}

  lemma {:induction false} FlatParts(tokens: seq<Token>, i: nat, next: nat, a: seq<Token>, b: seq<Token>)
    requires i <= next <= |tokens| && tokens[i..next] == a + b
    ensures i + |a| + |b| == next && tokens[i..i + |a|] == a && LaidOut(tokens, i + |a|, b)
  {
    LaidOutParts(tokens, i, a, b);
  }

  lemma {:induction false} LastItemIsOk(tokens: seq<Token>, j: nat, next: nat, isDict: bool, last: Tree, offset: nat,
                                        wantBefore: bool, want: bool)
    requires NodeOk(tokens, j) && tokens[j] == Flat(last, offset)[0] && (isDict && !wantBefore ==> last.TStr?)
    requires next == j + |Flat(last, offset)| && want == (isDict && !wantBefore) && ItemsOk(tokens, next, isDict, want)
    ensures ItemsOk(tokens, j, isDict, wantBefore)
  {
    FlatHead(last, offset);
    ItemsOkFrom(tokens, j, |Flat(last, offset)|, isDict, wantBefore);
  }

  lemma {:induction false} ItemsOkFrom(tokens: seq<Token>, j: nat, n: nat, isDict: bool, wantValue: bool)
    requires NodeOk(tokens, j) && tokens[j].nextItem == n > 0 && (isDict && !wantValue ==> tokens[j].IsString())
    requires ItemsOk(tokens, j + n, isDict, isDict && !wantValue)
    ensures ItemsOk(tokens, j, isDict, wantValue)
  {}

  // ----- offsets

  /** Offsets do not decrease, leave room for the length in front of a string, and lie between `lo` and `hi`. */
  ghost predicate Rising(tokens: seq<Token>, lo: nat, hi: nat) {
    && lo <= hi
    && (forall k :: 0 <= k < |tokens| ==> lo <= tokens[k].offset && tokens[k].ContentStart() <= hi)
    && (forall k, m :: 0 <= k < m < |tokens| ==> tokens[k].ContentStart() <= tokens[m].offset)
  }

  lemma {:induction false} RisingConcat(a: seq<Token>, b: seq<Token>, lo: nat, mid: nat, hi: nat)
    requires Rising(a, lo, mid) && Rising(b, mid, hi)
    ensures Rising(a + b, lo, hi)
  {
    var c := a + b;
    forall k, m | 0 <= k < m < |c|
      ensures c[k].ContentStart() <= c[m].offset
    {
      if k < |a| <= m {
        assert a[k].ContentStart() <= mid <= b[m - |a|].offset;
      }
    }
  }

  lemma {:induction false} FlatRises(t: Tree, offset: nat)
    requires Lax(t)
    ensures Rising(Flat(t, offset), offset, offset + |Render(t)|)
    decreases t, 1
  {
    match t
    case TList(items) => ContainerRises(false, items, offset);
    case TDict(items) => ContainerRises(true, items, offset);
    case _ =>
  }

  lemma {:induction false} ContainerRises(isDict: bool, items: seq<Tree>, offset: nat)
    requires LaxAll(items)
    ensures Rising(FlatContainer(isDict, items, offset), offset, offset + |RenderAll(items)| + 2)
    decreases items, 1
  {
    var open := [Token(offset, ContainerType(isDict), |LexemesAll(items)| + 2, 0)];
    var end := offset + 1 + |RenderAll(items)|;
    FlatAllRises(items, offset + 1);
    RisingConcat(open, FlatAll(items, offset + 1), offset, offset + 1, end);
    RisingConcat(open + FlatAll(items, offset + 1), [Token(end, EndToken, 1, 0)], offset, end, end + 1);
  }

  lemma {:induction false} FlatAllRises(items: seq<Tree>, offset: nat)
    requires LaxAll(items)
    ensures Rising(FlatAll(items, offset), offset, offset + |RenderAll(items)|)
    decreases items, 0
  {
    if items != [] {
      var init, last := items[..|items| - 1], items[|items| - 1];
      var mid := offset + |RenderAll(init)|;
      FlatAllRises(init, offset);
      FlatRises(last, mid);
      RisingConcat(FlatAll(init, offset), Flat(last, mid), offset, mid, mid + |Render(last)|);
      assert FlatAll(items, offset) == FlatAll(init, offset) + Flat(last, mid);
      assert |RenderAll(items)| == |RenderAll(init)| + |Render(last)|;
    }
  }

  lemma {:induction false} FlatOpenRises(ctx: seq<Open>)
    requires LaxOpen(ctx)
    ensures Rising(FlatOpen(ctx), 0, |RenderOpen(ctx)|)
  {
    if ctx != [] {
      var top, init := ctx[|ctx| - 1], ctx[..|ctx| - 1];
      var offset := |RenderOpen(init)|;
      FlatOpenRises(init);
      FlatAllRises(top.items, offset + 1);
      OpenRises(FlatOpen(init), Token(offset, ContainerType(top.isDict), 0, 0), FlatAll(top.items, offset + 1),
        offset + 1 + |RenderAll(top.items)|);
    }
  }

  lemma {:induction false} OpenRises(before: seq<Token>, open: Token, items: seq<Token>, hi: nat)
    requires Rising(before, 0, open.offset) && Rising(items, open.offset + 1, hi) && open.IsContainer()
    ensures Rising(before + ([open] + items), 0, hi)
  {
    RisingConcat([open], items, open.offset, open.offset + 1, hi);
    RisingConcat(before, [open] + items, 0, open.offset, hi);
  }

  // ----- the repaired array of a part of a value

  /**
   The containers from `j` on are terminated: the outermost of them can be walked, and its link leads to its own end.
   */
  ghost predicate TerminatedFrom(tokens: seq<Token>, ctx: seq<Open>, j: nat) {
    j < |ctx| ==> TerminatedTop(tokens, TopIndex(ctx, j))
  }

  ghost predicate TerminatedTop(tokens: seq<Token>, top: nat) {
    && NodeOk(tokens, top) && 0 < tokens[top].nextItem
    && top + tokens[top].nextItem < |tokens| && tokens[top + tokens[top].nextItem].kind == EndToken
  }

  /** The tokens in front of container `j`, and its own, are as they were read. */
  ghost predicate UntouchedUpTo(tokens: seq<Token>, ctx: seq<Open>, j: nat)
    requires j <= |ctx|
  {
    TopIndex(ctx, j) <= |tokens| && tokens[..TopIndex(ctx, j)] == FlatOpen(ctx[..j])
  }

  /** Tokens that stand for the value of a key that had none: an empty dictionary. */
  ghost predicate IsDummy(part: seq<Token>) {
    |part| == 2 && part[0].kind == DictToken && part[0].nextItem == 2 && part[1].kind == EndToken
  }

  /** The array after container `top` was terminated: its link leads to its new end. */
  function Terminated(tokens: seq<Token>, top: nat, dummy: seq<Token>, end: Token): seq<Token>
    requires top < |tokens|
  {
    (tokens + dummy)[top := tokens[top].(nextItem := |tokens + dummy| - top)] + [end]
  }

  /**
   Terminating container `j`: when its items were read and nothing else is open in it, after a dummy value for a key
   that had none; or when the container that is open in it is terminated already.
   */
  lemma {:induction false} TerminatedIs(tokens: seq<Token>, more: seq<Token>, ctx: seq<Open>, j: nat, dummy: seq<Token>,
                                        end: Token)
    requires LaxOpen(ctx) && j < |ctx| && UntouchedUpTo(tokens, ctx, j + 1) && TerminatedFrom(tokens, ctx, j + 1)
    requires j == |ctx| - 1 ==> |tokens| == |FlatOpen(ctx)|
    requires if j == |ctx| - 1 && LevelsOpen(ctx)[j].wantValue then IsDummy(dummy) else dummy == []
    requires TopIndex(ctx, j) < |tokens| && more == Terminated(tokens, TopIndex(ctx, j), dummy, end)
      && end.kind == EndToken
    ensures TerminatedFrom(more, ctx, j)
  {
    var before, flat, next, offset := OpenParts(tokens, ctx, j);
    OpenFacts(ctx, j);
    TerminatedAt(tokens, more, before, flat, next, ctx[j].isDict, ctx[j].items, offset, j < |ctx| - 1, dummy, end);
  }

  lemma {:induction false} OpenParts(tokens: seq<Token>, ctx: seq<Open>, j: nat)
    returns (before: seq<Token>, flat: seq<Token>, next: nat, offset: nat)
    requires j < |ctx| && UntouchedUpTo(tokens, ctx, j + 1)
    ensures flat == FlatAll(ctx[j].items, offset + 1) && next == |before| + 1 + |flat| <= |tokens|
    ensures tokens[..next] == before + ([Token(offset, ContainerType(ctx[j].isDict), 0, 0)] + flat)
    ensures |before| == TopIndex(ctx, j) && next == TopIndex(ctx, j + 1)
  {
    offset := |RenderOpen(ctx[..j])|;
    before, flat, next := FlatOpen(ctx[..j]), FlatAll(ctx[j].items, offset + 1), TopIndex(ctx, j + 1);
    FlatOpenStep(ctx, j);
  }

  lemma {:induction false} OpenFacts(ctx: seq<Open>, j: nat)
    requires LaxOpen(ctx) && j < |ctx|
    ensures LaxAll(ctx[j].items) && (ctx[j].isDict ==> KeysAreStrings(ctx[j].items))
    ensures j < |ctx| - 1 && ctx[j].isDict ==> |ctx[j].items| % 2 == 1
    ensures j == |ctx| - 1 ==> (LevelsOpen(ctx)[j].wantValue <==> ctx[j].isDict && |ctx[j].items| % 2 == 1)
    ensures j == |ctx| - 1 ==> TopIndex(ctx, j + 1) == |FlatOpen(ctx)|
  {
    if j == |ctx| - 1 {
      assert ctx[..j + 1] == ctx;
    }
  }

  /**
   The same without the containers around: `before` is what was laid out outside, `inner` whether one is open inside.
   */
  lemma {:induction false} TerminatedAt(tokens: seq<Token>, more: seq<Token>, before: seq<Token>, flat: seq<Token>,
                                        next: nat, isDict: bool, items: seq<Tree>, offset: nat, inner: bool,
                                        dummy: seq<Token>, end: Token)
    requires LaxAll(items) && (isDict ==> KeysAreStrings(items)) && end.kind == EndToken
    requires flat == FlatAll(items, offset + 1) && next == |before| + 1 + |flat| <= |tokens|
    requires tokens[..next] == before + ([Token(offset, ContainerType(isDict), 0, 0)] + flat)
    requires inner ==> dummy == [] && (isDict ==> |items| % 2 == 1) && TerminatedTop(tokens, next)
    requires !inner ==> |tokens| == next && if isDict && |items| % 2 == 1 then IsDummy(dummy) else dummy == []
    requires more == Terminated(tokens, |before|, dummy, end)
    ensures TerminatedTop(more, |before|)
  {
    var open, top := Token(offset, ContainerType(isDict), 0, 0), |before|;
    TokensOf(tokens, next, before, open, flat);
    TerminatedParts(tokens, before, flat, dummy, end);
    if inner {
      ChildIsOk(tokens, next, more, isDict, isDict && |items| % 2 == 1);
    } else {
      TailIsOk(tokens, more, dummy, isDict, isDict && |items| % 2 == 1);
    }
    FlatItemsAreOk(more, top + 1, next, isDict, items, offset + 1, isDict && |items| % 2 == 1);
    TopIsOk(tokens, more, top, open, dummy);
  }

  lemma {:induction false} FlatOpenStep(ctx: seq<Open>, j: nat)
    requires j < |ctx|
    ensures var offset, flat := |RenderOpen(ctx[..j])|, FlatAll(ctx[j].items, |RenderOpen(ctx[..j])| + 1);
      && FlatOpen(ctx[..j + 1]) == FlatOpen(ctx[..j]) + ([Token(offset, ContainerType(ctx[j].isDict), 0, 0)] + flat)
      && TopIndex(ctx, j + 1) == |FlatOpen(ctx[..j])| + 1 + |flat|
  {
    assert ctx[..j + 1][..j] == ctx[..j];
  }

  lemma {:induction false} TopIsOk(tokens: seq<Token>, more: seq<Token>, top: nat, open: Token, dummy: seq<Token>)
    requires top < |tokens| && open.IsContainer()
    requires |more| == |tokens| + |dummy| + 1 && more[|tokens| + |dummy|].kind == EndToken
    requires more[top] == open.(nextItem := |tokens| + |dummy| - top)
    requires ItemsOk(more, top + 1, open.kind == DictToken, false)
    ensures TerminatedTop(more, top)
  {}

  lemma {:induction false} TokensOf(tokens: seq<Token>, next: nat, before: seq<Token>, open: Token, flat: seq<Token>)
    requires next == |before| + 1 + |flat| <= |tokens| && tokens[..next] == before + ([open] + flat)
    ensures tokens[|before|] == open && tokens[..|before|] == before && tokens[|before| + 1..next] == flat
  {
    assert forall k :: 0 <= k < next ==> tokens[k] == tokens[..next][k];
  }

  lemma {:induction false} TerminatedParts(tokens: seq<Token>, before: seq<Token>, flat: seq<Token>, dummy: seq<Token>,
                                           end: Token)
    requires |before| + 1 + |flat| <= |tokens| && tokens[..|before|] == before
    requires tokens[|before| + 1..|before| + 1 + |flat|] == flat
    ensures var top, more := |before|, Terminated(tokens, |before|, dummy, end);
      && |more| == |tokens| + |dummy| + 1
      && more[top] == tokens[top].(nextItem := |tokens| + |dummy| - top)
      && more[|tokens| + |dummy|] == end && more[|tokens|..|tokens| + |dummy|] == dummy
      && (forall k :: top < k < |tokens| ==> more[k] == tokens[k])
      && more[..top] == before && more[top + 1..top + 1 + |flat|] == flat
  {
    var top, more := |before|, Terminated(tokens, |before|, dummy, end);
    assert more[top + 1..top + 1 + |flat|] == tokens[top + 1..top + 1 + |flat|];
  }

  lemma {:induction false} ChildIsOk(tokens: seq<Token>, i: nat, more: seq<Token>, isDict: bool, wantValue: bool)
    requires NodeOk(tokens, i) && SameFrom(tokens, more, i) && wantValue == isDict
    requires 0 < tokens[i].nextItem && i + tokens[i].nextItem < |tokens|
      && tokens[i + tokens[i].nextItem].kind == EndToken
    ensures ItemsOk(more, i, isDict, wantValue)
  {
    NodeStaysOk(tokens, more, i);
  }

  lemma {:induction false} TailIsOk(tokens: seq<Token>, more: seq<Token>, dummy: seq<Token>, isDict: bool,
                                    wantValue: bool)
    requires |more| == |tokens| + |dummy| + 1 && more[|tokens|..|tokens| + |dummy|] == dummy
    requires more[|more| - 1].kind == EndToken && (wantValue ==> isDict)
    requires if wantValue then IsDummy(dummy) else dummy == []
    ensures ItemsOk(more, |tokens|, isDict, wantValue)
  {
    var n := |tokens|;
    if wantValue {
      assert more[n] == more[n..n + 2][0] && more[n + 1] == more[n..n + 2][1];
      assert ItemsOk(more, n + 1, true, false);
      assert NodeOk(more, n);
      assert ItemsOk(more, n + 2, true, false);
    }
  }
}
