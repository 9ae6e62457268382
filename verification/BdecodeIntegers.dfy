/**
 The integer tokens of an array, repaired or not, stand for integers that are complete in the buffer: there are tokens
 for no others. So they have a value whatever is behind them.
 */
module BdecodeIntegers {
  import opened Bytes
  import opened BencodeGrammar
  import opened BdecodeScan
  import opened BdecodeTokens
  import opened BdecodeNavigation

  /** A complete integer stands at `o`. */
  ghost predicate IntStands(b: Bytes, o: nat) {
    o < |b| && b[o] == LETTER_I && IntegerError(b, o + 1) == NoError
  }

  /** Where its `e` is. */
  function IntEnd(b: Bytes, o: nat): nat
    requires o < |b|
  {
    o + 1 + SignAt(b, o + 1) + DigitRun(b, o + 1 + SignAt(b, o + 1))
  }

  /** The integer of token `k` ends in front of the next token, and of `hi`. */
  ghost predicate TokenStands(tokens: seq<Token>, k: nat, b: Bytes, hi: nat)
    requires k < |tokens|
  {
    && IntStands(b, tokens[k].offset) && IntEnd(b, tokens[k].offset) < hi
    && forall m :: k < m < |tokens| ==> IntEnd(b, tokens[k].offset) < tokens[m].offset
  }

  ghost predicate IntsStand(tokens: seq<Token>, b: Bytes, hi: nat) {
    forall k :: 0 <= k < |tokens| && tokens[k].kind == IntegerToken ==> TokenStands(tokens, k, b, hi)
  }

  lemma {:induction false} StandConcat(a: seq<Token>, c: seq<Token>, b: Bytes, mid: nat, hi: nat)
    requires IntsStand(a, b, mid) && IntsStand(c, b, hi) && Rising(c, mid, hi)
    ensures IntsStand(a + c, b, hi)
  {
    var all := a + c;
    forall k | 0 <= k < |all| && all[k].kind == IntegerToken
      ensures TokenStands(all, k, b, hi)
    {
      if k < |a| {
        assert all[k] == a[k] && TokenStands(a, k, b, mid);
        forall m | k < m < |all|
          ensures IntEnd(b, all[k].offset) < all[m].offset
        {
          assert all[m] == if m < |a| then a[m] else c[m - |a|];
        }
      } else {
        assert all[k] == c[k - |a|] && TokenStands(c, k - |a|, b, hi);
        forall m | k < m < |all|
          ensures IntEnd(b, all[k].offset) < all[m].offset
        {
          assert all[m] == c[m - |a|];
        }
      }
    }
  }

  /** The tokens at both ends of a container are no integers. */
  lemma {:induction false} OtherStands(t: Token, b: Bytes)
    requires t.IsContainer() || t.kind == EndToken
    ensures IntsStand([t], b, t.offset + 1) && Rising([t], t.offset, t.offset + 1)
  {}

  lemma {:induction false} NothingStands(b: Bytes, hi: nat)
    ensures IntsStand([], b, hi)
  {}

  lemma {:induction false} LeafStands(body: Bytes, offset: nat, b: Bytes)
    requires IntBody(body) && LaidOut(b, offset, Render(TInt(body)))
    ensures IntStands(b, offset) && IntEnd(b, offset) == offset + 1 + |body|
  {
    LaidOutHead(b, offset, Render(TInt(body)));
    IntegerParts(b, offset, body);
  }

  lemma {:induction false} FlatStands(t: Tree, offset: nat, b: Bytes)
    requires Lax(t) && LaidOut(b, offset, Render(t))
    ensures IntsStand(Flat(t, offset), b, offset + |Render(t)|)
    decreases t, 1
  {
    hide LaidOut, IntStands;
    match t
    case TInt(body) => LeafStands(body, offset, b);
    case TStr(_, _) =>
    case TList(items) => ContainerStands(false, items, offset, b);
    case TDict(items) => ContainerStands(true, items, offset, b);
  }

  lemma {:induction false} ContainerStands(isDict: bool, items: seq<Tree>, offset: nat, b: Bytes)
    requires LaxAll(items) && LaidOut(b, offset, [OpenByte(isDict)] + RenderAll(items) + [LETTER_E])
    ensures IntsStand(FlatContainer(isDict, items, offset), b, offset + |RenderAll(items)| + 2)
    decreases items, 1
  {
    hide IntsStand, Rising, LaidOut;
    var open := Token(offset, ContainerType(isDict), |LexemesAll(items)| + 2, 0);
    var inner, mid := FlatAll(items, offset + 1), offset + 1 + |RenderAll(items)|;
    var end := Token(mid, EndToken, 1, 0);
    LaidOutParts(b, offset, [OpenByte(isDict)] + RenderAll(items), [LETTER_E]);
    LaidOutParts(b, offset, [OpenByte(isDict)], RenderAll(items));
    FlatAllStands(items, offset + 1, b);
    FlatAllRises(items, offset + 1);
    OtherStands(open, b);
    OtherStands(end, b);
    StandConcat([open], inner, b, offset + 1, mid);
    StandConcat([open] + inner, [end], b, mid, mid + 1);
  }

  lemma {:induction false} FlatAllStands(items: seq<Tree>, offset: nat, b: Bytes)
    requires LaxAll(items) && LaidOut(b, offset, RenderAll(items))
    ensures IntsStand(FlatAll(items, offset), b, offset + |RenderAll(items)|)
    decreases items, 0
  {
    hide IntsStand, Rising, LaidOut;
    NothingStands(b, offset);
    if items != [] {
      var init, last := items[..|items| - 1], items[|items| - 1];
      var mid := offset + |RenderAll(init)|;
      assert RenderAll(items) == RenderAll(init) + Render(last);
      LaidOutParts(b, offset, RenderAll(init), Render(last));
      FlatAllStands(init, offset, b);
      FlatStands(last, mid, b);
      FlatRises(last, mid);
      StandConcat(FlatAll(init, offset), Flat(last, mid), b, mid, mid + |Render(last)|);
    }
  }

  lemma {:induction false} FlatOpenStands(ctx: seq<Open>, b: Bytes)
    requires LaxOpen(ctx) && LaidOut(b, 0, RenderOpen(ctx))
    ensures IntsStand(FlatOpen(ctx), b, |RenderOpen(ctx)|)
  {
    hide IntsStand, Rising, LaidOut;
    NothingStands(b, 0);
    if ctx != [] {
      var top, init := ctx[|ctx| - 1], ctx[..|ctx| - 1];
      var offset := |RenderOpen(init)|;
      LaidOutParts(b, 0, RenderOpen(init), [OpenByte(top.isDict)] + RenderAll(top.items));
      FlatOpenStands(init, b);
      var more, hi := TopStands(top, offset, b);
      StandConcat(FlatOpen(init), more, b, offset, hi);
    }
  }

  /** The same for the tokens of one open container. */
  lemma {:induction false} TopStands(top: Open, offset: nat, b: Bytes) returns (more: seq<Token>, hi: nat)
    requires LaxAll(top.items) && LaidOut(b, offset, [OpenByte(top.isDict)] + RenderAll(top.items))
    ensures more == [Token(offset, ContainerType(top.isDict), 0, 0)] + FlatAll(top.items, offset + 1)
    ensures hi == offset + 1 + |RenderAll(top.items)| && IntsStand(more, b, hi) && Rising(more, offset, hi)
  {
    hide IntsStand, Rising, LaidOut;
    var open, items := Token(offset, ContainerType(top.isDict), 0, 0), FlatAll(top.items, offset + 1);
    more, hi := [open] + items, offset + 1 + |RenderAll(top.items)|;
    LaidOutParts(b, offset, [OpenByte(top.isDict)], RenderAll(top.items));
    OtherStands(open, b);
    FlatAllStands(top.items, offset + 1, b);
    FlatAllRises(top.items, offset + 1);
    StandConcat([open], items, b, offset + 1, hi);
    RisingConcat([open], items, offset, offset + 1, hi);
  }

  /** A repair only changes links, and the tokens that it adds are no integers, and stand behind all that was read. */
  ghost predicate Repairs(before: seq<Token>, after: seq<Token>, start: nat) {
    && |before| <= |after|
    && (forall k :: 0 <= k < |before| ==> after[k].(nextItem := 0) == before[k].(nextItem := 0))
    && forall k :: |before| <= k < |after| ==> after[k].kind != IntegerToken && after[k].offset == start
  }

  /** A container more is terminated, whose own token is at `top`. */
  lemma {:induction false} RepairsMore(first: seq<Token>, before: seq<Token>, after: seq<Token>, top: nat,
                                       dummy: seq<Token>, start: nat)
    requires Repairs(first, before, start) && top < |before| && |after| == |before| + |dummy| + 1
    requires dummy == [] || dummy == [Token(start, DictToken, 2, 0), Token(start, EndToken, 0, 0)]
    requires after[..|after| - 1] == (before + dummy)[top := before[top].(nextItem := after[top].nextItem)]
    requires after[|after| - 1] == Token(start, EndToken, 1, 0)
    ensures Repairs(first, after, start)
  {
    forall k | 0 <= k < |after|
      ensures k < |before| ==> after[k].(nextItem := 0) == before[k].(nextItem := 0)
      ensures k >= |before| ==> after[k].kind != IntegerToken && after[k].offset == start
    {
      if k < |after| - 1 {
        assert after[k] == after[..|after| - 1][k];
      }
    }
  }

  lemma {:induction false} RepairStands(before: seq<Token>, after: seq<Token>, b: Bytes, hi: nat, start: nat)
    requires IntsStand(before, b, hi) && hi <= start && Repairs(before, after, start)
    ensures IntsStand(after, b, start)
  {
    forall k | 0 <= k < |after| && after[k].kind == IntegerToken
      ensures TokenStands(after, k, b, start)
    {
      assert after[k].(nextItem := 0) == before[k].(nextItem := 0);
      assert TokenStands(before, k, b, hi);
      forall m | k < m < |after|
        ensures IntEnd(b, after[k].offset) < after[m].offset
      {
        if m < |before| {
          assert after[m].(nextItem := 0) == before[m].(nextItem := 0);
        }
      }
    }
  }
}
