/**
 What the main loop of libtorrent's bdecoder keeps while it reads a value, and what each of its turns does to that:
 the containers that are open, as the stack and the token array tell them, are those of a part of a value of the
 grammar, and every value that the buffer could begin with continues that part.
 */
module BdecodeReading {
  import opened Bytes
  import opened BencodeGrammar
  import opened BdecodeScan
  import opened BdecodeTokens

  /** `token` is an index into the tokens. In a dictionary, `state` is 0 for a key and 1 for a value. */
  datatype StackFrame = StackFrame(token: nat, state: nat)

  /** `t` is the value that the buffer begins with, and it is within the limits. */
  ghost predicate Fits(t: Tree, b: Bytes, depthLimit: int, tokenLimit: int) {
    |b| <= MAX_OFFSET && Lax(t) && Render(t) <= b && Nesting(t) < depthLimit && TokenCount(t) <= tokenLimit
  }

  ghost predicate FramesMatch(frames: seq<StackFrame>, ctx: seq<Open>) {
    |frames| == |ctx| && forall j :: 0 <= j < |ctx| ==> frames[j] == FrameOf(ctx, j)
  }

  ghost function FrameOf(ctx: seq<Open>, j: nat): StackFrame
    requires j < |ctx|
  {
    StackFrame(TopIndex(ctx, j), if LevelsOpen(ctx)[j].wantValue then 1 else 0)
  }

  /** The buffer was read up to `at`, with the containers `ctx` open. */
  ghost predicate Reading(b: Bytes, at: nat, tokens: seq<Token>, frames: seq<StackFrame>, ctx: seq<Open>) {
    && at <= |b| && b[..at] == RenderOpen(ctx)
    && tokens == FlatOpen(ctx)
    && FramesMatch(frames, ctx)
    && LaxOpen(ctx)
  }

  /** Every value that the buffer begins with begins with what was read, and goes on. */
  ghost predicate Viable(b: Bytes, ctx: seq<Open>) {
    forall t :: Lax(t) && Render(t) <= b ==> LexemesOpen(ctx) < Lexemes(t)
  }

  lemma {:induction false} ReadingStarts(b: Bytes)
    ensures Reading(b, 0, [], [], []) && Viable(b, [])
  {}

  // ----- the innermost container

  lemma {:induction false} TopFacts(b: Bytes, at: nat, tokens: seq<Token>, frames: seq<StackFrame>, ctx: seq<Open>)
    requires Reading(b, at, tokens, frames, ctx) && ctx != []
    ensures var top, isDict := frames[|frames| - 1], ctx[|ctx| - 1].isDict;
      && top.token == TopIndex(ctx, |ctx| - 1) < |tokens|
      && top.state == (if isDict && |ctx[|ctx| - 1].items| % 2 == 1 then 1 else 0)
      && tokens[top.token] == Token(|RenderOpen(ctx[..|ctx| - 1])|, ContainerType(isDict), 0, 0)
      && LevelsOpen(ctx)[|ctx| - 1] == Level(isDict, top.state == 1)
  {
    FlatOpenPrefix(ctx, |ctx| - 1);
  }

  /** The frames after a value was started in the innermost container. */
  function FramesAfterValue(frames: seq<StackFrame>, inDict: bool): (r: seq<StackFrame>)
    ensures |r| == |frames|
  {
    if frames == [] || !inDict then frames else
    var top := frames[|frames| - 1];
    frames[..|frames| - 1] + [top.(state := (top.state + 1) % 2)]
  }

  predicate InDict(ctx: seq<Open>) {
    ctx != [] && ctx[|ctx| - 1].isDict
  }

  // ----- what was read is a part of a value

  /** The lexemes that were read are those of the bytes, and the automaton has accepted them. */
  lemma {:induction false} OpenIsAccepted(ctx: seq<Open>)
    requires LaxOpen(ctx)
    ensures Run([], LexemesOpen(ctx)) == Some(LevelsOpen(ctx))
    ensures RenderLexemes(LexemesOpen(ctx)) == RenderOpen(ctx)
  {
    if ctx != [] {
      var init, top := ctx[..|ctx| - 1], ctx[|ctx| - 1];
      OuterIsLax(ctx);
      OpenIsAccepted(init);
      TopIsAccepted(LevelsOpen(init), top);
      var ls := [OpenLexeme(top.isDict)] + LexemesAll(top.items);
      RunConcat([], LexemesOpen(init), ls);
      RenderLexemesConcat(LexemesOpen(init), ls);
    }
  }

  lemma {:induction false} OuterIsLax(ctx: seq<Open>)
    requires LaxOpen(ctx) && ctx != []
    ensures LaxOpen(ctx[..|ctx| - 1]) && !AtKey(LevelsOpen(ctx[..|ctx| - 1]))
  {}

  lemma {:induction false} TopIsAccepted(s: seq<Level>, top: Open)
    requires !AtKey(s) && LaxAll(top.items) && (top.isDict ==> KeysAreStrings(top.items))
    ensures var ls := [OpenLexeme(top.isDict)] + LexemesAll(top.items);
      && Run(s, ls) == Some(AfterValue(s) + [Level(top.isDict, top.isDict && |top.items| % 2 == 1)])
      && RenderLexemes(ls) == [OpenByte(top.isDict)] + RenderAll(top.items)
  {
    TopRuns(s, top);
    TopRenders(top);
  }

  lemma {:induction false} TopRuns(s: seq<Level>, top: Open)
    requires !AtKey(s) && LaxAll(top.items) && (top.isDict ==> KeysAreStrings(top.items))
    ensures Run(s, [OpenLexeme(top.isDict)] + LexemesAll(top.items))
         == Some(AfterValue(s) + [Level(top.isDict, top.isDict && |top.items| % 2 == 1)])
  {
    var open, ls := OpenLexeme(top.isDict), LexemesAll(top.items);
    var inner := AfterValue(s) + [Level(top.isDict, false)];
    AcceptsOne(s, open, |inner|, inner);
    RunConcat(s, [open], ls);
    ItemsAreAccepted(inner, top.items);
  }

  lemma {:induction false} TopRenders(top: Open)
    ensures RenderLexemes([OpenLexeme(top.isDict)] + LexemesAll(top.items))
         == [OpenByte(top.isDict)] + RenderAll(top.items)
  {
    var open := OpenLexeme(top.isDict);
    RenderAllByLexemes(top.items);
    RenderLexemesConcat([open], LexemesAll(top.items));
    RenderOne(open);
  }

  // ----- one turn of the loop

  lemma {:induction false} OpenStep(b: Bytes, at: nat, tokens: seq<Token>, frames: seq<StackFrame>, ctx: seq<Open>,
                                    isDict: bool)
    requires Reading(b, at, tokens, frames, ctx) && !AtKey(LevelsOpen(ctx))
    requires at < |b| && b[at] == OpenByte(isDict)
    ensures Reading(b, at + 1, tokens + [Token(at, ContainerType(isDict), 0, 0)],
              FramesAfterValue(frames, InDict(ctx)) + [StackFrame(|tokens|, 0)], Pushed(ctx, isDict))
  {
    PushedIsLax(ctx, isDict);
    FramesPush(frames, ctx, isDict);
    assert b[..at + 1] == RenderOpen(Pushed(ctx, isDict)) by {
      PushedRenders(ctx, isDict);
      OneMore(b, at);
    }
    PushedFlat(ctx, isDict);
  }

  lemma {:induction false} FrameAfter(frames: seq<StackFrame>, inDict: bool, j: nat)
    requires j < |frames|
    ensures FramesAfterValue(frames, inDict)[j] ==
      if j == |frames| - 1 && inDict then frames[j].(state := (frames[j].state + 1) % 2) else frames[j]
  {}

  lemma {:induction false} LevelAfter(s: seq<Level>, j: nat)
    requires j < |s|
    ensures AfterValue(s)[j] == if j == |s| - 1 && s[j].isDict then Level(true, !s[j].wantValue) else s[j]
  {}

  lemma {:induction false} TopLevel(ctx: seq<Open>)
    requires ctx != []
    ensures LevelsOpen(ctx)[|ctx| - 1].isDict == ctx[|ctx| - 1].isDict
  {}

  lemma {:induction false} FramesPush(frames: seq<StackFrame>, ctx: seq<Open>, isDict: bool)
    requires FramesMatch(frames, ctx)
    ensures FramesMatch(FramesAfterValue(frames, InDict(ctx)) + [StackFrame(|FlatOpen(ctx)|, 0)], Pushed(ctx, isDict))
  {
    var p := Pushed(ctx, isDict);
    assert LevelsOpen(p) == AfterValue(LevelsOpen(ctx)) + [Level(isDict, false)] by { PushedIs(ctx, isDict); }
    forall j | 0 <= j < |ctx|
      ensures FramesAfterValue(frames, InDict(ctx))[j] == FrameOf(p, j)
    {
      FrameStays(frames, ctx, p, j);
    }
    assert p[..|ctx|] == ctx;
    assert FrameOf(p, |ctx|) == StackFrame(|FlatOpen(ctx)|, 0);
  }

  /** The frames outside of the place where something was read are as before, but for the turn of key and value. */
  lemma {:induction false} FrameStays(frames: seq<StackFrame>, ctx: seq<Open>, p: seq<Open>, j: nat)
    requires FramesMatch(frames, ctx) && j < |ctx| <= |p| && p[..|ctx| - 1] == ctx[..|ctx| - 1]
    requires LevelsOpen(p)[j] == AfterValue(LevelsOpen(ctx))[j]
    ensures FramesAfterValue(frames, InDict(ctx))[j] == FrameOf(p, j)
  {
    assert TopIndex(p, j) == TopIndex(ctx, j) by {
      assert p[..j] == p[..|ctx| - 1][..j] == ctx[..|ctx| - 1][..j] == ctx[..j];
    }
    TopLevel(ctx);
    FrameTurns(frames, InDict(ctx), j, LevelsOpen(ctx), TopIndex(ctx, j));
  }

  lemma {:induction false} FrameTurns(frames: seq<StackFrame>, inDict: bool, j: nat, s: seq<Level>, index: nat)
    requires j < |frames| == |s| && inDict == s[|s| - 1].isDict
    requires frames[j] == StackFrame(index, if s[j].wantValue then 1 else 0)
    ensures FramesAfterValue(frames, inDict)[j] == StackFrame(index, if AfterValue(s)[j].wantValue then 1 else 0)
  {
    FrameAfter(frames, inDict, j);
    LevelAfter(s, j);
  }

  /** An item of the innermost container was read completely. */
  lemma {:induction false} ItemStep(b: Bytes, at: nat, next: nat, tokens: seq<Token>, frames: seq<StackFrame>,
                                    ctx: seq<Open>, t: Tree)
    requires Reading(b, at, tokens, frames, ctx) && ctx != []
    requires Lax(t) && (AtKey(LevelsOpen(ctx)) ==> t.TStr?)
    requires at <= next <= |b| && b[at..next] == Render(t)
    ensures Reading(b, next, tokens + Flat(t, at), FramesAfterValue(frames, InDict(ctx)), Added(ctx, t))
  {
    AddedIsLax(ctx, t);
    FramesItem(frames, ctx, t);
    assert b[..next] == RenderOpen(Added(ctx, t)) by {
      AddedRenders(ctx, t);
      SliceExtends(b, at, next);
    }
    AddedFlat(ctx, t);
  }

  lemma {:induction false} FramesItem(frames: seq<StackFrame>, ctx: seq<Open>, t: Tree)
    requires FramesMatch(frames, ctx) && ctx != []
    ensures FramesMatch(FramesAfterValue(frames, InDict(ctx)), Added(ctx, t))
  {
    var a := Added(ctx, t);
    AddedLevels(ctx, t);
    forall j | 0 <= j < |ctx|
      ensures FramesAfterValue(frames, InDict(ctx))[j] == FrameOf(a, j)
    {
      assert a[..|ctx| - 1] == ctx[..|ctx| - 1];
      FrameStays(frames, ctx, a, j);
    }
  }

  /** The innermost container was closed, and is an item of the one around it. */
  lemma {:induction false} EndStep(b: Bytes, at: nat, tokens: seq<Token>, frames: seq<StackFrame>, ctx: seq<Open>)
    requires Reading(b, at, tokens, frames, ctx) && |ctx| > 1 && !LevelsOpen(ctx)[|ctx| - 1].wantValue
    requires at < |b| && b[at] == LETTER_E
    ensures Reading(b, at + 1, Linked(ctx), frames[..|frames| - 1], Added(ctx[..|ctx| - 1], Closed(ctx[|ctx| - 1])))
  {
    var init, t := ctx[..|ctx| - 1], Closed(ctx[|ctx| - 1]);
    var inner := seq(|init|, j requires 0 <= j < |init| => FrameOf(init, j));
    OuterIsLax(ctx);
    ClosedIsLax(ctx);
    ClosedBytes(b, at, ctx);
    assert Reading(b, |RenderOpen(init)|, FlatOpen(init), inner, init);
    ItemStep(b, |RenderOpen(init)|, at + 1, FlatOpen(init), inner, init, t);
    LinkedIs(ctx);
    FramesOuter(frames, ctx, inner);
  }

  lemma {:induction false} ClosedIsLax(ctx: seq<Open>)
    requires LaxOpen(ctx) && ctx != [] && !LevelsOpen(ctx)[|ctx| - 1].wantValue
    ensures Lax(Closed(ctx[|ctx| - 1]))
  {
    assert LaxAll(ctx[|ctx| - 1].items);
  }

  lemma {:induction false} ClosedBytes(b: Bytes, at: nat, ctx: seq<Open>)
    requires ctx != [] && at < |b| && b[..at] == RenderOpen(ctx) && b[at] == LETTER_E
    ensures var init := ctx[..|ctx| - 1]; var from := |RenderOpen(init)|;
      && from <= at && b[..from] == RenderOpen(init) && b[from..at + 1] == Render(Closed(ctx[|ctx| - 1]))
  {
    var init, t := ctx[..|ctx| - 1], Closed(ctx[|ctx| - 1]);
    ClosedIs(ctx);
    OneMore(b, at);
    var whole := b[..at + 1];
    assert whole == RenderOpen(init) + Render(t);
    assert |RenderOpen(init)| <= at;
    assert b[..|RenderOpen(init)|] == whole[..|RenderOpen(init)|];
    assert b[|RenderOpen(init)|..at + 1] == whole[|RenderOpen(init)|..];
  }

  lemma {:induction false} FramesOuter(frames: seq<StackFrame>, ctx: seq<Open>, inner: seq<StackFrame>)
    requires FramesMatch(frames, ctx) && |ctx| > 1
    requires FramesMatch(inner, ctx[..|ctx| - 1])
    ensures FramesAfterValue(inner, InDict(ctx[..|ctx| - 1])) == frames[..|frames| - 1]
  {
    var init := ctx[..|ctx| - 1];
    forall j | 0 <= j < |init|
      ensures FramesAfterValue(inner, InDict(init))[j] == frames[j]
    {
      assert ctx[..|init| - 1] == init[..|init| - 1];
      FrameStays(inner, init, ctx, j);
      assert frames[j] == FrameOf(ctx, j);
    }
  }

  /** The outermost container was closed, and the value is complete. */
  lemma {:induction false} LastEndStep(b: Bytes, at: nat, tokens: seq<Token>, frames: seq<StackFrame>, ctx: seq<Open>)
    requires Reading(b, at, tokens, frames, ctx) && |ctx| == 1 && !LevelsOpen(ctx)[0].wantValue
    requires at < |b| && b[at] == LETTER_E
    ensures var t := Closed(ctx[0]);
      Lax(t) && b[..at + 1] == Render(t) && Linked(ctx) == Flat(t, 0) && Lexemes(t) == LexemesOpen(ctx) + [LEnd]
  {
    var init := ctx[..0];
    assert init == [];
    ClosedBytes(b, at, ctx);
    ClosedIs(ctx);
    LinkedIs(ctx);
    assert [] + Flat(Closed(ctx[0]), 0) == Flat(Closed(ctx[0]), 0);
    assert [] + Lexemes(Closed(ctx[0])) == Lexemes(Closed(ctx[0]));
    ClosedIsLax(ctx);
  }

  // ----- no value of the grammar is missed

  /** In a value that continues what was read, the next lexeme is there, is acceptable, and stays within its nesting. */
  lemma {:induction false} FollowedBy(b: Bytes, at: nat, ctx: seq<Open>, t: Tree)
    requires at <= |b| && b[..at] == RenderOpen(ctx) && LaxOpen(ctx)
    requires Lax(t) && Render(t) <= b && LexemesOpen(ctx) < Lexemes(t)
    ensures var l := Lexemes(t)[|LexemesOpen(ctx)|];
      LaxLexeme(l) && RenderLexeme(l) <= b[at..] && Step(LevelsOpen(ctx), l).Some? && |ctx| <= Nesting(t)
  {
    FollowedByText(b, at, ctx, t);
    FollowedByStep(ctx, t);
  }

  lemma {:induction false} FollowedByText(b: Bytes, at: nat, ctx: seq<Open>, t: Tree)
    requires at <= |b| && b[..at] == RenderOpen(ctx) && LaxOpen(ctx)
    requires Lax(t) && Render(t) <= b && LexemesOpen(ctx) < Lexemes(t)
    ensures LaxLexeme(Lexemes(t)[|LexemesOpen(ctx)|])
    ensures RenderLexeme(Lexemes(t)[|LexemesOpen(ctx)|]) <= b[at..]
  {
    OpenIsAccepted(ctx);
    RenderByLexemes(t);
    TextAt(b, at, LexemesOpen(ctx), Lexemes(t));
  }

  lemma {:induction false} TextAt(b: Bytes, at: nat, read: seq<Lexeme>, ls: seq<Lexeme>)
    requires at <= |b| && b[..at] == RenderLexemes(read)
    requires read < ls && RenderLexemes(ls) <= b
    ensures RenderLexeme(ls[|read|]) <= b[at..]
  {
    var l, rest := ls[|read|], ls[|read| + 1..];
    assert RenderLexemes(ls) == (RenderLexemes(read) + RenderLexeme(l)) + RenderLexemes(rest) by {
      SplitAround(read, ls);
      AppendLexeme(read, l);
      RenderLexemesConcat(read + [l], rest);
    }
    ContinuesWith(b, at, RenderLexemes(read), RenderLexeme(l), RenderLexemes(rest));
  }

  lemma {:induction false} FollowedByStep(ctx: seq<Open>, t: Tree)
    requires LaxOpen(ctx) && Lax(t) && LexemesOpen(ctx) < Lexemes(t)
    ensures Step(LevelsOpen(ctx), Lexemes(t)[|LexemesOpen(ctx)|]).Some? && |ctx| <= Nesting(t)
  {
    var k := |LexemesOpen(ctx)|;
    OpenIsAccepted(ctx);
    TreeIsAccepted([], t);
    assert Run([], Lexemes(t)[..k]).Some? && Run([], Lexemes(t)[..k + 1]).Some?;
    StepAt(LexemesOpen(ctx), Lexemes(t));
  }

  lemma {:induction false} StepAt(read: seq<Lexeme>, ls: seq<Lexeme>)
    requires read < ls && Run([], ls[..|read| + 1]).Some?
    ensures ls[..|read|] == read && Run([], read).Some? && Step(Run([], read).value, ls[|read|]).Some?
  {
    assert ls[..|read| + 1][..|read|] == read;
  }

  lemma {:induction false} ContinuesWith(b: Bytes, at: nat, x: Bytes, y: Bytes, z: Bytes)
    requires at <= |b| && b[..at] == x && (x + y) + z <= b
    ensures y <= b[at..]
  {
    var whole := (x + y) + z;
    assert b[..|whole|] == whole;
    assert b[at..][..|y|] == whole[at..at + |y|] == y;
  }

  lemma {:induction false} StuckFitsNothing(b: Bytes, at: nat, ctx: seq<Open>, depthLimit: int, tokenLimit: int,
                                            t: Tree)
    requires at <= |b| <= MAX_OFFSET && b[..at] == RenderOpen(ctx) && LaxOpen(ctx) && Viable(b, ctx)
    requires Next(b, at, LevelsOpen(ctx), |LexemesOpen(ctx)|, depthLimit, tokenLimit).Bad?
    ensures !Fits(t, b, depthLimit, tokenLimit)
  {
    if Fits(t, b, depthLimit, tokenLimit) {
      FollowedBy(b, at, ctx, t);
      NextIsComplete(b, at, LevelsOpen(ctx), |LexemesOpen(ctx)|, depthLimit, tokenLimit,
        Lexemes(t)[|LexemesOpen(ctx)|]);
    }
  }

  /** The lexeme that was read is the one that every value continues with. */
  lemma {:induction false} StepStaysViable(b: Bytes, at: nat, ctx: seq<Open>, l: Lexeme, after: seq<Open>)
    requires at <= |b| && b[..at] == RenderOpen(ctx) && LaxOpen(ctx) && Viable(b, ctx)
    requires LaxLexeme(l) && RenderLexeme(l) <= b[at..]
    requires LexemesOpen(after) == LexemesOpen(ctx) + [l] && LaxOpen(after) && after != []
    ensures Viable(b, after)
  {
    forall t | Lax(t) && Render(t) <= b
      ensures LexemesOpen(after) < Lexemes(t)
    {
      var k := |LexemesOpen(ctx)|;
      FollowedByText(b, at, ctx, t);
      LexemeIsUnique(l, Lexemes(t)[k], b[at..]);
      OpenIsNoValue(after, t);
      LongerPrefix(LexemesOpen(ctx), Lexemes(t));
    }
  }

  lemma {:induction false} SplitAround<T>(read: seq<T>, ls: seq<T>)
    requires read < ls
    ensures ls == (read + [ls[|read|]]) + ls[|read| + 1..]
  {}

  lemma {:induction false} LongerPrefix<T>(read: seq<T>, ls: seq<T>)
    requires read < ls
    ensures read + [ls[|read|]] <= ls
    ensures read + [ls[|read|]] != ls ==> read + [ls[|read|]] < ls
  {}

  /** As long as a container is open, the value is not complete. */
  lemma {:induction false} OpenIsNoValue(ctx: seq<Open>, t: Tree)
    requires LaxOpen(ctx) && ctx != [] && Lax(t)
    ensures LexemesOpen(ctx) != Lexemes(t)
  {
    OpenIsAccepted(ctx);
    TreeIsAccepted([], t);
  }

  // ----- the loop invariant, and how every turn keeps it

  /** The depth limit was looked at after everything that was opened. */
  ghost predicate Within(ctx: seq<Open>, depthLimit: int) {
    forall j :: 0 <= j < |ctx| ==> ctx[j].items == [] || j + 1 + NestingAll(ctx[j].items) < depthLimit
  }

  ghost predicate Going(b: Bytes, at: nat, tokens: seq<Token>, frames: seq<StackFrame>, ctx: seq<Open>,
                        depthLimit: int) {
    Reading(b, at, tokens, frames, ctx) && Viable(b, ctx) && Within(ctx, depthLimit)
  }

  lemma {:induction false} AppendNesting(items: seq<Tree>, t: Tree)
    ensures var a, b := NestingAll(items), Nesting(t); NestingAll(items + [t]) == if a < b then b else a
  {
    assert (items + [t])[..|items|] == items;
  }

  lemma {:induction false} OpenTurn(b: Bytes, at: nat, tokens: seq<Token>, frames: seq<StackFrame>, ctx: seq<Open>,
                                    depthLimit: int, isDict: bool)
    requires Going(b, at, tokens, frames, ctx, depthLimit) && !AtKey(LevelsOpen(ctx))
    requires at < |b| && b[at] == OpenByte(isDict)
    ensures Going(b, at + 1, tokens + [Token(at, ContainerType(isDict), 0, 0)],
              FramesAfterValue(frames, InDict(ctx)) + [StackFrame(|tokens|, 0)], Pushed(ctx, isDict), depthLimit)
  {
    OpenStep(b, at, tokens, frames, ctx, isDict);
    PushedRenders(ctx, isDict);
    StepStaysViable(b, at, ctx, OpenLexeme(isDict), Pushed(ctx, isDict));
  }

  /** An integer or a string, as a value of its own. */
  function LeafLexeme(t: Tree): Lexeme
    requires t.TInt? || t.TStr?
  {
    match t
    case TInt(body) => LInt(body)
    case TStr(digits, content) => LStr(digits, content)
  }

  lemma {:induction false} LeafTurn(b: Bytes, at: nat, next: nat, tokens: seq<Token>, frames: seq<StackFrame>,
                                    ctx: seq<Open>, depthLimit: int, t: Tree)
    requires Going(b, at, tokens, frames, ctx, depthLimit) && 0 < |ctx| < depthLimit
    requires t.TInt? || t.TStr?
    requires Lax(t) && (AtKey(LevelsOpen(ctx)) ==> t.TStr?)
    requires at <= next <= |b| && b[at..next] == Render(t)
    ensures Going(b, next, tokens + Flat(t, at), FramesAfterValue(frames, InDict(ctx)), Added(ctx, t), depthLimit)
  {
    ItemStep(b, at, next, tokens, frames, ctx, t);
    LeafStaysViable(b, at, next, ctx, t);
    AddedStaysWithin(ctx, depthLimit, t);
  }

  lemma {:induction false} AddedStaysWithin(ctx: seq<Open>, depthLimit: int, t: Tree)
    requires Within(ctx, depthLimit) && ctx != [] && |ctx| + Nesting(t) < depthLimit
    ensures Within(Added(ctx, t), depthLimit)
  {
    AppendNesting(ctx[|ctx| - 1].items, t);
  }

  lemma {:induction false} LeafStaysViable(b: Bytes, at: nat, next: nat, ctx: seq<Open>, t: Tree)
    requires at <= next <= |b| && b[..at] == RenderOpen(ctx) && LaxOpen(ctx) && Viable(b, ctx)
    requires ctx != [] && LaxOpen(Added(ctx, t)) && (t.TInt? || t.TStr?) && Lax(t) && b[at..next] == Render(t)
    ensures Viable(b, Added(ctx, t))
  {
    AddedLexemes(ctx, t);
    assert RenderLexeme(LeafLexeme(t)) == b[at..next] <= b[at..];
    StepStaysViable(b, at, ctx, LeafLexeme(t), Added(ctx, t));
  }

  lemma {:induction false} EndTurn(b: Bytes, at: nat, tokens: seq<Token>, frames: seq<StackFrame>, ctx: seq<Open>,
                                   depthLimit: int)
    requires Going(b, at, tokens, frames, ctx, depthLimit) && 1 < |ctx| < depthLimit
    requires at < |b| && b[at] == LETTER_E && !LevelsOpen(ctx)[|ctx| - 1].wantValue
    ensures Going(b, at + 1, Linked(ctx), frames[..|frames| - 1],
              Added(ctx[..|ctx| - 1], Closed(ctx[|ctx| - 1])), depthLimit)
  {
    var init, t := ctx[..|ctx| - 1], Closed(ctx[|ctx| - 1]);
    EndStep(b, at, tokens, frames, ctx);
    AddedLexemes(init, t);
    ClosedIs(ctx);
    StepStaysViable(b, at, ctx, LEnd, Added(init, t));
    AddedStaysWithin(init, depthLimit, t);
  }

  lemma {:induction false} LeafFits(b: Bytes, next: nat, depthLimit: int, tokenLimit: int, t: Tree)
    requires t.TInt? || t.TStr?
    requires Lax(t) && next <= |b| <= MAX_OFFSET && b[..next] == Render(t) && 0 < depthLimit && 0 < tokenLimit
    ensures Fits(t, b, depthLimit, tokenLimit)
  {}

  lemma {:induction false} ContainerFits(b: Bytes, at: nat, tokens: seq<Token>, frames: seq<StackFrame>, ctx: seq<Open>,
                                         depthLimit: int, tokenLimit: int)
    requires Going(b, at, tokens, frames, ctx, depthLimit) && |ctx| == 1 < depthLimit && |tokens| < tokenLimit
    requires at < |b| <= MAX_OFFSET && b[at] == LETTER_E && !LevelsOpen(ctx)[0].wantValue
    ensures Fits(Closed(ctx[0]), b, depthLimit, tokenLimit)
    ensures Linked(ctx) == Flat(Closed(ctx[0]), 0) && at + 1 == |Render(Closed(ctx[0]))|
  {
    LastEndStep(b, at, tokens, frames, ctx);
    assert b[..at + 1] <= b;
  }
}
