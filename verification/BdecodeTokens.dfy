/**
 The flat token array of libtorrent's bdecoder: the tokens themselves, the array that a whole value is laid out
 as, and the array of a value of which only a part was read.
 */
module BdecodeTokens {
  import opened Bytes
  import opened BencodeGrammar
  import opened BdecodeScan

  datatype TokenType = NoneToken | DictToken | ListToken | StringToken | IntegerToken | LongStringToken | EndToken

  /** `nextItem` is relative. `header` is the length prefix of a string, less the bytes that its type implies. */
  datatype Token = Token(offset: nat, kind: TokenType, nextItem: nat, header: nat) {

    predicate IsString() {
      kind == StringToken || kind == LongStringToken
    }

    predicate IsContainer() {
      kind == DictToken || kind == ListToken
    }

    /** How far behind its offset a string begins. */
    function StartOffset(): nat
      requires IsString()
    {
      if kind == StringToken then header + 2 else header + 8 + 2
    }

    /** Where the contents of a string begin, behind its length; where any other value begins. */
    function ContentStart(): nat {
      if IsString() then offset + StartOffset() else offset
    }
  }

  predicate TokenFits(t: Token) {
    t.offset <= MAX_OFFSET && t.nextItem <= MAX_NEXT_ITEM && t.header < 8
  }

  /** The constructor of a token. What it requires are its assertions. */
  function MakeToken(offset: nat, nextItem: nat, kind: TokenType, headerSize: nat): (t: Token)
    requires offset <= MAX_OFFSET && nextItem <= MAX_NEXT_ITEM
    requires kind == StringToken ==> 2 <= headerSize <= LONG_STRING_MAX_HEADER
    requires kind != LongStringToken
    ensures TokenFits(t) && t.offset == offset && t.nextItem == nextItem
    ensures kind == StringToken ==> t.IsString() && t.StartOffset() == headerSize
    ensures kind != StringToken ==> t.kind == kind
  {
    if kind != StringToken then Token(offset, kind, nextItem, 0)
    else if headerSize > SHORT_STRING_MAX_HEADER then Token(offset, LongStringToken, nextItem, headerSize - 8 - 2)
    else Token(offset, StringToken, nextItem, headerSize - 2)
  }

  /** The token of a string whose length prefix and colon take up `headerSize` bytes. */
  function StringTokenOf(offset: nat, headerSize: nat): Token {
    if headerSize > SHORT_STRING_MAX_HEADER then Token(offset, LongStringToken, 1, headerSize - 8 - 2)
    else Token(offset, StringToken, 1, if headerSize < 2 then 0 else headerSize - 2)
  }

  function ContainerType(isDict: bool): TokenType {
    if isDict then DictToken else ListToken
  }

  // ----- the layout of a whole value

  /** The tokens of the value `t` that starts at `offset`, in preorder; every container ends with an end token. */
  function Flat(t: Tree, offset: nat): (tokens: seq<Token>)
    ensures |tokens| == TokenCount(t)
    decreases t, 1
  {
    match t
    case TInt(_) => [Token(offset, IntegerToken, 1, 0)]
    case TStr(digits, _) => [StringTokenOf(offset, |digits| + 1)]
    case TList(items) => FlatContainer(false, items, offset)
    case TDict(items) => FlatContainer(true, items, offset)
  }

  function FlatContainer(isDict: bool, items: seq<Tree>, offset: nat): (tokens: seq<Token>)
    ensures |tokens| == |LexemesAll(items)| + 2
    decreases items, 1
  {
    [Token(offset, ContainerType(isDict), |LexemesAll(items)| + 2, 0)]
    + FlatAll(items, offset + 1)
    + [Token(offset + 1 + |RenderAll(items)|, EndToken, 1, 0)]
  }

  function FlatAll(items: seq<Tree>, offset: nat): (tokens: seq<Token>)
    ensures |tokens| == |LexemesAll(items)|
    decreases items, 0
  {
    if items == [] then [] else
    var init, last := items[..|items| - 1], items[|items| - 1];
    FlatAll(init, offset) + Flat(last, offset + |RenderAll(init)|)
  }

  // ----- a value of which only a part was read

  /** A container that is still open, with the items that were read completely. */
  datatype Open = Open(isDict: bool, items: seq<Tree>)

  function OpenByte(isDict: bool): Byte {
    if isDict then LETTER_D else LETTER_L
  }

  function OpenLexeme(isDict: bool): Lexeme {
    if isDict then LDict else LList
  }

  /** The bytes that were read, when the containers `ctx` are open, the innermost one last. */
  function RenderOpen(ctx: seq<Open>): Bytes {
    if ctx == [] then [] else
    var top := ctx[|ctx| - 1];
    RenderOpen(ctx[..|ctx| - 1]) + ([OpenByte(top.isDict)] + RenderAll(top.items))
  }

  function LexemesOpen(ctx: seq<Open>): seq<Lexeme> {
    if ctx == [] then [] else
    var top := ctx[|ctx| - 1];
    LexemesOpen(ctx[..|ctx| - 1]) + ([OpenLexeme(top.isDict)] + LexemesAll(top.items))
  }

  /** The tokens that were laid out. Those of the open containers are not linked yet. */
  function FlatOpen(ctx: seq<Open>): (tokens: seq<Token>)
    ensures |tokens| == |LexemesOpen(ctx)|
  {
    if ctx == [] then [] else
    var top, offset := ctx[|ctx| - 1], |RenderOpen(ctx[..|ctx| - 1])|;
    FlatOpen(ctx[..|ctx| - 1])
    + ([Token(offset, ContainerType(top.isDict), 0, 0)] + FlatAll(top.items, offset + 1))
  }

  function LevelsOpen(ctx: seq<Open>): (s: seq<Level>)
    ensures |s| == |ctx|
  {
    if ctx == [] then [] else
    var top := ctx[|ctx| - 1];
    AfterValue(LevelsOpen(ctx[..|ctx| - 1])) + [Level(top.isDict, top.isDict && |top.items| % 2 == 1)]
  }

  /** An open dictionary inside of which another container is open has read the key that goes with that one. */
  ghost predicate LaxOpen(ctx: seq<Open>) {
    forall i :: 0 <= i < |ctx| ==>
      && LaxAll(ctx[i].items)
      && (ctx[i].isDict ==> KeysAreStrings(ctx[i].items))
      && (ctx[i].isDict && i < |ctx| - 1 ==> |ctx[i].items| % 2 == 1)
  }

  /** The index of the token of the open container `j`. */
  function TopIndex(ctx: seq<Open>, j: nat): nat
    requires j <= |ctx|
  {
    |FlatOpen(ctx[..j])|
  }

  // ----- reading on: a container is opened, an item is completed

  function Pushed(ctx: seq<Open>, isDict: bool): seq<Open> {
    ctx + [Open(isDict, [])]
  }

  function Added(ctx: seq<Open>, t: Tree): seq<Open>
    requires ctx != []
  {
    var top := ctx[|ctx| - 1];
    ctx[..|ctx| - 1] + [Open(top.isDict, top.items + [t])]
  }

  function Closed(top: Open): Tree {
    if top.isDict then TDict(top.items) else TList(top.items)
  }

  lemma {:induction false} OpenIs(init: seq<Open>, top: Open)
    ensures RenderOpen(init + [top]) == RenderOpen(init) + ([OpenByte(top.isDict)] + RenderAll(top.items))
    ensures LexemesOpen(init + [top]) == LexemesOpen(init) + ([OpenLexeme(top.isDict)] + LexemesAll(top.items))
  {
    InitOfAppend(init, top);
  }

  lemma {:induction false} FlatOpenIs(init: seq<Open>, top: Open)
    ensures var offset := |RenderOpen(init)|;
      FlatOpen(init + [top])
      == FlatOpen(init) + ([Token(offset, ContainerType(top.isDict), 0, 0)] + FlatAll(top.items, offset + 1))
  {
    InitOfAppend(init, top);
  }

  lemma {:induction false} LevelsOpenIs(init: seq<Open>, top: Open)
    ensures LevelsOpen(init + [top])
         == AfterValue(LevelsOpen(init)) + [Level(top.isDict, top.isDict && |top.items| % 2 == 1)]
  {
    InitOfAppend(init, top);
  }

  lemma {:induction false} AfterValueOfLast(s: seq<Level>, last: Level)
    ensures AfterValue(s + [last]) == s + [if last.isDict then Level(true, !last.wantValue) else last]
  {}

  lemma {:induction false} PushedIs(ctx: seq<Open>, isDict: bool)
    ensures var p := Pushed(ctx, isDict);
      && RenderOpen(p) == RenderOpen(ctx) + [OpenByte(isDict)]
      && LexemesOpen(p) == LexemesOpen(ctx) + [OpenLexeme(isDict)]
      && FlatOpen(p) == FlatOpen(ctx) + [Token(|RenderOpen(ctx)|, ContainerType(isDict), 0, 0)]
      && LevelsOpen(p) == AfterValue(LevelsOpen(ctx)) + [Level(isDict, false)]
  {
    PushedRenders(ctx, isDict);
    PushedFlat(ctx, isDict);
    LevelsOpenIs(ctx, Open(isDict, []));
  }

  lemma {:induction false} PushedRenders(ctx: seq<Open>, isDict: bool)
    ensures RenderOpen(Pushed(ctx, isDict)) == RenderOpen(ctx) + [OpenByte(isDict)]
    ensures LexemesOpen(Pushed(ctx, isDict)) == LexemesOpen(ctx) + [OpenLexeme(isDict)]
  {
    OpenIs(ctx, Open(isDict, []));
    assert [OpenByte(isDict)] + RenderAll([]) == [OpenByte(isDict)];
    assert [OpenLexeme(isDict)] + LexemesAll([]) == [OpenLexeme(isDict)];
  }

  lemma {:induction false} PushedFlat(ctx: seq<Open>, isDict: bool)
    ensures FlatOpen(Pushed(ctx, isDict)) == FlatOpen(ctx) + [Token(|RenderOpen(ctx)|, ContainerType(isDict), 0, 0)]
  {
    FlatOpenIs(ctx, Open(isDict, []));
    var open := [Token(|RenderOpen(ctx)|, ContainerType(isDict), 0, 0)];
    assert open + FlatAll([], |RenderOpen(ctx)| + 1) == open;
  }

  lemma {:induction false} PushedIsLax(ctx: seq<Open>, isDict: bool)
    requires LaxOpen(ctx) && !AtKey(LevelsOpen(ctx))
    ensures LaxOpen(Pushed(ctx, isDict))
  {}

  lemma {:induction false} AddedIsLax(ctx: seq<Open>, t: Tree)
    requires ctx != [] && LaxOpen(ctx) && Lax(t) && (AtKey(LevelsOpen(ctx)) ==> t.TStr?)
    ensures LaxOpen(Added(ctx, t))
  {
    var top := ctx[|ctx| - 1];
    assert LaxAll(top.items);
    assert LevelsOpen(ctx)[|ctx| - 1] == Level(top.isDict, top.isDict && |top.items| % 2 == 1);
  }

  lemma {:induction false} AddedLexemes(ctx: seq<Open>, t: Tree)
    requires ctx != []
    ensures LexemesOpen(Added(ctx, t)) == LexemesOpen(ctx) + Lexemes(t)
  {
    var top, init := ctx[|ctx| - 1], ctx[..|ctx| - 1];
    OpenIs(init, Open(top.isDict, top.items + [t]));
    AppendItem(top.items, t);
    ConcatAssociative4(LexemesOpen(init), [OpenLexeme(top.isDict)], LexemesAll(top.items), Lexemes(t));
  }

  lemma {:induction false} AddedRenders(ctx: seq<Open>, t: Tree)
    requires ctx != []
    ensures RenderOpen(Added(ctx, t)) == RenderOpen(ctx) + Render(t)
  {
    var top, init := ctx[|ctx| - 1], ctx[..|ctx| - 1];
    OpenIs(init, Open(top.isDict, top.items + [t]));
    AppendItem(top.items, t);
    ConcatAssociative4(RenderOpen(init), [OpenByte(top.isDict)], RenderAll(top.items), Render(t));
  }

  lemma {:induction false} AppendFlat(items: seq<Tree>, t: Tree, offset: nat)
    ensures FlatAll(items + [t], offset) == FlatAll(items, offset) + Flat(t, offset + |RenderAll(items)|)
  {
    InitOfAppend(items, t);
  }

  lemma {:induction false} AddedFlat(ctx: seq<Open>, t: Tree)
    requires ctx != []
    ensures FlatOpen(Added(ctx, t)) == FlatOpen(ctx) + Flat(t, |RenderOpen(ctx)|)
  {
    var before, open, items, value := AddedParts(ctx, t);
    ConcatAssociative4(before, [open], items, value);
  }

  lemma {:induction false} AddedParts(ctx: seq<Open>, t: Tree)
    returns (before: seq<Token>, open: Token, items: seq<Token>, value: seq<Token>)
    requires ctx != []
    ensures FlatOpen(ctx) == before + ([open] + items) && value == Flat(t, |RenderOpen(ctx)|)
    ensures FlatOpen(Added(ctx, t)) == before + ([open] + (items + value))
  {
    var top, init := ctx[|ctx| - 1], ctx[..|ctx| - 1];
    var offset := |RenderOpen(init)|;
    assert ctx == init + [top];
    FlatOpenIs(init, top);
    OpenIs(init, top);
    FlatOpenIs(init, Open(top.isDict, top.items + [t]));
    before, open := FlatOpen(init), Token(offset, ContainerType(top.isDict), 0, 0);
    items, value := FlatAll(top.items, offset + 1), Flat(t, |RenderOpen(ctx)|);
    AppendFlat(top.items, t, offset + 1);
  }

  lemma {:induction false} AddedLevels(ctx: seq<Open>, t: Tree)
    requires ctx != []
    ensures LevelsOpen(Added(ctx, t)) == AfterValue(LevelsOpen(ctx))
  {
    var top, init := ctx[|ctx| - 1], ctx[..|ctx| - 1];
    LevelsOpenIs(init, Open(top.isDict, top.items + [t]));
    AfterValueOfLast(AfterValue(LevelsOpen(init)), Level(top.isDict, top.isDict && |top.items| % 2 == 1));
  }

  /** Closing the innermost container completes an item, which is laid out just where it was being read. */
  lemma {:induction false} ClosedIs(ctx: seq<Open>)
    requires ctx != []
    ensures var init, t := ctx[..|ctx| - 1], Closed(ctx[|ctx| - 1]);
      && RenderOpen(ctx) + [LETTER_E] == RenderOpen(init) + Render(t)
      && LexemesOpen(ctx) + [LEnd] == LexemesOpen(init) + Lexemes(t)
  {
    var top, init := ctx[|ctx| - 1], ctx[..|ctx| - 1];
    ConcatAssociative(RenderOpen(init), [OpenByte(top.isDict)] + RenderAll(top.items), [LETTER_E]);
    ConcatAssociative(LexemesOpen(init), [OpenLexeme(top.isDict)] + LexemesAll(top.items), [LEnd]);
  }

  /** The end token and the link that close the innermost container. */
  function Linked(ctx: seq<Open>): seq<Token>
    requires ctx != []
  {
    var tokens, top := FlatOpen(ctx) + [Token(|RenderOpen(ctx)|, EndToken, 1, 0)], TopIndex(ctx, |ctx| - 1);
    TopIsIn(ctx);
    tokens[top := tokens[top].(nextItem := |tokens| - top)]
  }

  lemma {:induction false} TopIsIn(ctx: seq<Open>)
    requires ctx != []
    ensures TopIndex(ctx, |ctx| - 1) < |FlatOpen(ctx)|
  {}

  lemma {:induction false} LinkedIs(ctx: seq<Open>)
    requires ctx != []
    ensures var init, t := ctx[..|ctx| - 1], Closed(ctx[|ctx| - 1]);
      Linked(ctx) == FlatOpen(init) + Flat(t, |RenderOpen(init)|)
  {
    var before, open, items, end := LinkParts(ctx);
    LinkAt(before, open, items, end, |items| + 2);
  }

  lemma {:induction false} LinkParts(ctx: seq<Open>)
    returns (before: seq<Token>, open: Token, items: seq<Token>, end: Token)
    requires ctx != []
    ensures var init, t := ctx[..|ctx| - 1], Closed(ctx[|ctx| - 1]);
      && before == FlatOpen(init) && |before| == TopIndex(ctx, |ctx| - 1)
      && FlatOpen(ctx) == before + ([open] + items)
      && Flat(t, |RenderOpen(init)|) == [open.(nextItem := |items| + 2)] + items + [end]
      && end == Token(|RenderOpen(ctx)|, EndToken, 1, 0)
  {
    var top, offset := ctx[|ctx| - 1], |RenderOpen(ctx[..|ctx| - 1])|;
    before, end := FlatOpen(ctx[..|ctx| - 1]), Token(|RenderOpen(ctx)|, EndToken, 1, 0);
    open, items := Token(offset, ContainerType(top.isDict), 0, 0), FlatAll(top.items, offset + 1);
    OpenTokens(ctx);
    ClosedTokens(ctx);
  }

  lemma {:induction false} OpenTokens(ctx: seq<Open>)
    requires ctx != []
    ensures var top, offset := ctx[|ctx| - 1], |RenderOpen(ctx[..|ctx| - 1])|;
      FlatOpen(ctx) == FlatOpen(ctx[..|ctx| - 1])
                       + ([Token(offset, ContainerType(top.isDict), 0, 0)] + FlatAll(top.items, offset + 1))
  {}

  lemma {:induction false} ClosedTokens(ctx: seq<Open>)
    requires ctx != []
    ensures var top, offset := ctx[|ctx| - 1], |RenderOpen(ctx[..|ctx| - 1])|;
      Flat(Closed(top), offset)
      == [Token(offset, ContainerType(top.isDict), |LexemesAll(top.items)| + 2, 0)]
         + FlatAll(top.items, offset + 1)
         + [Token(|RenderOpen(ctx)|, EndToken, 1, 0)]
  {
    hide FlatAll, LexemesAll, RenderAll;
  }

  lemma {:induction false} LinkAt(before: seq<Token>, open: Token, items: seq<Token>, end: Token, n: nat)
    ensures ((before + ([open] + items)) + [end])[|before| := open.(nextItem := n)]
         == before + ([open.(nextItem := n)] + items + [end])
    ensures ((before + ([open] + items)) + [end])[|before|] == open
  {}

  /** The tokens of the outer containers come first, and each starts with the token of its container. */
  lemma {:induction false} FlatOpenPrefix(ctx: seq<Open>, j: nat)
    requires j <= |ctx|
    ensures FlatOpen(ctx[..j]) <= FlatOpen(ctx)
    ensures |RenderOpen(ctx[..j])| <= |RenderOpen(ctx)|
    ensures j < |ctx| ==> TopIndex(ctx, j) < |FlatOpen(ctx)|
                          && FlatOpen(ctx)[TopIndex(ctx, j)] == Token(|RenderOpen(ctx[..j])|,
                            ContainerType(ctx[j].isDict), 0, 0)
  {
    OuterFirst(ctx, j);
    if j < |ctx| {
      OuterFirst(ctx, j + 1);
      OneMore(ctx, j);
      FlatOpenIs(ctx[..j], ctx[j]);
      var offset := |RenderOpen(ctx[..j])|;
      HeadBehind(FlatOpen(ctx), FlatOpen(ctx[..j]), Token(offset, ContainerType(ctx[j].isDict), 0, 0),
        FlatAll(ctx[j].items, offset + 1));
    }
  }

  lemma {:induction false} HeadBehind<T>(whole: seq<T>, a: seq<T>, x: T, b: seq<T>)
    requires a + ([x] + b) <= whole
    ensures |a| < |whole| && whole[|a|] == x
  {
    assert (a + ([x] + b))[|a|] == x;
  }

  lemma {:induction false} OuterFirst(ctx: seq<Open>, j: nat)
    requires j <= |ctx|
    ensures FlatOpen(ctx[..j]) <= FlatOpen(ctx) && |RenderOpen(ctx[..j])| <= |RenderOpen(ctx)|
  {
    if j == |ctx| {
      TakeAll(ctx);
    } else {
      var init, top := ctx[..|ctx| - 1], ctx[|ctx| - 1];
      OuterFirst(init, j);
      assert init[..j] == ctx[..j];
      assert ctx == init + [top];
      FlatOpenIs(init, top);
      OpenIs(init, top);
    }
  }
}
