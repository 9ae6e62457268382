/** libtorrent's `bdecode`: the main loop over an explicit stack, and the repair of the token array when it fails. */
module Bdecode {
  import opened Bytes
  import opened BencodeGrammar
  import opened BdecodeScan
  import opened BdecodeTokens
  import opened BdecodeReading
  import opened BdecodeNavigation
  import opened BdecodeIntegers

  /** A whole value was read. */
  ghost predicate Complete(b: Bytes, start: nat, tokens: seq<Token>, tree: Tree, depthLimit: int, tokenLimit: int) {
    Fits(tree, b, depthLimit, tokenLimit) && tokens == Flat(tree, 0) && start == |Render(tree)|
  }

  /** What was read: the whole of a value, or the part of one that leaves the containers `ctx` open. */
  datatype Progress = Whole(tree: Tree) | Part(ctx: seq<Open>)

  ghost predicate After(b: Bytes, start: nat, tokens: seq<Token>, frames: seq<StackFrame>, p: Progress, depthLimit: int,
                        tokenLimit: int) {
    match p
    case Whole(tree) => frames == [] && Complete(b, start, tokens, tree, depthLimit, tokenLimit)
    case Part(ctx) => frames != [] && Going(b, start, tokens, frames, ctx, depthLimit)
  }

  /**
   The main loop, up to the value's end or the first error. `tree` is the value that was read. After an error, `ctx`
   is the part of a value that ends at `at`, in front of the lexeme that was not to be had.
   */
  method ReadTokens(b: Bytes, depthLimit: int, tokenLimit: int, stack: array<StackFrame>)
    returns (tokens: seq<Token>, sp: nat, start: nat, ec: ErrorCode, errorPos: nat, ghost tree: Tree, ghost at: nat,
             ghost ctx: seq<Open>)
    requires |b| <= MAX_OFFSET
    requires stack.Length == if depthLimit > 0 then depthLimit else 0
    modifies stack
    ensures sp <= stack.Length
    ensures ec == NoError ==> sp == 0 && Complete(b, start, tokens, tree, depthLimit, tokenLimit)
    ensures ec != NoError ==> Going(b, at, tokens, stack[..sp], ctx, depthLimit) && at <= start <= |b|
    ensures ec != NoError ==> Next(b, at, LevelsOpen(ctx), |tokens|, depthLimit, tokenLimit) == Bad(ec, errorPos)
    ensures ec != NoError ==> StopsAt(b, at, errorPos, start)
    ensures tokens == [] || |tokens| <= tokenLimit
  {
    tokens, sp, start, ec, errorPos := [], 0, 0, NoError, 0;
    tree, at, ctx := TInt([]), 0, [];
    var remaining := tokenLimit;
    ReadingStarts(b);
    while true
      invariant sp <= stack.Length && ec == NoError && at == start
      invariant Going(b, at, tokens, stack[..sp], ctx, depthLimit)
      invariant remaining == tokenLimit - |tokens| && (tokens == [] || 0 <= remaining)
      decreases |b| - start
    {
      if start >= |b| {
        ec, errorPos := UnexpectedEof, start;
        return;
      }
      if sp >= depthLimit {
        ec, errorPos := DepthExceeded, start;
        return;
      }
      remaining := remaining - 1;
      if remaining < 0 {
        ec, errorPos := LimitExceeded, start;
        return;
      }
      ghost var frames, levels := stack[..sp], LevelsOpen(ctx);
      ghost var found := Next(b, start, levels, |tokens|, depthLimit, tokenLimit);
      TopIs(b, start, tokens, frames, ctx);
      ghost var p := Part(ctx);
      if found.Good? {
        p := AdvanceKeeps(b, start, tokens, frames, ctx, depthLimit, tokenLimit, found);
      }
      tokens, sp, start, ec, errorPos := ReadToken(b, tokens, stack, sp, start, levels, depthLimit, tokenLimit);
      if ec != NoError {
        return;
      }
      if sp == 0 {
        tree := p.tree;
        return;
      }
      at, ctx := start, p.ctx;
    }
  }

  /** What the tokens and the frames say about the container that is open innermost. */
  ghost predicate TopMatches(tokens: seq<Token>, frames: seq<StackFrame>, levels: seq<Level>) {
    |levels| == |frames| && (frames != [] ==>
      var top, level := frames[|frames| - 1], levels[|levels| - 1];
      && top.token < |tokens| && |tokens| + 1 - top.token <= MAX_NEXT_ITEM
      && (level.isDict <==> tokens[top.token].kind == DictToken)
      && top.state == (if level.wantValue then 1 else 0) && (level.wantValue ==> level.isDict))
  }

  lemma {:induction false} TopIs(b: Bytes, start: nat, tokens: seq<Token>, frames: seq<StackFrame>, ctx: seq<Open>)
    requires Reading(b, start, tokens, frames, ctx) && start < |b| <= MAX_OFFSET
    ensures TopMatches(tokens, frames, LevelsOpen(ctx))
  {
    if ctx != [] {
      TopFacts(b, start, tokens, frames, ctx);
      TokensFit(b, start, ctx);
    }
  }

  /** The tokens after the lexeme `l` at `start` was read. */
  function TokensAfter(tokens: seq<Token>, frames: seq<StackFrame>, l: Lexeme, start: nat): (r: seq<Token>)
    requires l.LEnd? ==> frames != [] && frames[|frames| - 1].token < |tokens|
    ensures |r| == |tokens| + 1
  {
    match l
    case LInt(_) => tokens + Flat(LeafOf(l), start)
    case LStr(_, _) => tokens + Flat(LeafOf(l), start)
    case LList => tokens + [Token(start, ListToken, 0, 0)]
    case LDict => tokens + [Token(start, DictToken, 0, 0)]
    case LEnd => LinkTop(tokens, frames[|frames| - 1].token, Token(start, EndToken, 1, 0))
  }

  /** The stack after it. */
  function FramesAfter(tokens: seq<Token>, frames: seq<StackFrame>, inDict: bool, l: Lexeme): seq<StackFrame>
    requires l.LEnd? ==> frames != []
  {
    match l
    case LInt(_) => FramesAfterValue(frames, inDict)
    case LStr(_, _) => FramesAfterValue(frames, inDict)
    case LList => FramesAfterValue(frames, inDict) + [StackFrame(|tokens|, 0)]
    case LDict => FramesAfterValue(frames, inDict) + [StackFrame(|tokens|, 0)]
    case LEnd => frames[..|frames| - 1]
  }

  /** One turn of the main loop, after the limits were looked at. */
  method ReadToken(b: Bytes, tokens: seq<Token>, stack: array<StackFrame>, sp: nat, start: nat,
                   ghost levels: seq<Level>, ghost depthLimit: int, ghost tokenLimit: int)
    returns (tokens': seq<Token>, sp': nat, start': nat, ec: ErrorCode, errorPos: nat)
    requires sp < depthLimit == stack.Length && start < |b| <= MAX_OFFSET && |tokens| < tokenLimit
    requires TopMatches(tokens, stack[..sp], levels)
    modifies stack
    ensures sp' <= stack.Length && start <= start' <= |b|
    ensures var found, frames := Next(b, start, levels, |tokens|, depthLimit, tokenLimit), old(stack[..sp]);
      if found.Good? then
        && ec == NoError && start' == found.next > start && (found.lexeme.LEnd? ==> frames != [])
        && tokens' == TokensAfter(tokens, frames, found.lexeme, start)
        && stack[..sp'] == FramesAfter(tokens, frames, levels != [] && levels[|levels| - 1].isDict, found.lexeme)
      else
        && found == Bad(ec, errorPos) && ec != NoError && StopsAt(b, start, errorPos, start')
        && tokens' == tokens && sp' == sp && stack[..] == old(stack[..])
  {
    tokens', sp', start', ec, errorPos := tokens, sp, start, NoError, 0;
    var t := b[start];
    var inDict, state := false, 0;
    ghost var frames := stack[..sp];
    if sp > 0 {
      assert frames[sp - 1] == stack[sp - 1];
      inDict, state := tokens[stack[sp - 1].token].kind == DictToken, stack[sp - 1].state;
    }
    if inDict && state == 0 && !Numeric(t) && t != LETTER_E {
      ec, errorPos := ExpectedDigit, start;
      return;
    }
    if t == LETTER_D || t == LETTER_L {
      stack[sp] := StackFrame(|tokens|, 0);
      sp' := sp + 1;
      tokens' := tokens + [MakeToken(start, 0, ContainerType(t == LETTER_D), 0)];
      start' := start + 1;
    } else if t == LETTER_I || Numeric(t) {
      var token;
      token, start', ec, errorPos := ReadLeaf(b, start);
      if ec != NoError {
        return;
      }
      tokens' := tokens + [token];
    } else if t == LETTER_E {
      if sp == 0 {
        ec, errorPos := UnexpectedEof, start;
        return;
      }
      if inDict && state == 1 {
        ec, errorPos := ExpectedValue, start;
        return;
      }
      tokens' := EndSequence(tokens, stack[sp - 1].token, start);
      sp' := sp - 1;
      start' := start + 1;
    } else {
      ec, errorPos := ExpectedValue, start;
      return;
    }
    TakeTurns(stack, sp, sp', inDict, frames);
  }

  lemma {:induction false} AdvanceKeeps(b: Bytes, start: nat, tokens: seq<Token>, frames: seq<StackFrame>,
                                        ctx: seq<Open>, depthLimit: int, tokenLimit: int, found: Scan)
    returns (p: Progress)
    requires Going(b, start, tokens, frames, ctx, depthLimit)
    requires start < |b| <= MAX_OFFSET && |ctx| < depthLimit && |tokens| < tokenLimit
    requires found.Good? && found == Next(b, start, LevelsOpen(ctx), |tokens|, depthLimit, tokenLimit)
    ensures found.lexeme.LEnd? ==> frames != [] && frames[|frames| - 1].token < |tokens|
    ensures After(b, found.next, TokensAfter(tokens, frames, found.lexeme, start),
              FramesAfter(tokens, frames, InDict(ctx), found.lexeme), p, depthLimit, tokenLimit)
  {
    NextKind(b, start, LevelsOpen(ctx), |tokens|, depthLimit, tokenLimit, found);
    match found.lexeme
    case LEnd =>
      p := EndRead(b, depthLimit, tokenLimit, tokens, frames, start, ctx, frames[|frames| - 1].token);
    case LList =>
      p := OpenRead(b, depthLimit, tokenLimit, tokens, frames, start, ctx, false);
    case LDict =>
      p := OpenRead(b, depthLimit, tokenLimit, tokens, frames, start, ctx, true);
    case _ =>
      p := LeafRead(b, depthLimit, tokenLimit, tokens, frames, start, found, ctx);
  }

  lemma {:induction false} OpenRead(b: Bytes, depthLimit: int, tokenLimit: int, tokens: seq<Token>,
                                    frames: seq<StackFrame>, start: nat, ctx: seq<Open>, isDict: bool)
    returns (p: Progress)
    requires Going(b, start, tokens, frames, ctx, depthLimit) && !AtKey(LevelsOpen(ctx))
    requires start < |b| && b[start] == OpenByte(isDict)
    ensures After(b, start + 1, tokens + [Token(start, ContainerType(isDict), 0, 0)],
              FramesAfterValue(frames, InDict(ctx)) + [StackFrame(|tokens|, 0)], p, depthLimit, tokenLimit)
  {
    p := Part(Pushed(ctx, isDict));
    OpenTurn(b, start, tokens, frames, ctx, depthLimit, isDict);
  }

  lemma {:induction false} NextKind(b: Bytes, start: nat, levels: seq<Level>, used: nat, depthLimit: int,
                                    tokenLimit: int, found: Scan)
    requires start < |b| && found.Good? && found == Next(b, start, levels, used, depthLimit, tokenLimit)
    ensures match found.lexeme
      case LEnd => b[start] == LETTER_E && found.next == start + 1 && levels != [] && !levels[|levels| - 1].wantValue
      case LList => b[start] == LETTER_L && found.next == start + 1 && !AtKey(levels)
      case LDict => b[start] == LETTER_D && found.next == start + 1 && !AtKey(levels)
      case _ => (b[start] == LETTER_I || Numeric(b[start])) && (AtKey(levels) ==> Numeric(b[start]))
                && found == ScanLeaf(b, start)
  {}

  /**
   In a dictionary, what follows a key is a value, and the other way around. When the container was just closed, its
   frame is not on the stack any more.
   */
  method TakeTurns(stack: array<StackFrame>, currentFrame: nat, sp: nat, inDict: bool, ghost frames: seq<StackFrame>)
    requires currentFrame <= stack.Length && (inDict ==> currentFrame > 0) && stack[..currentFrame] == frames
    requires currentFrame <= sp + 1 && sp <= stack.Length && sp <= currentFrame + 1
    modifies stack
    ensures stack[..sp] == if sp < currentFrame then frames[..sp]
                           else FramesAfterValue(frames, inDict) + old(stack[currentFrame..sp])
  {
    ghost var pushed := stack[currentFrame..];
    if inDict {
      var top := stack[currentFrame - 1];
      stack[currentFrame - 1] := top.(state := (top.state + 1) % 2);
    }
    assert stack[currentFrame..] == pushed;
    if sp < currentFrame {
      assert stack[..sp] == frames[..sp];
    } else {
      assert stack[..currentFrame] == FramesAfterValue(frames, inDict);
      assert stack[..sp] == stack[..currentFrame] + pushed[..sp - currentFrame];
    }
  }

  /** An integer or a string. */
  method ReadLeaf(b: Bytes, start: nat) returns (token: Token, start': nat, ec: ErrorCode, errorPos: nat)
    requires start < |b| <= MAX_OFFSET && (b[start] == LETTER_I || Numeric(b[start]))
    ensures start <= start' <= |b|
    ensures ec == NoError ==>
              var found := ScanLeaf(b, start);
              && found.Good? && (found.lexeme.LInt? || found.lexeme.LStr?)
              && start' == found.next > start && [token] == Flat(LeafOf(found.lexeme), start)
    ensures ec != NoError ==> ScanLeaf(b, start) == Bad(ec, errorPos) && StopsAt(b, start, errorPos, start')
  {
    token, errorPos := Token(0, NoneToken, 0, 0), 0;
    if b[start] == LETTER_I {
      start', ec := CheckInteger(b, start + 1);
      if ec != NoError {
        errorPos := start';
        start' := start;
        return;
      }
      IntegerTokenIs(start, b[start + 1..start']);
      token := MakeToken(start, 1, IntegerToken, 1);
      start' := start' + 1;
    } else {
      var header, len;
      start', header, len, ec := ReadString(b, start);
      if ec != NoError {
        errorPos := start';
        return;
      }
      assert ScanString(b, start) == Good(LStr(b[start..start' - 1], b[start'..start' + len]), start' + len);
      StringTokenIs(start, b[start..start' - 1], b[start'..start' + len], header);
      token := MakeToken(start, 1, StringToken, header);
      start' := start' + len;
    }
  }

  ghost function ScanLeaf(b: Bytes, start: nat): Scan
    requires start < |b| && (b[start] == LETTER_I || Numeric(b[start]))
  {
    if b[start] == LETTER_I then ScanInteger(b, start) else ScanString(b, start)
  }

  function LeafOf(l: Lexeme): Tree
    requires l.LInt? || l.LStr?
  {
    match l
    case LInt(body) => TInt(body)
    case LStr(digits, content) => TStr(digits, content)
  }

  lemma {:induction false} LeafRead(b: Bytes, depthLimit: int, tokenLimit: int, tokens: seq<Token>,
                                    frames: seq<StackFrame>, start: nat, found: Scan, ctx: seq<Open>)
    returns (p: Progress)
    requires Going(b, start, tokens, frames, ctx, depthLimit) && |ctx| < depthLimit && |tokens| < tokenLimit
    requires start < |b| <= MAX_OFFSET && found.Good?
    requires b[start] == LETTER_I || Numeric(b[start])
    requires found == ScanLeaf(b, start)
    requires AtKey(LevelsOpen(ctx)) ==> Numeric(b[start])
    ensures found.lexeme.LInt? || found.lexeme.LStr?
    ensures After(b, found.next, tokens + Flat(LeafOf(found.lexeme), start), FramesAfterValue(frames, InDict(ctx)), p,
              depthLimit, tokenLimit)
  {
    LeafScan(b, start, found);
    p := LeafAdded(b, depthLimit, tokenLimit, tokens, frames, start, found.next, ctx, LeafOf(found.lexeme));
  }

  lemma {:induction false} LeafScan(b: Bytes, start: nat, found: Scan)
    requires start < |b| && (b[start] == LETTER_I || Numeric(b[start])) && found.Good?
    requires found == ScanLeaf(b, start)
    ensures found.lexeme.LStr? || found.lexeme.LInt?
    ensures start < found.next <= |b|
    ensures Lax(LeafOf(found.lexeme)) && b[start..found.next] == Render(LeafOf(found.lexeme))
    ensures Numeric(b[start]) ==> found.lexeme.LStr?
  {
    LeafScanFits(b, start, found);
    LeafText(found.lexeme);
  }

  lemma {:induction false} LeafScanFits(b: Bytes, start: nat, found: Scan)
    requires start < |b| && (b[start] == LETTER_I || Numeric(b[start])) && found.Good?
    requires found == ScanLeaf(b, start)
    ensures ScanFits(b, start, found) && if b[start] == LETTER_I then found.lexeme.LInt? else found.lexeme.LStr?
  {
    if b[start] == LETTER_I {
      IntegerFits(b, start, found.next - 1);
    } else {
      StringFits(b, start);
    }
  }

  lemma {:induction false} LeafText(l: Lexeme)
    requires l.LInt? || l.LStr?
    ensures Render(LeafOf(l)) == RenderLexeme(l) && (LaxLexeme(l) ==> Lax(LeafOf(l)))
  {}

  lemma {:induction false} IntegerTokenIs(start: nat, body: Bytes)
    requires start <= MAX_OFFSET
    ensures Flat(TInt(body), start) == [MakeToken(start, 1, IntegerToken, 1)]
  {}

  lemma {:induction false} StringTokenIs(start: nat, digits: Bytes, content: Bytes, header: nat)
    requires start <= MAX_OFFSET && |digits| + 1 == header && 2 <= header <= LONG_STRING_MAX_HEADER
    ensures Flat(TStr(digits, content), start) == [MakeToken(start, 1, StringToken, header)]
  {}

  lemma {:induction false} LeafAdded(b: Bytes, depthLimit: int, tokenLimit: int, tokens: seq<Token>,
                                     frames: seq<StackFrame>, start: nat, next: nat, ctx: seq<Open>, t: Tree)
    returns (p: Progress)
    requires Going(b, start, tokens, frames, ctx, depthLimit) && |ctx| < depthLimit && |tokens| < tokenLimit
    requires start < next <= |b| <= MAX_OFFSET && (t.TInt? || t.TStr?) && Lax(t) && b[start..next] == Render(t)
    requires AtKey(LevelsOpen(ctx)) ==> t.TStr?
    ensures After(b, next, tokens + Flat(t, start), FramesAfterValue(frames, InDict(ctx)), p, depthLimit, tokenLimit)
  {
    if ctx == [] {
      p := Whole(t);
      assert b[..next] == b[0..next];
      LeafFits(b, next, depthLimit, tokenLimit, t);
      assert [] + Flat(t, start) == Flat(t, start);
    } else {
      p := Part(Added(ctx, t));
      LeafTurn(b, start, next, tokens, frames, ctx, depthLimit, t);
    }
  }

  /** The sequence that starts at `top` is ended, and linked to what will follow it. */
  function LinkTop(tokens: seq<Token>, top: nat, end: Token): seq<Token>
    requires top < |tokens|
  {
    (tokens + [end])[top := tokens[top].(nextItem := |tokens| + 1 - top)]
  }

  /** Inserts the end token and links the start of the sequence. The limit on links cannot be exceeded here. */
  method EndSequence(tokens: seq<Token>, top: nat, start: nat) returns (tokens': seq<Token>)
    requires top < |tokens| && |tokens| + 1 - top <= MAX_NEXT_ITEM && start <= MAX_OFFSET
    ensures tokens' == LinkTop(tokens, top, Token(start, EndToken, 1, 0))
  {
    tokens' := tokens + [MakeToken(start, 1, EndToken, 0)];
    if |tokens'| - top > MAX_NEXT_ITEM {
      assert false;
    }
    tokens' := tokens'[top := tokens'[top].(nextItem := |tokens'| - top)];
  }

  lemma {:induction false} EndRead(b: Bytes, depthLimit: int, tokenLimit: int, tokens: seq<Token>,
                                   frames: seq<StackFrame>, start: nat, ctx: seq<Open>, top: nat)
    returns (p: Progress)
    requires Going(b, start, tokens, frames, ctx, depthLimit) && 0 < |frames| < depthLimit && |tokens| < tokenLimit
    requires start < |b| <= MAX_OFFSET && b[start] == LETTER_E && !LevelsOpen(ctx)[|frames| - 1].wantValue
    requires top == frames[|frames| - 1].token
    ensures top < |tokens| && |tokens| + 1 - top <= MAX_NEXT_ITEM
    ensures After(b, start + 1, LinkTop(tokens, top, Token(start, EndToken, 1, 0)), frames[..|frames| - 1], p,
              depthLimit, tokenLimit)
  {
    TopFacts(b, start, tokens, frames, ctx);
    TokensFit(b, start, ctx);
    var t := Closed(ctx[|ctx| - 1]);
    if |ctx| == 1 {
      p := Whole(t);
      ContainerFits(b, start, tokens, frames, ctx, depthLimit, tokenLimit);
    } else {
      p := Part(Added(ctx[..|ctx| - 1], t));
      EndTurn(b, start, tokens, frames, ctx, depthLimit);
    }
    LinkedAgain(ctx, tokens, start);
  }

  lemma {:induction false} LinkedAgain(ctx: seq<Open>, tokens: seq<Token>, start: nat)
    requires ctx != [] && tokens == FlatOpen(ctx) && start == |RenderOpen(ctx)|
    ensures var top, end := TopIndex(ctx, |ctx| - 1), Token(start, EndToken, 1, 0);
      top < |tokens| && Linked(ctx) == LinkTop(tokens, top, end)
  {
    TopIsIn(ctx);
  }

  /** Every token took at least one byte to read. */
  lemma {:induction false} TokensFit(b: Bytes, at: nat, ctx: seq<Open>)
    requires at <= |b| && b[..at] == RenderOpen(ctx) && LaxOpen(ctx)
    ensures |FlatOpen(ctx)| <= at
  {
    OpenIsAccepted(ctx);
    LexemesTakeBytes(LexemesOpen(ctx));
  }

  lemma {:induction false} LexemesTakeBytes(ls: seq<Lexeme>)
    ensures |ls| <= |RenderLexemes(ls)|
  {
    if ls != [] {
      LexemesTakeBytes(ls[..|ls| - 1]);
    }
  }

  /** Reads the length of a string behind its first digit. */
  method ReadLength(b: Bytes, from: nat, digit: nat) returns (pos: nat, len: nat, e: ErrorCode)
    requires from + 1 < |b| && Numeric(b[from]) && digit == b[from] - DIGIT_0
    ensures from < pos <= |b|
    ensures e == Overflow ==> ScanString(b, from) == Bad(Overflow, pos)
    ensures e != Overflow ==>
              && ScanString(b, from) == ScanContent(b, from, pos, len)
              && e == if pos < |b| && b[pos] != COLON then ExpectedDigit else NoError
  {
    pos, len, e := ParseInt(b, from + 1, |b|, COLON, digit);
    assert b[..|b|] == b;
    if e == Overflow {
      assert DigitRun(b, from) == 1 + DigitRun(b, from + 1);
      OverflowIsAt(b, from, pos);
    } else {
      HeaderIsRead(b, from, pos, len);
    }
  }

  /** The case of a string in the main loop, up to the place where its token is made. */
  method ReadString(b: Bytes, from: nat) returns (start: nat, header: nat, len: nat, e: ErrorCode)
    requires from < |b| <= MAX_OFFSET && Numeric(b[from])
    ensures start <= |b|
    ensures e == NoError ==>
              && 2 <= header <= LONG_STRING_MAX_HEADER && start + len <= |b| && start == from + header
              && ScanString(b, from) == ScanContent(b, from, start - 1, len)
                && ScanContent(b, from, start - 1, len).Good?
    ensures e != NoError ==> from <= start && ScanString(b, from) == Bad(e, start)
  {
    header := 0;
    len := b[from] - DIGIT_0;
    start := from + 1;
    if start >= |b| {
      e := UnexpectedEof;
      return;
    }
    start, len, e := ReadLength(b, from, len);
    if e != NoError {
      return;
    }
    if start == |b| {
      e := ExpectedColon;
      return;
    }
    var buffSize := |b| - start - 1;
    if len > buffSize {
      e := UnexpectedEof;
      return;
    }
    start := start + 1;
    header := start - from;
    if header > LONG_STRING_MAX_HEADER {
      e := LimitExceeded;
      return;
    }
  }

  lemma {:induction false} HeaderIsRead(b: Bytes, from: nat, pos: nat, len: nat)
    requires from + 1 < |b| && Numeric(b[from]) && pos == from + 1 + DigitRun(b, from + 1)
    requires AllDigits(b[from + 1..pos]) && len == DecimalFrom(b[from] - DIGIT_0, b[from + 1..pos]) <= INT64_MAX
    ensures ScanString(b, from) == ScanContent(b, from, pos, len)
  {
    HeaderDigits(b, from, pos);
  }

  /** The digits of a length, of which the first was taken by itself. */
  lemma {:induction false} HeaderDigits(b: Bytes, from: nat, pos: nat)
    requires from < pos <= |b| && Numeric(b[from]) && AllDigits(b[from + 1..pos])
    ensures DigitRun(b, from) == 1 + DigitRun(b, from + 1)
    ensures AllDigits(b[from..pos])
    ensures Decimal(b[from..pos]) == DecimalFrom(b[from] - DIGIT_0, b[from + 1..pos])
  {
    assert b[from..pos] == [b[from]] + b[from + 1..pos];
    DecimalFromSplit(0, [b[from]], b[from + 1..pos]);
    assert [b[from]][..0] == [];
  }

  /** The scan overflows at the only place where it can. */
  lemma {:induction false} OverflowIsAt(b: Bytes, from: nat, pos: nat)
    requires from < pos < |b| && Numeric(b[from]) && pos < from + DigitRun(b, from)
    requires AllDigits(b[from..from + DigitRun(b, from)])
    requires AllDigits(b[from + 1..pos]) && AllDigits(b[from + 1..pos + 1])
    requires DecimalFrom(b[from] - DIGIT_0, b[from + 1..pos]) <= INT64_MAX
    requires DecimalFrom(b[from] - DIGIT_0, b[from + 1..pos + 1]) > INT64_MAX
    ensures ScanString(b, from) == Bad(Overflow, pos)
  {
    OverflowPlace(b, from, pos, DigitRun(b, from));
  }

  lemma {:induction false} OverflowPlace(b: Bytes, from: nat, pos: nat, n: nat)
    requires from < pos < from + n <= |b| && AllDigits(b[from..from + n]) && Numeric(b[from])
    requires AllDigits(b[from + 1..pos]) && AllDigits(b[from + 1..pos + 1])
    requires DecimalFrom(b[from] - DIGIT_0, b[from + 1..pos]) <= INT64_MAX
    requires DecimalFrom(b[from] - DIGIT_0, b[from + 1..pos + 1]) > INT64_MAX
    ensures Decimal(b[from..from + n]) > INT64_MAX && OverflowAt(b, from, n) == pos
  {
    HeaderDigits(b, from, pos);
    HeaderDigits(b, from, pos + 1);
    OverflowIs(b, from, pos, n);
  }

  lemma {:induction false} OverflowIs(b: Bytes, from: nat, pos: nat, n: nat)
    requires from < pos < from + n <= |b| && AllDigits(b[from..from + n])
    requires AllDigits(b[from..pos]) && AllDigits(b[from..pos + 1])
    requires Decimal(b[from..pos]) <= INT64_MAX < Decimal(b[from..pos + 1])
    ensures Decimal(b[from..from + n]) > INT64_MAX && OverflowAt(b, from, n) == pos
  {
    DecimalGrows(b, from, pos + 1, from + n);
    OverflowIsUnique(b, from, pos, OverflowAt(b, from, n));
  }

  lemma {:induction false} DecimalGrows(b: Bytes, from: nat, i: nat, j: nat)
    requires from <= i <= j <= |b| && AllDigits(b[from..j])
    ensures AllDigits(b[from..i]) && Decimal(b[from..i]) <= Decimal(b[from..j])
  {
    assert b[from..j][..i - from] == b[from..i];
    DecimalFromMonotone(0, b[from..j], i - from);
  }

  lemma {:induction false} OverflowIsUnique(b: Bytes, from: nat, p: nat, q: nat)
    requires from <= p < |b| && from <= q < |b|
    requires AllDigits(b[from..p]) && AllDigits(b[from..p + 1]) && AllDigits(b[from..q]) && AllDigits(b[from..q + 1])
    requires Decimal(b[from..p]) <= INT64_MAX < Decimal(b[from..p + 1])
    requires Decimal(b[from..q]) <= INT64_MAX < Decimal(b[from..q + 1])
    ensures p == q
  {
    if p < q {
      DecimalGrows(b, from, p + 1, q);
    } else if q < p {
      DecimalGrows(b, from, q + 1, p);
    }
  }

  // ----- after the loop

  /** Room in the 29 bits of a link for every token that a buffer and its repair can take. */
  predicate Headroom(b: Bytes, depthLimit: int, tokenLimit: int) {
    var tokens := if tokenLimit < |b| then tokenLimit else |b|;
    tokens + 3 * (if depthLimit > 0 then depthLimit else 0) <= MAX_NEXT_ITEM
  }

  /** Terminates the container of `frame`. A link is cut off to the bits that it is stored in. */
  method Terminate(tokens: seq<Token>, frame: StackFrame, start: nat)
    returns (tokens': seq<Token>, ghost dummy: seq<Token>)
    requires frame.token < |tokens| && start <= MAX_OFFSET
    ensures dummy == if tokens[frame.token].kind == DictToken && frame.state == 1
                     then [Token(start, DictToken, 2, 0), Token(start, EndToken, 0, 0)] else []
    ensures |tokens'| == |tokens| + |dummy| + 1
    ensures tokens'[..|tokens'| - 1]
         == (tokens + dummy)[frame.token := tokens[frame.token].(nextItem := tokens'[frame.token].nextItem)]
    ensures |tokens| + |dummy| - frame.token <= MAX_NEXT_ITEM ==>
              tokens' == Terminated(tokens, frame.token, dummy, Token(start, EndToken, 1, 0))
    ensures tokens'[|tokens'| - 1] == Token(start, EndToken, 1, 0)
    ensures tokens'[frame.token].nextItem == (|tokens'| - 1 - frame.token) % (MAX_NEXT_ITEM + 1)
  {
    tokens', dummy := tokens, [];
    if tokens[frame.token].kind == DictToken && frame.state == 1 {
      dummy := [Token(start, DictToken, 2, 0), Token(start, EndToken, 0, 0)];
      tokens' := tokens' + [MakeToken(start, 2, DictToken, 0)];
      tokens' := tokens' + [MakeToken(start, 0, EndToken, 0)];
    }
    assert tokens' == tokens + dummy;
    var top := frame.token;
    tokens' := tokens'[top := tokens'[top].(nextItem := (|tokens'| - top) % (MAX_NEXT_ITEM + 1))];
    tokens' := tokens' + [MakeToken(start, 1, EndToken, 0)];
  }

  /** How many tokens there are once the containers from `j` on are terminated. */
  ghost function SizeFrom(ctx: seq<Open>, j: nat): nat
    requires j <= |ctx|
  {
    |FlatOpen(ctx)| + (|ctx| - j) + if j < |ctx| && WantsValue(ctx) then 2 else 0
  }

  ghost predicate WantsValue(ctx: seq<Open>)
    requires ctx != []
  {
    ctx[|ctx| - 1].isDict && |ctx[|ctx| - 1].items| % 2 == 1
  }

  /** The link of the outermost container, which is the longest one, need not be cut off. */
  ghost predicate Uncut(ctx: seq<Open>) {
    SizeFrom(ctx, 0) - 1 <= MAX_NEXT_ITEM
  }

  /** Terminates all that is still open, so that what was read can be walked, and ends the array. */
  method Unwind(tokens: seq<Token>, frames: seq<StackFrame>, start: nat, ghost ctx: seq<Open>)
    returns (tokens': seq<Token>)
    requires tokens == FlatOpen(ctx) && FramesMatch(frames, ctx) && LaxOpen(ctx)
    requires |RenderOpen(ctx)| <= start <= MAX_OFFSET
    ensures Ended(tokens', start) && |tokens'| == SizeFrom(ctx, 0) + 1
    ensures |tokens'| > 1 ==> tokens'[0].nextItem == (|tokens'| - 2) % (MAX_NEXT_ITEM + 1)
    ensures 1 < |tokens'| <= MAX_NEXT_ITEM + 2 ==> RootOk(tokens')
    ensures Repairs(tokens, tokens', start)
  {
    hide FlatOpen, RenderOpen, LevelsOpen;
    tokens' := tokens;
    var sp := |frames|;
    UnwindStarts(ctx);
    while sp > 0
      invariant 0 <= sp <= |ctx| && Unwound(tokens', ctx, sp, start) && Repairs(tokens, tokens', start)
      invariant sp == |ctx| ==> tokens' == tokens
    {
      sp := sp - 1;
      tokens' := UnwindTurn(tokens', frames[sp], ctx, sp, start, tokens);
    }
    UnwindEnds(tokens', ctx, start);
    NothingOpen(ctx);
    tokens' := tokens' + [MakeToken(start, 0, EndToken, 0)];
  }

  lemma {:induction false} NothingOpen(ctx: seq<Open>)
    ensures ctx == [] <==> SizeFrom(ctx, 0) == 0
  {}

  /** The containers from `sp` on are terminated. */
  ghost predicate Unwound(tokens: seq<Token>, ctx: seq<Open>, sp: nat, start: nat) {
    && sp <= |ctx| && UntouchedUpTo(tokens, ctx, sp) && |tokens| == SizeFrom(ctx, sp) && Rising(tokens, 0, start)
    && (Uncut(ctx) ==> TerminatedFrom(tokens, ctx, sp))
    && (sp == 0 && ctx != [] ==> tokens != [] && tokens[0].nextItem == (|tokens| - 1) % (MAX_NEXT_ITEM + 1))
  }

  /** The innermost container that is still open is terminated. */
  method UnwindTurn(tokens: seq<Token>, frame: StackFrame, ghost ctx: seq<Open>, ghost j: nat, start: nat,
                    ghost first: seq<Token>)
    returns (tokens': seq<Token>)
    requires j < |ctx| && LaxOpen(ctx) && Unwound(tokens, ctx, j + 1, start) && start <= MAX_OFFSET
    requires frame == FrameOf(ctx, j) && (j == |ctx| - 1 ==> tokens == FlatOpen(ctx)) && Repairs(first, tokens, start)
    ensures Unwound(tokens', ctx, j, start) && Repairs(first, tokens', start)
  {
    ghost var dummy;
    UnwindTop(tokens, ctx, j);
    tokens', dummy := Terminate(tokens, frame, start);
    TurnIs(tokens, tokens', ctx, frame, j, dummy, start);
    RepairsMore(first, tokens, tokens', frame.token, dummy, start);
  }

  lemma {:induction false} TurnIs(before: seq<Token>, after: seq<Token>, ctx: seq<Open>, frame: StackFrame, j: nat,
                                  dummy: seq<Token>, start: nat)
    requires j < |ctx| && LaxOpen(ctx) && Unwound(before, ctx, j + 1, start)
    requires frame == FrameOf(ctx, j) && frame.token < |before| && (j == |ctx| - 1 ==> before == FlatOpen(ctx))
    requires before[frame.token].kind == ContainerType(ctx[j].isDict)
    requires LevelsOpen(ctx)[j].wantValue <==> j == |ctx| - 1 && WantsValue(ctx)
    requires dummy == if before[frame.token].kind == DictToken && frame.state == 1
                      then [Token(start, DictToken, 2, 0), Token(start, EndToken, 0, 0)] else []
    requires |after| == |before| + |dummy| + 1
    requires after[..|after| - 1]
          == (before + dummy)[frame.token := before[frame.token].(nextItem := after[frame.token].nextItem)]
    requires |before| + |dummy| - frame.token <= MAX_NEXT_ITEM ==>
               after == Terminated(before, frame.token, dummy, Token(start, EndToken, 1, 0))
    requires after[|after| - 1] == Token(start, EndToken, 1, 0)
    requires after[frame.token].nextItem == (|after| - 1 - frame.token) % (MAX_NEXT_ITEM + 1)
    ensures Unwound(after, ctx, j, start)
  {
    hide FlatOpen, RenderOpen, LevelsOpen;
    UnwindStep(before, after, ctx, frame, j, dummy, start);
    SizeStep(|before|, |dummy|, ctx, j, frame);
  }

  lemma {:induction false} SizeStep(size: nat, dummy: nat, ctx: seq<Open>, j: nat, frame: StackFrame)
    requires j < |ctx| && frame == FrameOf(ctx, j) && size == SizeFrom(ctx, j + 1)
    requires LevelsOpen(ctx)[j].wantValue <==> j == |ctx| - 1 && WantsValue(ctx)
    requires dummy == if frame.state == 1 then 2 else 0
    ensures size + dummy + 1 == SizeFrom(ctx, j) && (Uncut(ctx) ==> size + dummy - frame.token <= MAX_NEXT_ITEM)
    ensures j == 0 ==> frame.token == 0
  {
    if j == 0 {
      assert ctx[..0] == [];
    }
  }

  lemma {:induction false} UnwindEnds(tokens: seq<Token>, ctx: seq<Open>, start: nat)
    requires Unwound(tokens, ctx, 0, start)
    ensures Ended(tokens + [Token(start, EndToken, 0, 0)], start)
    ensures ctx != [] && Uncut(ctx) ==> RootOk(tokens + [Token(start, EndToken, 0, 0)])
  {
    assert ctx[..0] == [] && TopIndex(ctx, 0) == 0;
    if ctx != [] && Uncut(ctx) {
      NodeStaysOk(tokens, tokens + [Token(start, EndToken, 0, 0)], 0);
    }
    RisingConcat(tokens, [Token(start, EndToken, 0, 0)], 0, start, start);
  }

  /** One container is terminated, in the array `before`. */
  lemma {:induction false} UnwindStep(before: seq<Token>, after: seq<Token>, ctx: seq<Open>, frame: StackFrame, j: nat,
                                      dummy: seq<Token>, start: nat)
    requires j < |ctx| && LaxOpen(ctx) && UntouchedUpTo(before, ctx, j + 1) && Rising(before, 0, start)
    requires frame == FrameOf(ctx, j) && frame.token < |before|
    requires before[frame.token].kind == ContainerType(ctx[j].isDict)
    requires LevelsOpen(ctx)[j].wantValue ==> ctx[j].isDict && j == |ctx| - 1
    requires j == |ctx| - 1 ==> before == FlatOpen(ctx)
    requires dummy == if before[frame.token].kind == DictToken && frame.state == 1
                      then [Token(start, DictToken, 2, 0), Token(start, EndToken, 0, 0)] else []
    requires |after| == |before| + |dummy| + 1
    requires after[..|after| - 1]
          == (before + dummy)[frame.token := before[frame.token].(nextItem := after[frame.token].nextItem)]
    requires after[|after| - 1] == Token(start, EndToken, 1, 0)
    ensures UntouchedUpTo(after, ctx, j) && Rising(after, 0, start)
    ensures (TerminatedFrom(before, ctx, j + 1)
             && after == Terminated(before, frame.token, dummy, Token(start, EndToken, 1, 0)))
            ==> TerminatedFrom(after, ctx, j)
  {
    UnwindRises(before, after, frame.token, dummy, start);
    UnwindKeeps(before, after, ctx, j, dummy);
    var end := Token(start, EndToken, 1, 0);
    if TerminatedFrom(before, ctx, j + 1) && after == Terminated(before, frame.token, dummy, end) {
      TerminatedIs(before, after, ctx, j, dummy, end);
    }
  }

  lemma {:induction false} UnwindStarts(ctx: seq<Open>)
    requires LaxOpen(ctx)
    ensures UntouchedUpTo(FlatOpen(ctx), ctx, |ctx|) && Rising(FlatOpen(ctx), 0, |RenderOpen(ctx)|)
  {
    assert ctx[..|ctx|] == ctx;
    FlatOpenRises(ctx);
  }

  lemma {:induction false} UnwindTop(tokens: seq<Token>, ctx: seq<Open>, j: nat)
    requires j < |ctx| && UntouchedUpTo(tokens, ctx, j + 1) && LaxOpen(ctx)
    ensures TopIndex(ctx, j) < |tokens| && tokens[TopIndex(ctx, j)].kind == ContainerType(ctx[j].isDict)
    ensures LevelsOpen(ctx)[j].wantValue <==> j == |ctx| - 1 && WantsValue(ctx)
  {
    var outer := ctx[..j + 1];
    FlatOpenPrefix(outer, j);
    assert outer[..j] == ctx[..j];
    assert tokens[..TopIndex(ctx, j + 1)][TopIndex(ctx, j)] == tokens[TopIndex(ctx, j)];
    LevelInside(ctx, j);
  }

  lemma {:induction false} LevelInside(ctx: seq<Open>, j: nat)
    requires j < |ctx| && LaxOpen(ctx)
    ensures LevelsOpen(ctx)[j].isDict == ctx[j].isDict
    ensures LevelsOpen(ctx)[j].wantValue <==> ctx[j].isDict && j == |ctx| - 1 && |ctx[j].items| % 2 == 1
  {
    var init := ctx[..|ctx| - 1];
    if j < |ctx| - 1 {
      OuterIsLax(ctx);
      LevelInside(init, j);
      LevelAfter(LevelsOpen(init), j);
    }
  }

  lemma {:induction false} UnwindKeeps(before: seq<Token>, after: seq<Token>, ctx: seq<Open>, j: nat, dummy: seq<Token>)
    requires j < |ctx| && UntouchedUpTo(before, ctx, j + 1) && TopIndex(ctx, j) < |before|
      && |after| == |before| + |dummy| + 1
    requires var top := TopIndex(ctx, j);
      after[..|after| - 1] == (before + dummy)[top := before[top].(nextItem := after[top].nextItem)]
    ensures UntouchedUpTo(after, ctx, j)
  {
    var top := TopIndex(ctx, j);
    var outer := ctx[..j + 1];
    FlatOpenPrefix(outer, j);
    assert outer[..j] == ctx[..j];
    assert after[..top] == after[..|after| - 1][..top] == before[..top];
    assert before[..top] == before[..TopIndex(ctx, j + 1)][..top] == FlatOpen(ctx[..j]);
  }

  lemma {:induction false} UnwindRises(before: seq<Token>, after: seq<Token>, top: nat, dummy: seq<Token>, start: nat)
    requires Rising(before, 0, start) && top < |before| && |after| == |before| + |dummy| + 1
    requires dummy == [] || dummy == [Token(start, DictToken, 2, 0), Token(start, EndToken, 0, 0)]
    requires after[..|after| - 1] == (before + dummy)[top := before[top].(nextItem := after[top].nextItem)]
    requires after[|after| - 1] == Token(start, EndToken, 1, 0)
    ensures Rising(after, 0, start)
  {
    var tail := dummy + [Token(start, EndToken, 1, 0)];
    RisingConcat(before, tail, 0, start, start);
    assert forall k :: 0 <= k < |after| - 1 ==> after[k] == after[..|after| - 1][k];
    assert forall k :: 0 <= k < |after| ==> after[k].(nextItem := 0) == (before + tail)[k].(nextItem := 0);
  }

  /**
   `bdecode`. It succeeds exactly when the buffer begins with a value within the limits, and then the tokens are those
   of that value, with an end token behind them. Whatever happens, the array can be walked from its first token on,
   unless there is none but the end token. After an error this takes an array that is not too large: a link is cut off
   to the 29 bits that it is stored in, and the first one is exactly when it should be longer. Limits that leave
   `Headroom` make no array that large.
   */
  method Decode(b: Bytes, depthLimit: int, tokenLimit: int)
    returns (tokens: seq<Token>, bufferSize: nat, ec: ErrorCode, errorPos: nat, ghost tree: Tree)
    ensures ec == NoError <==> exists t :: Fits(t, b, depthLimit, tokenLimit)
    ensures ec == NoError ==> Fits(tree, b, depthLimit, tokenLimit) && bufferSize == |Render(tree)|
    ensures ec == NoError ==> tokens == Flat(tree, 0) + [Token(bufferSize, EndToken, 0, 0)]
    ensures |b| > 0x1fff_ffff ==> ec == LimitExceeded && errorPos == 0 && tokens == []
    ensures |b| <= MAX_OFFSET ==>
              bufferSize <= |b| && Ended(tokens, bufferSize) && IntsStand(tokens, b, bufferSize)
    ensures ec == NoError || 1 < |tokens| <= MAX_NEXT_ITEM + 2 ==> RootOk(tokens)
    ensures ec != NoError && |tokens| > 1 ==> tokens[0].nextItem == (|tokens| - 2) % (MAX_NEXT_ITEM + 1)
    ensures ec != NoError && Headroom(b, depthLimit, tokenLimit) ==> |tokens| <= MAX_NEXT_ITEM + 2
    ensures ec != NoError && |b| <= MAX_OFFSET ==>
              exists at: nat, ctx: seq<Open> ::
                && at <= |b| && StuckAt(b, at, ctx, depthLimit, tokenLimit, ec, errorPos)
                && |tokens| == SizeFrom(ctx, 0) + 1
                && bufferSize == if at < |b| && b[at] == LETTER_I && at < errorPos then at else errorPos
  {
    hide FlatOpen, RenderOpen, LevelsOpen, LexemesOpen, SizeFrom, RootOk, Ended, IntsStand, Repairs;
    tokens, bufferSize, errorPos, tree := [], 0, 0, TInt([]);
    if |b| > MAX_OFFSET {
      ec := LimitExceeded;
      return;
    }
    var stack := new StackFrame[if depthLimit > 0 then depthLimit else 0];
    var sp;
    ghost var at, ctx;
    tokens, sp, bufferSize, ec, errorPos, tree, at, ctx := ReadTokens(b, depthLimit, tokenLimit, stack);
    if ec == NoError {
      ValueIsOk(tree, bufferSize);
      ValueStands(tree, b);
      tokens := tokens + [MakeToken(bufferSize, 0, EndToken, 0)];
    } else {
      NothingFits(b, at, ctx, depthLimit, tokenLimit);
      KeptToLimits(ctx, sp, depthLimit, tokenLimit);
      assert StuckAt(b, at, ctx, depthLimit, tokenLimit, ec, errorPos);
      RoomToUnwind(b, at, ctx, sp, depthLimit, tokenLimit);
      ghost var open := tokens;
      tokens := Unwind(tokens, stack[..sp], bufferSize, ctx);
      PartStands(open, tokens, b, at, ctx, bufferSize);
      assert |tokens| == SizeFrom(ctx, 0) + 1;
    }
  }

  /** Offsets do not decrease, no string begins behind the next token, and the last one is an end token at `size`. */
  ghost predicate Ended(tokens: seq<Token>, size: nat) {
    Rising(tokens, 0, size) && tokens != [] && tokens[|tokens| - 1] == Token(size, EndToken, 0, 0)
  }

  lemma {:induction false} NothingFits(b: Bytes, at: nat, ctx: seq<Open>, depthLimit: int, tokenLimit: int)
    requires at <= |b| <= MAX_OFFSET && b[..at] == RenderOpen(ctx) && LaxOpen(ctx) && Viable(b, ctx)
    requires Next(b, at, LevelsOpen(ctx), |LexemesOpen(ctx)|, depthLimit, tokenLimit).Bad?
    ensures !exists t :: Fits(t, b, depthLimit, tokenLimit)
  {
    forall t | Fits(t, b, depthLimit, tokenLimit)
      ensures false
    {
      StuckFitsNothing(b, at, ctx, depthLimit, tokenLimit, t);
    }
  }

  lemma {:induction false} RoomToUnwind(b: Bytes, at: nat, ctx: seq<Open>, sp: nat, depthLimit: int, tokenLimit: int)
    requires at <= |b| && b[..at] == RenderOpen(ctx) && LaxOpen(ctx)
    requires sp == |ctx| <= (if depthLimit > 0 then depthLimit else 0)
    requires FlatOpen(ctx) == [] || |FlatOpen(ctx)| <= tokenLimit
    ensures Headroom(b, depthLimit, tokenLimit) ==> SizeFrom(ctx, 0) <= MAX_NEXT_ITEM + 1
  {
    TokensFit(b, at, ctx);
    if ctx != [] {
      TopIsIn(ctx);
    }
  }

  /** The largest part of a value that the buffer begins with ends at `at`, and the next lexeme is the error. */
  ghost predicate StuckAt(b: Bytes, at: nat, ctx: seq<Open>, depthLimit: int, tokenLimit: int, ec: ErrorCode,
                          errorPos: nat)
    requires at <= |b|
  {
    && b[..at] == RenderOpen(ctx) && LaxOpen(ctx) && Viable(b, ctx) && ReadWithin(ctx, depthLimit, tokenLimit)
    && Next(b, at, LevelsOpen(ctx), |LexemesOpen(ctx)|, depthLimit, tokenLimit) == Bad(ec, errorPos)
  }

  /** What was read kept to the limits. */
  ghost predicate ReadWithin(ctx: seq<Open>, depthLimit: int, tokenLimit: int) {
    ctx == [] || (|ctx| <= depthLimit && |FlatOpen(ctx)| <= tokenLimit && Within(ctx, depthLimit))
  }

  lemma {:induction false} KeptToLimits(ctx: seq<Open>, sp: nat, depthLimit: int, tokenLimit: int)
    requires sp == |ctx| <= (if depthLimit > 0 then depthLimit else 0) && Within(ctx, depthLimit)
    requires FlatOpen(ctx) == [] || |FlatOpen(ctx)| <= tokenLimit
    ensures ReadWithin(ctx, depthLimit, tokenLimit)
  {
    if ctx != [] {
      TopIsIn(ctx);
    }
  }

  /** Where reading stops: in front of an integer that is wrong, but at the place of any other error. */
  ghost predicate StopsAt(b: Bytes, at: nat, errorPos: nat, start: nat)
    requires at <= |b|
  {
    start == if at < |b| && b[at] == LETTER_I && at < errorPos then at else errorPos
  }

  lemma {:induction false} ValueStands(t: Tree, b: Bytes)
    requires Lax(t) && Render(t) <= b
    ensures IntsStand(Flat(t, 0) + [Token(|Render(t)|, EndToken, 0, 0)], b, |Render(t)|)
  {
    assert b[0..|Render(t)|] == Render(t);
    FlatStands(t, 0, b);
    StandConcat(Flat(t, 0), [Token(|Render(t)|, EndToken, 0, 0)], b, |Render(t)|, |Render(t)|);
  }

  lemma {:induction false} PartStands(open: seq<Token>, tokens: seq<Token>, b: Bytes, at: nat, ctx: seq<Open>,
                                      size: nat)
    requires at <= |b| && b[..at] == RenderOpen(ctx) && LaxOpen(ctx) && open == FlatOpen(ctx) && at <= size
    requires |tokens| > 0 && Repairs(open, tokens, size)
    ensures IntsStand(tokens, b, size)
  {
    assert b[0..at] == b[..at];
    FlatOpenStands(ctx, b);
    RepairStands(open, tokens, b, at, size);
  }

  lemma {:induction false} ValueIsOk(t: Tree, size: nat)
    requires Lax(t) && size == |Render(t)|
    ensures var tokens := Flat(t, 0) + [Token(size, EndToken, 0, 0)]; RootOk(tokens) && Ended(tokens, size)
  {
    var tokens := Flat(t, 0) + [Token(size, EndToken, 0, 0)];
    assert tokens[0..|Flat(t, 0)|] == Flat(t, 0);
    FlatIsOk(tokens, 0, t, 0);
    FlatHead(t, 0);
    FlatRises(t, 0);
    RisingConcat(Flat(t, 0), [Token(size, EndToken, 0, 0)], 0, size, size);
  }
}
