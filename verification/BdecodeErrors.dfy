/**
 What every error of `bdecode` means, in terms of the bytes at the place where it got stuck and of the containers that
 are open there; and that both are determined by the buffer and the limits.
 */
module BdecodeErrors {
  import opened Bytes
  import opened BencodeGrammar
  import opened BdecodeScan
  import opened BdecodeTokens
  import opened BdecodeReading
  import opened Bdecode

  /** So many digits stand at `p`, and then something else or nothing. */
  predicate DigitsAt(b: Bytes, p: nat, n: nat) {
    && p + n <= |b| && AllDigits(b[p..p + n])
    && (p + n < |b| ==> !Numeric(b[p + n]))
  }

  /** An integer begins at `at`, whose digits begin at `first`, behind a minus sign if there is one. */
  predicate IntegerAt(b: Bytes, at: nat, first: nat) {
    && at < |b| && b[at] == LETTER_I
    && first == if at + 1 < |b| && b[at + 1] == MINUS then at + 2 else at + 1
  }

  /** What was read ends behind an even number of keys and values of a dictionary. */
  ghost predicate KeyIsNext(ctx: seq<Open>) {
    ctx != [] && ctx[|ctx| - 1].isDict && |ctx[|ctx| - 1].items| % 2 == 0
  }

  /** It ends behind a key. */
  ghost predicate ValueIsNext(ctx: seq<Open>) {
    ctx != [] && ctx[|ctx| - 1].isDict && |ctx[|ctx| - 1].items| % 2 == 1
  }

  /** There is a byte, and neither limit is reached. */
  ghost predicate Room(b: Bytes, at: nat, ctx: seq<Open>, depthLimit: int, tokenLimit: int) {
    at < |b| && |ctx| < depthLimit && |FlatOpen(ctx)| < tokenLimit
  }

  const INT64_MOST := 9_223_372_036_854_775_807

  /**
   What is wrong with a string whose length has `n` digits, which spell `length`: it does not fit into 64 bits, or the
   colon is missing, or the contents are, or there are more than 16 digits. A single digit at the end of the buffer is
   nothing that a colon is expected behind.
   */
  ghost predicate StringFault(b: Bytes, at: nat, n: nat, length: nat, ec: ErrorCode, errorPos: nat)
    requires at + n <= |b|
  {
    var colon := at + n;
    var spelled := length <= INT64_MOST && colon < |b| && b[colon] == COLON;
    && (ec == Overflow <==> length > INT64_MOST)
    && (ec == ExpectedColon <==> n > 1 && length <= INT64_MOST && colon == |b|)
    && (ec == ExpectedDigit <==> length <= INT64_MOST && colon < |b| && b[colon] != COLON)
    && (ec == UnexpectedEof <==> (n == 1 && colon == |b|) || (spelled && length > |b| - colon - 1))
    && (ec == LimitExceeded <==> spelled && length <= |b| - colon - 1 && n > 16)
    && (ec == Overflow ==> at <= errorPos < colon && OverflowsAt(b, at, errorPos))
    && (ec != Overflow ==> errorPos == if ec == LimitExceeded then colon + 1 else colon)
  }

  /** The number that the digits from `at` on spell grows beyond 64 bits with the one at `pos`. */
  ghost predicate OverflowsAt(b: Bytes, at: nat, pos: nat)
    requires at <= pos < |b|
  {
    && AllDigits(b[at..pos]) && AllDigits(b[at..pos + 1])
    && Decimal(b[at..pos]) <= INT64_MOST < Decimal(b[at..pos + 1])
  }

  lemma {:induction false} KeyOrValue(ctx: seq<Open>)
    ensures KeyIsNext(ctx) <==> AtKey(LevelsOpen(ctx))
    ensures ctx != [] ==> (ValueIsNext(ctx) <==> LevelsOpen(ctx)[|ctx| - 1].wantValue)
  {}

  lemma {:induction false} RunIs(b: Bytes, p: nat, n: nat)
    requires DigitsAt(b, p, n)
    ensures DigitRun(b, p) == n
  {
    forall i | p <= i < p + n
      ensures Numeric(b[i])
    {
      assert b[i] == b[p..p + n][i - p];
    }
    DigitRunIs(b, p, n);
  }

  // ----- one law for every place

  /** The buffer ends. */
  lemma {:induction false} AtTheEnd(b: Bytes, at: nat, ctx: seq<Open>, depthLimit: int, tokenLimit: int, ec: ErrorCode,
                                    errorPos: nat)
    requires at <= |b| && StuckAt(b, at, ctx, depthLimit, tokenLimit, ec, errorPos)
    requires at == |b|
    ensures ec == UnexpectedEof && errorPos == at
  {}

  /** A limit is reached. The depth is looked at first. */
  lemma {:induction false} AtLimits(b: Bytes, at: nat, ctx: seq<Open>, depthLimit: int, tokenLimit: int, ec: ErrorCode,
                                    errorPos: nat)
    requires at < |b| && StuckAt(b, at, ctx, depthLimit, tokenLimit, ec, errorPos)
    ensures ec == DepthExceeded <==> |ctx| >= depthLimit
    ensures |ctx| < depthLimit && |FlatOpen(ctx)| >= tokenLimit ==> ec == LimitExceeded
    ensures !Room(b, at, ctx, depthLimit, tokenLimit) ==> errorPos == at
  {
    hide StuckAt, LaxOpen, ScanInteger, ScanString;
    StuckMeans(b, at, ctx, depthLimit, tokenLimit, ec, errorPos);
    NoOtherDepth(b, at, LevelsOpen(ctx), |LexemesOpen(ctx)|, depthLimit, tokenLimit, ec, errorPos);
  }

  lemma {:induction false} NoOtherDepth(b: Bytes, at: nat, s: seq<Level>, used: nat, depthLimit: int, tokenLimit: int,
                                        ec: ErrorCode, errorPos: nat)
    requires at < |b| && Next(b, at, s, used, depthLimit, tokenLimit) == Bad(ec, errorPos)
    ensures ec == DepthExceeded <==> |s| >= depthLimit
  {}

  /** Neither a string nor an integer may begin here. */
  lemma {:induction false} AtByte(b: Bytes, at: nat, ctx: seq<Open>, depthLimit: int, tokenLimit: int, ec: ErrorCode,
                                  errorPos: nat)
    requires at < |b| && StuckAt(b, at, ctx, depthLimit, tokenLimit, ec, errorPos)
    requires Room(b, at, ctx, depthLimit, tokenLimit)
    requires !Numeric(b[at]) && (KeyIsNext(ctx) || b[at] != LETTER_I)
    ensures errorPos == at && (b[at] == LETTER_E ==> ctx == [] || ValueIsNext(ctx))
    ensures KeyIsNext(ctx) ==> ec == ExpectedDigit
    ensures !KeyIsNext(ctx) && b[at] == LETTER_E ==> ec == if ctx == [] then UnexpectedEof else ExpectedValue
    ensures !KeyIsNext(ctx) && b[at] != LETTER_E ==> ec == ExpectedValue && b[at] != LETTER_D && b[at] != LETTER_L
  {
    KeyOrValue(ctx);
  }

  /** An integer, of which `n` digits are there. */
  lemma {:induction false} AtInteger(b: Bytes, at: nat, ctx: seq<Open>, depthLimit: int, tokenLimit: int, ec: ErrorCode,
                                     errorPos: nat, first: nat, n: nat)
    requires at < |b| && StuckAt(b, at, ctx, depthLimit, tokenLimit, ec, errorPos)
    requires Room(b, at, ctx, depthLimit, tokenLimit) && !KeyIsNext(ctx)
    requires IntegerAt(b, at, first) && DigitsAt(b, first, n)
    ensures errorPos == first + n
    ensures ec == Overflow <==> n > 20
    ensures ec == UnexpectedEof <==> n <= 20 && first + n == |b|
    ensures ec == ExpectedDigit <==> n <= 20 && first + n < |b|
    ensures ec == ExpectedDigit ==> n == 0 || b[first + n] != LETTER_E
  {
    hide StuckAt, Next, ScanInteger, LaxOpen;
    StuckMeans(b, at, ctx, depthLimit, tokenLimit, ec, errorPos);
    KeyOrValue(ctx);
    RunIs(b, first, n);
    IntegerIsScanned(b, at, LevelsOpen(ctx), |LexemesOpen(ctx)|, depthLimit, tokenLimit);
    IntegerErrors(b, at, first, n, ec, errorPos);
  }

  lemma {:induction false} StuckMeans(b: Bytes, at: nat, ctx: seq<Open>, depthLimit: int, tokenLimit: int,
                                      ec: ErrorCode, errorPos: nat)
    requires at <= |b| && StuckAt(b, at, ctx, depthLimit, tokenLimit, ec, errorPos)
    ensures Next(b, at, LevelsOpen(ctx), |LexemesOpen(ctx)|, depthLimit, tokenLimit) == Bad(ec, errorPos)
  {}

  lemma {:induction false} IntegerIsScanned(b: Bytes, at: nat, s: seq<Level>, used: nat, depthLimit: int,
                                            tokenLimit: int)
    requires at < |b| && b[at] == LETTER_I && !AtKey(s) && |s| < depthLimit && used < tokenLimit
    ensures Next(b, at, s, used, depthLimit, tokenLimit) == ScanInteger(b, at)
  {}

  lemma {:induction false} IntegerErrors(b: Bytes, at: nat, first: nat, n: nat, ec: ErrorCode, errorPos: nat)
    requires IntegerAt(b, at, first) && first <= |b| && DigitRun(b, first) == n
    requires ScanInteger(b, at) == Bad(ec, errorPos)
    ensures errorPos == first + n
    ensures ec == Overflow <==> n > 20
    ensures ec == UnexpectedEof <==> n <= 20 && first + n == |b|
    ensures ec == ExpectedDigit <==> n <= 20 && first + n < |b|
    ensures ec == ExpectedDigit ==> n == 0 || b[first + n] != LETTER_E
  {
    assert first == at + 1 + SignAt(b, at + 1);
  }

  /** A string, of whose length `n` digits are there. */
  lemma {:induction false} AtString(b: Bytes, at: nat, ctx: seq<Open>, depthLimit: int, tokenLimit: int, ec: ErrorCode,
                                    errorPos: nat, n: nat)
    requires at < |b| && StuckAt(b, at, ctx, depthLimit, tokenLimit, ec, errorPos)
    requires Room(b, at, ctx, depthLimit, tokenLimit) && n > 0 && DigitsAt(b, at, n)
    ensures StringFault(b, at, n, Decimal(b[at..at + n]), ec, errorPos)
  {
    hide StuckAt, Next, ScanString, LaxOpen;
    StuckMeans(b, at, ctx, depthLimit, tokenLimit, ec, errorPos);
    RunIs(b, at, n);
    assert b[at] == b[at..at + n][0];
    StringIsScanned(b, at, n, LevelsOpen(ctx), |LexemesOpen(ctx)|, depthLimit, tokenLimit);
    StringErrors(b, at, n, Decimal(b[at..at + n]), ec, errorPos);
  }

  lemma {:induction false} StringErrors(b: Bytes, at: nat, n: nat, length: nat, ec: ErrorCode, errorPos: nat)
    requires n > 0 && at + n <= |b| && AllDigits(b[at..at + n]) && DigitRun(b, at) == n && Numeric(b[at])
    requires length == Decimal(b[at..at + n]) && ScanString(b, at) == Bad(ec, errorPos)
    ensures StringFault(b, at, n, length, ec, errorPos)
  {
    hide Decimal;
    ShortLength(b[at..at + n]);
  }

  lemma {:induction false} StringIsScanned(b: Bytes, at: nat, n: nat, s: seq<Level>, used: nat, depthLimit: int,
                                           tokenLimit: int)
    requires at < |b| && n > 0 && DigitsAt(b, at, n) && DigitRun(b, at) == n && Numeric(b[at])
    requires |s| < depthLimit && used < tokenLimit
    ensures Next(b, at, s, used, depthLimit, tokenLimit) == ScanString(b, at)
  {}

  /** A single digit is a small number. */
  lemma {:induction false} ShortLength(digits: Bytes)
    requires digits != [] && AllDigits(digits)
    ensures |digits| == 1 ==> Decimal(digits) < 10
  {
    if |digits| == 1 {
      assert digits == [digits[0]];
      DecimalOfOne(digits[0]);
    }
  }

  // ----- the buffer and the limits determine the error

  ghost predicate LaxLexemes(ls: seq<Lexeme>) {
    forall i :: 0 <= i < |ls| ==> LaxLexeme(ls[i])
  }

  lemma {:induction false} ItemsAreLax(items: seq<Tree>)
    requires LaxAll(items)
    ensures LaxLexemes(LexemesAll(items))
  {
    if items != [] {
      ItemsAreLax(items[..|items| - 1]);
      RenderByLexemes(items[|items| - 1]);
    }
  }

  lemma {:induction false} OpenIsLax(ctx: seq<Open>)
    requires LaxOpen(ctx)
    ensures LaxLexemes(LexemesOpen(ctx))
  {
    if ctx != [] {
      OuterIsLax(ctx);
      OpenIsLax(ctx[..|ctx| - 1]);
      ItemsAreLax(ctx[|ctx| - 1].items);
    }
  }

  /** Of two sequences of lexemes that a buffer begins with one begins with the other. */
  lemma {:induction false} OneWayToRead(a: seq<Lexeme>, c: seq<Lexeme>, b: Bytes)
    requires LaxLexemes(a) && LaxLexemes(c) && RenderLexemes(a) <= b && RenderLexemes(c) <= b
    ensures a <= c || c <= a
  {
    hide RenderLexemes, RenderLexeme, LaxLexeme;
    if a != [] {
      var init := a[..|a| - 1];
      TakeText(a, b, |a| - 1);
      OneWayToRead(init, c, b);
      if init < c {
        SameNext(init, a, c, b);
      }
    }
  }

  lemma {:induction false} SameNext(init: seq<Lexeme>, a: seq<Lexeme>, c: seq<Lexeme>, b: Bytes)
    requires LaxLexemes(a) && LaxLexemes(c) && RenderLexemes(a) <= b && RenderLexemes(c) <= b
    requires a != [] && init == a[..|a| - 1] && init < c && RenderLexemes(init) <= b
    ensures a <= c
  {
    hide RenderLexemes, RenderLexeme, LaxLexeme;
    NextText(init, a, b);
    NextText(init, c, b);
    LexemeIsUnique(a[|init|], c[|init|], b[|RenderLexemes(init)|..]);
  }

  lemma {:induction false} TakeText(ls: seq<Lexeme>, b: Bytes, k: nat)
    requires k <= |ls| && RenderLexemes(ls) <= b
    ensures RenderLexemes(ls[..k]) <= b
  {
    assert ls == ls[..k] + ls[k..];
    RenderLexemesConcat(ls[..k], ls[k..]);
  }

  lemma {:induction false} NextText(read: seq<Lexeme>, ls: seq<Lexeme>, b: Bytes)
    requires read < ls && RenderLexemes(ls) <= b && RenderLexemes(read) <= b
    ensures RenderLexeme(ls[|read|]) <= b[|RenderLexemes(read)|..]
  {
    TextAt(b, |RenderLexemes(read)|, read, ls);
  }

  /** In front of every lexeme that was read fewer containers were open than the limit allows. */
  lemma {:induction false} DepthBefore(ctx: seq<Open>, depthLimit: int, k: nat)
    requires LaxOpen(ctx) && |ctx| <= depthLimit && Within(ctx, depthLimit) && k < |LexemesOpen(ctx)|
    ensures Run([], LexemesOpen(ctx)[..k]).Some? && |Run([], LexemesOpen(ctx)[..k]).value| < depthLimit
    ensures Run([], LexemesOpen(ctx)[..k + 1]).Some?
  {
    hide Run, NestingAll, RenderOpen, RenderLexemes, LexemesAll, LevelsOpen;
    var init, top := ctx[..|ctx| - 1], ctx[|ctx| - 1];
    var read, ls := LexemesOpen(init), [OpenLexeme(top.isDict)] + LexemesAll(top.items);
    OuterIsLax(ctx);
    OpenIsAccepted(init);
    TakeOfConcat(read, ls, k);
    TakeOfConcat(read, ls, k + 1);
    if k < |read| {
      DepthBefore(init, depthLimit, k);
    } else {
      TopDepth(LevelsOpen(init), top, depthLimit, k - |read|);
      RunConcat([], read, ls[..k - |read|]);
      RunConcat([], read, ls[..k + 1 - |read|]);
    }
  }

  lemma {:induction false} TopDepth(s: seq<Level>, top: Open, depthLimit: int, k: nat)
    requires !AtKey(s) && LaxAll(top.items) && (top.isDict ==> KeysAreStrings(top.items)) && |s| < depthLimit
    requires top.items == [] || |s| + 1 + NestingAll(top.items) < depthLimit
    requires k <= |LexemesAll(top.items)|
    ensures var ls := [OpenLexeme(top.isDict)] + LexemesAll(top.items);
      && Run(s, ls[..k]).Some? && |Run(s, ls[..k]).value| < depthLimit && Run(s, ls[..k + 1]).Some?
  {
    var open, inner := OpenLexeme(top.isDict), AfterValue(s) + [Level(top.isDict, false)];
    var ls, limit := [open] + LexemesAll(top.items), |inner| + NestingAll(top.items);
    var end := AfterItems(inner, |top.items|);
    AcceptsOne(s, open, limit, inner);
    ItemsAreAccepted(inner, top.items);
    AcceptsConcat(s, [open], inner, LexemesAll(top.items), limit, end);
    if top.items == [] {
      assert k == 0 && ls[..0] == [];
    }
  }

  /**
   At most one part of a value, and one error behind it, is where a buffer is stuck under given limits. So `Decode`
   has no choice.
   */
  lemma {:induction false} StuckOnce(b: Bytes, depthLimit: int, tokenLimit: int, at: nat, ctx: seq<Open>,
                                     ec: ErrorCode, errorPos: nat, at': nat, ctx': seq<Open>, ec': ErrorCode,
                                     errorPos': nat)
    requires at <= |b| <= MAX_OFFSET && StuckAt(b, at, ctx, depthLimit, tokenLimit, ec, errorPos)
    requires at' <= |b| && StuckAt(b, at', ctx', depthLimit, tokenLimit, ec', errorPos')
    ensures at == at' && LexemesOpen(ctx) == LexemesOpen(ctx') && LevelsOpen(ctx) == LevelsOpen(ctx')
    ensures ec == ec' && errorPos == errorPos'
  {
    hide Next, Within, LaxOpen, LexemesOpen, RenderOpen, LevelsOpen, FlatOpen, Run, RenderLexemes, Viable, LaxLexemes;
    var a, c := LexemesOpen(ctx), LexemesOpen(ctx');
    assert RenderOpen(ctx) <= b && RenderOpen(ctx') <= b;
    OpenIsLax(ctx);
    OpenIsLax(ctx');
    OpenIsAccepted(ctx);
    OpenIsAccepted(ctx');
    OneWayToRead(a, c, b);
    if a < c {
      StuckBehind(b, depthLimit, tokenLimit, at, ctx, ctx');
    } else if c < a {
      StuckBehind(b, depthLimit, tokenLimit, at', ctx', ctx);
    } else {
      assert a == c;
    }
  }

  /** Reading does not go on behind an error. */
  lemma {:induction false} StuckBehind(b: Bytes, depthLimit: int, tokenLimit: int, at: nat, ctx: seq<Open>,
                                       more: seq<Open>)
    requires at <= |b| <= MAX_OFFSET && b[..at] == RenderOpen(ctx) && LaxOpen(ctx) && LaxOpen(more)
    requires RenderOpen(more) <= b && ReadWithin(more, depthLimit, tokenLimit) && LexemesOpen(ctx) < LexemesOpen(more)
    ensures Next(b, at, LevelsOpen(ctx), |LexemesOpen(ctx)|, depthLimit, tokenLimit).Good?
  {
    hide Next, Within, LaxOpen, LexemesOpen, RenderOpen, LevelsOpen, FlatOpen, Run, RenderLexemes;
    var k := |LexemesOpen(ctx)|;
    var l := LexemesOpen(more)[k];
    assert LexemesOpen(more) != [];
    NothingRead(more);
    OpenIsLax(more);
    OpenIsAccepted(ctx);
    OpenIsAccepted(more);
    DepthBefore(more, depthLimit, k);
    StepAt(LexemesOpen(ctx), LexemesOpen(more));
    NextText(LexemesOpen(ctx), LexemesOpen(more), b);
    NextIsComplete(b, at, LevelsOpen(ctx), k, depthLimit, tokenLimit, l);
  }

  lemma {:induction false} NothingRead(ctx: seq<Open>)
    ensures ctx == [] ==> LexemesOpen(ctx) == []
  {}
}
