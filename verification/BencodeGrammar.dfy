/**
 The bencoding grammar as a set of trees and the text each of them prints as, and the same text cut into
 lexemes. The grammar is the lax one that libtorrent accepts: leading zeros, `-0`, unsorted and repeated
 dictionary keys are all in it. It says nothing about how a buffer is parsed.
 */
module BencodeGrammar {
  import opened Bytes

  const MAX_INT_DIGITS := 20
  const MAX_LENGTH_DIGITS := 16

  /** The items of a dictionary alternate: key, value, key, value, ... */
  datatype Tree =
    | TInt(body: Bytes)
    | TStr(digits: Bytes, content: Bytes)
    | TList(items: seq<Tree>)
    | TDict(items: seq<Tree>)

  /** An integer of any length. */
  predicate WideInt(body: Bytes) {
    var digits := if body != [] && body[0] == MINUS then body[1..] else body;
    0 < |digits| && AllDigits(digits)
  }

  /** What may stand between `i` and `e`. */
  predicate IntBody(body: Bytes) {
    WideInt(body) && |if body[0] == MINUS then body[1..] else body| <= MAX_INT_DIGITS
  }

  predicate WideLength(digits: Bytes, length: nat) {
    0 < |digits| && AllDigits(digits) && Decimal(digits) == length
  }

  /** What may stand in front of the colon of a string of `length` bytes. */
  predicate LengthDigits(digits: Bytes, length: nat) {
    WideLength(digits, length) && |digits| <= MAX_LENGTH_DIGITS
  }

  predicate KeysAreStrings(items: seq<Tree>) {
    forall i :: 0 <= i < |items| && i % 2 == 0 ==> items[i].TStr?
  }

  ghost predicate LaxAll(items: seq<Tree>) {
    forall i :: 0 <= i < |items| ==> Lax(items[i])
  }

  /** The trees of the lax grammar. */
  ghost predicate Lax(t: Tree) {
    match t
    case TInt(body) => IntBody(body)
    case TStr(digits, content) => LengthDigits(digits, |content|)
    case TList(items) => forall i :: 0 <= i < |items| ==> Lax(items[i])
    case TDict(items) =>
      |items| % 2 == 0 && KeysAreStrings(items) && forall i :: 0 <= i < |items| ==> Lax(items[i])
  }

  /** The trees of the grammar without any bound on the number of digits. */
  ghost predicate Wide(t: Tree) {
    match t
    case TInt(body) => WideInt(body)
    case TStr(digits, content) => WideLength(digits, |content|)
    case TList(items) => forall i :: 0 <= i < |items| ==> Wide(items[i])
    case TDict(items) =>
      |items| % 2 == 0 && KeysAreStrings(items) && forall i :: 0 <= i < |items| ==> Wide(items[i])
  }

  lemma {:induction false} LaxIsWide(t: Tree)
    requires Lax(t)
    ensures Wide(t)
  {
    if t.TList? || t.TDict? {
      forall i | 0 <= i < |t.items|
        ensures Wide(t.items[i])
      {
        LaxIsWide(t.items[i]);
      }
    }
  }

  /** The bytes of a value. */
  function Render(t: Tree): (r: Bytes)
    decreases t, 1
  {
    match t
    case TInt(body) => [LETTER_I] + body + [LETTER_E]
    case TStr(digits, content) => digits + [COLON] + content
    case TList(items) => [LETTER_L] + RenderAll(items) + [LETTER_E]
    case TDict(items) => [LETTER_D] + RenderAll(items) + [LETTER_E]
  }

  function RenderAll(items: seq<Tree>): Bytes
    decreases items, 0
  {
    if items == [] then [] else RenderAll(items[..|items| - 1]) + Render(items[|items| - 1])
  }

  /** How deep lists and dictionaries nest. */
  function Nesting(t: Tree): nat
    decreases t, 1
  {
    match t
    case TInt(_) => 0
    case TStr(_, _) => 0
    case TList(items) => 1 + NestingAll(items)
    case TDict(items) => 1 + NestingAll(items)
  }

  function NestingAll(items: seq<Tree>): nat
    decreases items, 0
  {
    if items == [] then 0 else
    var a, b := NestingAll(items[..|items| - 1]), Nesting(items[|items| - 1]);
    if a < b then b else a
  }

  // ----- lexemes

  datatype Lexeme =
    | LInt(body: Bytes)
    | LStr(digits: Bytes, content: Bytes)
    | LList
    | LDict
    | LEnd

  predicate LaxLexeme(l: Lexeme) {
    match l
    case LInt(body) => IntBody(body)
    case LStr(digits, content) => LengthDigits(digits, |content|)
    case _ => true
  }

  function RenderLexeme(l: Lexeme): (r: Bytes)
    ensures r != []
  {
    match l
    case LInt(body) => [LETTER_I] + body + [LETTER_E]
    case LStr(digits, content) => digits + [COLON] + content
    case LList => [LETTER_L]
    case LDict => [LETTER_D]
    case LEnd => [LETTER_E]
  }

  function RenderLexemes(ls: seq<Lexeme>): Bytes {
    if ls == [] then [] else RenderLexemes(ls[..|ls| - 1]) + RenderLexeme(ls[|ls| - 1])
  }

  /** The lexemes of a value, which are as many as its tokens. */
  function Lexemes(t: Tree): (ls: seq<Lexeme>)
    ensures ls != []
    decreases t, 1
  {
    match t
    case TInt(body) => [LInt(body)]
    case TStr(digits, content) => [LStr(digits, content)]
    case TList(items) => [LList] + LexemesAll(items) + [LEnd]
    case TDict(items) => [LDict] + LexemesAll(items) + [LEnd]
  }

  function LexemesAll(items: seq<Tree>): seq<Lexeme>
    decreases items, 0
  {
    if items == [] then [] else LexemesAll(items[..|items| - 1]) + Lexemes(items[|items| - 1])
  }

  function TokenCount(t: Tree): nat {
    |Lexemes(t)|
  }

  // ----- a list of items grows at its end

  lemma {:induction false} AppendItem(items: seq<Tree>, t: Tree)
    ensures RenderAll(items + [t]) == RenderAll(items) + Render(t)
    ensures LexemesAll(items + [t]) == LexemesAll(items) + Lexemes(t)
    ensures LaxAll(items) && Lax(t) ==> LaxAll(items + [t])
  {
    assert (items + [t])[..|items|] == items;
  }

  lemma {:induction false} AppendLexeme(ls: seq<Lexeme>, l: Lexeme)
    ensures RenderLexemes(ls + [l]) == RenderLexemes(ls) + RenderLexeme(l)
  {
    assert (ls + [l])[..|ls|] == ls;
  }

  lemma {:induction false} RenderOne(l: Lexeme)
    ensures RenderLexemes([l]) == RenderLexeme(l)
  {
    assert [l][..0] == [];
  }

  lemma {:induction false} RenderLexemesConcat(a: seq<Lexeme>, b: seq<Lexeme>)
    ensures RenderLexemes(a + b) == RenderLexemes(a) + RenderLexemes(b)
  {
    if b == [] {
      assert a + b == a;
    } else {
      var init, last := b[..|b| - 1], b[|b| - 1];
      RenderLexemesConcat(a, init);
      InitOfConcat(a, b);
      assert RenderLexemes(a + b) == RenderLexemes(a + init) + RenderLexeme(last);
      ConcatAssociative(RenderLexemes(a), RenderLexemes(init), RenderLexeme(last));
    }
  }

  /** A value prints as its lexemes do, and they are lexemes of the grammar. */
  lemma {:induction false} RenderByLexemes(t: Tree)
    ensures RenderLexemes(Lexemes(t)) == Render(t)
    ensures Lax(t) ==> forall i :: 0 <= i < |Lexemes(t)| ==> LaxLexeme(Lexemes(t)[i])
    decreases t, 1
  {
    match t
    case TInt(body) =>
      RenderOne(LInt(body));
    case TStr(digits, content) =>
      RenderOne(LStr(digits, content));
    case TList(items) =>
      RenderBracketed(LList, items);
    case TDict(items) =>
      RenderBracketed(LDict, items);
  }

  lemma {:induction false} RenderBracketed(open: Lexeme, items: seq<Tree>)
    ensures RenderLexemes([open] + LexemesAll(items) + [LEnd]) == RenderLexeme(open) + RenderAll(items) + [LETTER_E]
    ensures LaxAll(items) ==> forall i :: 0 <= i < |LexemesAll(items)| ==> LaxLexeme(LexemesAll(items)[i])
    decreases items, 1
  {
    RenderAllByLexemes(items);
    RenderOne(open);
    RenderLexemesConcat([open], LexemesAll(items));
    AppendLexeme([open] + LexemesAll(items), LEnd);
  }

  lemma {:induction false} RenderAllByLexemes(items: seq<Tree>)
    ensures RenderLexemes(LexemesAll(items)) == RenderAll(items)
    ensures LaxAll(items) ==> forall i :: 0 <= i < |LexemesAll(items)| ==> LaxLexeme(LexemesAll(items)[i])
    decreases items, 0
  {
    if items != [] {
      var init, last := items[..|items| - 1], items[|items| - 1];
      RenderAllByLexemes(init);
      RenderByLexemes(last);
      RenderLexemesConcat(LexemesAll(init), Lexemes(last));
    }
  }

  // ----- at any position of a buffer at most one lexeme of the grammar starts

  lemma {:induction false} LexemeIsUnique(l: Lexeme, m: Lexeme, rest: Bytes)
    requires LaxLexeme(l) && LaxLexeme(m)
    requires RenderLexeme(l) <= rest && RenderLexeme(m) <= rest
    ensures l == m
  {
    match l
    case LInt(a) =>
      assert rest[0] == LETTER_I;
      assert m.LInt? by { LexemeByFirstByte(m, rest); }
      IntLexemeIsUnique(a, m.body, rest);
    case LStr(d, c) =>
      LexemeByFirstByte(l, rest);
      LexemeByFirstByte(m, rest);
      StrLexemeIsUnique(d, c, m.digits, m.content, rest);
    case _ =>
      LexemeByFirstByte(m, rest);
  }

  lemma {:induction false} LexemeByFirstByte(l: Lexeme, rest: Bytes)
    requires LaxLexeme(l) && RenderLexeme(l) <= rest
    ensures rest != []
    ensures l.LInt? <==> rest[0] == LETTER_I
    ensures l.LList? <==> rest[0] == LETTER_L
    ensures l.LDict? <==> rest[0] == LETTER_D
    ensures l.LEnd? <==> rest[0] == LETTER_E
    ensures l.LStr? <==> Numeric(rest[0])
  {
    assert rest[0] == RenderLexeme(l)[0];
    if l.LStr? {
      assert rest[0] == l.digits[0];
    }
  }

  lemma {:induction false} IntLexemeIsUnique(a: Bytes, b: Bytes, rest: Bytes)
    requires WideInt(a) && WideInt(b)
    requires [LETTER_I] + a + [LETTER_E] <= rest && [LETTER_I] + b + [LETTER_E] <= rest
    ensures a == b
  {
    var sign := if rest[1] == MINUS then 1 else 0;
    assert rest[1] == a[0] == b[0];
    DigitRunIs(rest, 1 + sign, |a| - sign);
    DigitRunIs(rest, 1 + sign, |b| - sign);
    assert a == rest[1..1 + |a|] == b;
  }

  lemma {:induction false} StrLexemeIsUnique(d: Bytes, c: Bytes, e: Bytes, f: Bytes, rest: Bytes)
    requires WideLength(d, |c|) && WideLength(e, |f|)
    requires d + [COLON] + c <= rest && e + [COLON] + f <= rest
    ensures d == e && c == f
  {
    assert rest[..|d|] == d && rest[..|e|] == e;
    DigitRunIs(rest, 0, |d|);
    DigitRunIs(rest, 0, |e|);
    assert c == rest[|d| + 1..|d| + 1 + |c|] == f;
  }

  // ----- the stack automaton that the lexemes of a value drive

  /** One open container: whether it is a dictionary, and whether a key in it waits for its value. */
  datatype Level = Level(isDict: bool, wantValue: bool)

  /** The innermost open container is a dictionary in which a key has to come next. */
  predicate AtKey(s: seq<Level>) {
    s != [] && s[|s| - 1].isDict && !s[|s| - 1].wantValue
  }

  /** The levels after a value was started in the innermost one. */
  function AfterValue(s: seq<Level>): (r: seq<Level>)
    ensures |r| == |s|
  {
    if s != [] && s[|s| - 1].isDict then s[..|s| - 1] + [Level(true, !s[|s| - 1].wantValue)] else s
  }

  function Step(s: seq<Level>, l: Lexeme): Option<seq<Level>> {
    match l
    case LStr(_, _) => Some(AfterValue(s))
    case LInt(_) => if AtKey(s) then None else Some(AfterValue(s))
    case LList => if AtKey(s) then None else Some(AfterValue(s) + [Level(false, false)])
    case LDict => if AtKey(s) then None else Some(AfterValue(s) + [Level(true, false)])
    case LEnd => if s == [] || s[|s| - 1].wantValue then None else Some(s[..|s| - 1])
  }

  function Run(s: seq<Level>, ls: seq<Lexeme>): Option<seq<Level>> {
    if ls == [] then Some(s) else
    match Run(s, ls[..|ls| - 1])
    case None => None
    case Some(r) => Step(r, ls[|ls| - 1])
  }

  lemma {:induction false} RunConcat(s: seq<Level>, a: seq<Lexeme>, b: seq<Lexeme>)
    requires Run(s, a).Some?
    ensures Run(s, a + b) == Run(Run(s, a).value, b)
  {
    if b == [] {
      assert a + b == a;
    } else {
      RunConcat(s, a, b[..|b| - 1]);
      InitOfConcat(a, b);
    }
  }

  /** The automaton reads `ls` from `s` to `end`, and on the way never has more than `limit` containers open. */
  ghost predicate Accepts(s: seq<Level>, ls: seq<Lexeme>, limit: nat, end: seq<Level>) {
    Run(s, ls) == Some(end)
    && forall k :: 0 <= k <= |ls| ==> Run(s, ls[..k]).Some? && |Run(s, ls[..k]).value| <= limit
  }

  lemma {:induction false} AcceptsOne(s: seq<Level>, l: Lexeme, limit: nat, end: seq<Level>)
    requires Step(s, l) == Some(end) && |s| <= limit && |end| <= limit
    ensures Accepts(s, [l], limit, end)
  {
    assert [l][..0] == [];
    TakeAll([l]);
  }

  lemma {:induction false} AcceptsConcat(s: seq<Level>, a: seq<Lexeme>, middle: seq<Level>, b: seq<Lexeme>, limit: nat,
                                         end: seq<Level>)
    requires Accepts(s, a, limit, middle) && Accepts(middle, b, limit, end)
    ensures Accepts(s, a + b, limit, end)
  {
    RunConcat(s, a, b);
    forall k | 0 <= k <= |a + b|
      ensures Run(s, (a + b)[..k]).Some? && |Run(s, (a + b)[..k]).value| <= limit
    {
      TakeOfConcat(a, b, k);
      if |a| < k {
        RunConcat(s, a, b[..k - |a|]);
      }
    }
  }

  lemma {:induction false} AcceptsDeeper(s: seq<Level>, ls: seq<Lexeme>, limit: nat, deeper: nat, end: seq<Level>)
    requires Accepts(s, ls, limit, end) && limit <= deeper
    ensures Accepts(s, ls, deeper, end)
  {}

  /** The levels after `n` values were started in the innermost one, which was empty. */
  function AfterItems(s: seq<Level>, n: nat): seq<Level>
    requires s != []
  {
    var top := s[|s| - 1];
    s[..|s| - 1] + [if top.isDict then Level(true, n % 2 == 1) else top]
  }

  /** The automaton accepts the lexemes of every value of the grammar, and never goes deeper than the value nests. */
  lemma {:induction false} TreeIsAccepted(s: seq<Level>, t: Tree)
    requires Lax(t) && (AtKey(s) ==> t.TStr?)
    ensures Accepts(s, Lexemes(t), |s| + Nesting(t), AfterValue(s))
    decreases t, 1
  {
    match t
    case TInt(body) =>
      AcceptsOne(s, LInt(body), |s|, AfterValue(s));
    case TStr(digits, content) =>
      AcceptsOne(s, LStr(digits, content), |s|, AfterValue(s));
    case TList(items) =>
      ContainerIsAccepted(s, LList, Level(false, false), items);
    case TDict(items) =>
      ContainerIsAccepted(s, LDict, Level(true, false), items);
  }

  lemma {:induction false} ContainerIsAccepted(s: seq<Level>, open: Lexeme, level: Level, items: seq<Tree>)
    requires open in {LList, LDict} && level == Level(open == LDict, false) && !AtKey(s)
    requires LaxAll(items) && (level.isDict ==> KeysAreStrings(items) && |items| % 2 == 0)
    ensures Accepts(s, [open] + LexemesAll(items) + [LEnd], |s| + 1 + NestingAll(items), AfterValue(s))
    decreases items, 1
  {
    var inner, limit := AfterValue(s) + [level], |s| + 1 + NestingAll(items);
    AcceptsOne(s, open, limit, inner);
    ItemsAreAccepted(inner, items);
    assert AfterItems(inner, |items|) == inner;
    AcceptsConcat(s, [open], inner, LexemesAll(items), limit, inner);
    assert inner[..|inner| - 1] == AfterValue(s);
    AcceptsOne(inner, LEnd, limit, AfterValue(s));
    AcceptsConcat(s, [open] + LexemesAll(items), inner, [LEnd], limit, AfterValue(s));
  }

  lemma {:induction false} ItemsAreAccepted(s: seq<Level>, items: seq<Tree>)
    requires s != [] && !s[|s| - 1].wantValue
    requires LaxAll(items) && (s[|s| - 1].isDict ==> KeysAreStrings(items))
    ensures Accepts(s, LexemesAll(items), |s| + NestingAll(items), AfterItems(s, |items|))
    decreases items, 0
  {
    var limit := |s| + NestingAll(items);
    if items == [] {
      assert AfterItems(s, 0) == s;
    } else {
      var init, last := items[..|items| - 1], items[|items| - 1];
      var middle := AfterItems(s, |init|);
      ItemsAreAccepted(s, init);
      AcceptsDeeper(s, LexemesAll(init), |s| + NestingAll(init), limit, middle);
      TreeIsAccepted(middle, last);
      AcceptsDeeper(middle, Lexemes(last), |s| + Nesting(last), limit, AfterValue(middle));
      AcceptsConcat(s, LexemesAll(init), middle, Lexemes(last), limit, AfterValue(middle));
      AfterOneMore(s, |init|);
    }
  }

  lemma {:induction false} AfterOneMore(s: seq<Level>, n: nat)
    requires s != []
    ensures AfterValue(AfterItems(s, n)) == AfterItems(s, n + 1)
  {}

  // ----- a buffer begins with at most one value

  ghost predicate WideAll(items: seq<Tree>) {
    forall i :: 0 <= i < |items| ==> Wide(items[i])
  }

  lemma {:induction false} FirstByte(t: Tree)
    requires Wide(t)
    ensures Render(t) != [] && Render(t)[0] != LETTER_E
    ensures t.TInt? <==> Render(t)[0] == LETTER_I
    ensures t.TStr? <==> Numeric(Render(t)[0])
    ensures t.TList? <==> Render(t)[0] == LETTER_L
    ensures t.TDict? <==> Render(t)[0] == LETTER_D
  {
    if t.TStr? {
      assert Render(t)[0] == t.digits[0];
    }
  }

  lemma {:induction false} RenderAllHead(items: seq<Tree>)
    requires items != []
    ensures RenderAll(items) == Render(items[0]) + RenderAll(items[1..])
  {
    if |items| > 1 {
      var init, last := items[..|items| - 1], items[|items| - 1];
      RenderAllHead(init);
      assert init[1..] == items[1..][..|items| - 2];
      ConcatAssociative(Render(items[0]), RenderAll(init[1..]), Render(last));
    }
  }

  lemma {:induction false} ValueIsUnique(t: Tree, u: Tree, b: Bytes)
    requires Wide(t) && Wide(u) && Render(t) <= b && Render(u) <= b
    ensures t == u
    decreases t, 1
  {
    FirstByte(t);
    FirstByte(u);
    assert b[0] == Render(t)[0] == Render(u)[0];
    match t
    case TInt(body) =>
      IntLexemeIsUnique(body, u.body, b);
    case TStr(digits, content) =>
      StrLexemeIsUnique(digits, content, u.digits, u.content, b);
    case TList(items) =>
      ItemsAfterHead(items, b);
      ItemsAfterHead(u.items, b);
      ItemsAreUnique(items, u.items, b[1..]);
    case TDict(items) =>
      ItemsAfterHead(items, b);
      ItemsAfterHead(u.items, b);
      ItemsAreUnique(items, u.items, b[1..]);
  }

  lemma {:induction false} ItemsAfterHead(items: seq<Tree>, b: Bytes)
    requires b != [] && [b[0]] + RenderAll(items) + [LETTER_E] <= b
    ensures RenderAll(items) + [LETTER_E] <= b[1..]
  {
    var text := [b[0]] + RenderAll(items) + [LETTER_E];
    assert text[1..] == RenderAll(items) + [LETTER_E];
    assert text[1..] <= b[1..];
  }

  lemma {:induction false} ItemsAreUnique(items: seq<Tree>, other: seq<Tree>, b: Bytes)
    requires WideAll(items) && WideAll(other)
    requires RenderAll(items) + [LETTER_E] <= b && RenderAll(other) + [LETTER_E] <= b
    ensures items == other
    decreases items, 0
  {
    hide Render, RenderAll;
    ItemsHead(items, b);
    ItemsHead(other, b);
    if items != [] && other != [] {
      ValueIsUnique(items[0], other[0], b);
      ItemsAreUnique(items[1..], other[1..], b[|Render(items[0])|..]);
      assert items == [items[0]] + items[1..] && other == [other[0]] + other[1..];
    }
  }

  /** What follows in the text: the end, or an item and then the rest. */
  lemma {:induction false} ItemsHead(items: seq<Tree>, b: Bytes)
    requires WideAll(items) && RenderAll(items) + [LETTER_E] <= b
    ensures b != [] && (items == [] <==> b[0] == LETTER_E)
    ensures items != [] ==> Render(items[0]) <= b
    ensures items != [] ==> RenderAll(items[1..]) + [LETTER_E] <= b[|Render(items[0])|..]
  {
    if items == [] {
      assert b[0] == (RenderAll(items) + [LETTER_E])[0];
    } else {
      var head, tail := Render(items[0]), RenderAll(items[1..]);
      RenderAllHead(items);
      FirstByte(items[0]);
      HeadOf(head, tail, b);
    }
  }

  lemma {:induction false} HeadOf(head: Bytes, tail: Bytes, b: Bytes)
    requires head != [] && (head + tail) + [LETTER_E] <= b
    ensures head <= b && b[0] == head[0] && tail + [LETTER_E] <= b[|head|..]
  {
    var text := (head + tail) + [LETTER_E];
    assert b[..|text|] == text;
    assert head == text[..|head|] == b[..|head|];
    assert b[|head|..|text|] == text[|head|..] == tail + [LETTER_E];
    assert b[|head|..][..|tail| + 1] == b[|head|..|text|];
  }
}
