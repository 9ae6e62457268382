/**
 The two scanners of libtorrent's bdecoder, `check_integer` and `parse_int`, and what they say about the lexeme
 of the grammar that starts at a position of the buffer.
 */
module BdecodeScan {
  import opened Bytes
  import opened BencodeGrammar

  datatype ErrorCode =
    | NoError
    | ExpectedDigit
    | ExpectedColon
    | UnexpectedEof
    | ExpectedValue
    | DepthExceeded
    | LimitExceeded
    | Overflow

  /** `max_offset` and `max_next_item`: what fits into the 29-bit fields of a token. */
  const MAX_OFFSET: nat := 0x1fff_ffff
  const MAX_NEXT_ITEM: nat := 0x1fff_ffff

  /** The longest length prefix, colon included, that is kept in a `string` and in a `long_string` token. */
  const SHORT_STRING_MAX_HEADER := 9
  const LONG_STRING_MAX_HEADER := 17

  /** Finds the end of an integer, and only detects an overflow by its number of digits. */
  method CheckInteger(b: Bytes, from: nat) returns (pos: nat, e: ErrorCode)
    requires from <= |b|
    ensures pos == from + SignAt(b, from) + DigitRun(b, from + SignAt(b, from))
    ensures e == IntegerError(b, from)
  {
    pos, e := from, NoError;
    if pos == |b| {
      e := UnexpectedEof;
      return;
    }
    if b[pos] == MINUS {
      pos := pos + 1;
      if pos == |b| {
        e := UnexpectedEof;
        return;
      }
    }
    ghost var first := pos;
    var digits := 0;
    var more := true;
    while more
      invariant first <= pos <= |b| && digits == pos - first
      invariant DigitRun(b, first) == digits + DigitRun(b, pos)
      invariant more ==> pos < |b| && e == NoError && (digits > 0 ==> b[pos] != LETTER_E)
      invariant !more && pos == |b| ==> e == UnexpectedEof
      invariant !more && pos < |b| ==> !Numeric(b[pos])
      invariant !more && pos < |b| ==> e == if digits > 0 && b[pos] == LETTER_E then NoError else ExpectedDigit
      decreases |b| - pos, more
    {
      if !Numeric(b[pos]) {
        e := ExpectedDigit;
        more := false;
      } else {
        pos := pos + 1;
        digits := digits + 1;
        if pos == |b| {
          e := UnexpectedEof;
          more := false;
        } else {
          more := b[pos] != LETTER_E;
        }
      }
    }
    if digits > MAX_INT_DIGITS {
      e := Overflow;
    }
  }

  function SignAt(b: Bytes, from: nat): (n: nat)
    requires from <= |b|
    ensures from + n <= |b|
  {
    if from < |b| && b[from] == MINUS then 1 else 0
  }

  /** The error of the integer whose body starts at `from`. */
  function IntegerError(b: Bytes, from: nat): ErrorCode
    requires from <= |b|
  {
    var first := from + SignAt(b, from);
    var digits := DigitRun(b, first);
    if digits > MAX_INT_DIGITS then Overflow
    else if first + digits == |b| then UnexpectedEof
    else if digits > 0 && b[first + digits] == LETTER_E then NoError
    else ExpectedDigit
  }

  /**
   Reads digits from `from` up to `delimiter` or `end`, on top of the number `init`, and stops at the first digit
   that does not fit into a signed 64-bit number any more.
   */
  method ParseInt(b: Bytes, from: nat, end: nat, delimiter: Byte, init: nat) returns (pos: nat, val: nat, ec: ErrorCode)
    requires from <= end <= |b| && !Numeric(delimiter) && init <= INT64_MAX
    ensures from <= pos <= from + DigitRun(b[..end], from)
    ensures AllDigits(b[from..pos])
    ensures ec == Overflow ==>
              pos < from + DigitRun(b[..end], from) && AllDigits(b[from..pos + 1])
              && DecimalFrom(init, b[from..pos]) <= INT64_MAX < DecimalFrom(init, b[from..pos + 1])
    ensures ec != Overflow ==>
              pos == from + DigitRun(b[..end], from) && val == DecimalFrom(init, b[from..pos]) <= INT64_MAX
              && ec == if pos < end && b[pos] != delimiter then ExpectedDigit else NoError
  {
    pos, val, ec := from, init, NoError;
    while pos < end && b[pos] != delimiter
      invariant from <= pos <= end && ec == NoError
      invariant DigitRun(b[..end], from) == pos - from + DigitRun(b[..end], pos)
      invariant AllDigits(b[from..pos]) && val == DecimalFrom(init, b[from..pos]) <= INT64_MAX
    {
      var c := b[pos];
      if !Numeric(c) {
        ec := ExpectedDigit;
        return;
      }
      DigitsGrow(init, b, from, pos);
      if val > INT64_MAX / 10 {
        ec := Overflow;
        return;
      }
      val := val * 10;
      var digit := c - DIGIT_0;
      if val > INT64_MAX - digit {
        ec := Overflow;
        return;
      }
      val := val + digit;
      pos := pos + 1;
    }
  }

  // ----- the lexeme at a position

  /** What a scan at a position finds: a lexeme and where it ends, or an error and where it was noticed. */
  datatype Scan = Good(lexeme: Lexeme, next: nat) | Bad(error: ErrorCode, pos: nat)

  ghost function ScanInteger(b: Bytes, p: nat): Scan
    requires p < |b| && b[p] == LETTER_I
  {
    var pos := p + 1 + SignAt(b, p + 1) + DigitRun(b, p + 1 + SignAt(b, p + 1));
    var e := IntegerError(b, p + 1);
    if e == NoError then Good(LInt(b[p + 1..pos]), pos + 1) else Bad(e, pos)
  }

  /** The first position at which the digits from `p` on spell a number beyond 64 bits. */
  ghost function OverflowAt(b: Bytes, p: nat, k: nat): (r: nat)
    requires p + k <= |b| && AllDigits(b[p..p + k]) && Decimal(b[p..p + k]) > INT64_MAX
    ensures p <= r < p + k
    ensures AllDigits(b[p..r]) && AllDigits(b[p..r + 1])
    ensures Decimal(b[p..r]) <= INT64_MAX < Decimal(b[p..r + 1])
    decreases k
  {
    assert k > 0;
    assert b[p..p + k][..k - 1] == b[p..p + k - 1];
    if Decimal(b[p..p + k - 1]) > INT64_MAX then OverflowAt(b, p, k - 1) else p + k - 1
  }

  ghost function ScanString(b: Bytes, p: nat): Scan
    requires p < |b| && Numeric(b[p])
  {
    var n := DigitRun(b, p);
    var len := Decimal(b[p..p + n]);
    if p + 1 == |b| then Bad(UnexpectedEof, p + 1)
    else if len > INT64_MAX then Bad(Overflow, OverflowAt(b, p, n))
    else ScanContent(b, p, p + n, len)
  }

  /** The string at `p` whose length `len` stands in front of `colon`. */
  ghost function ScanContent(b: Bytes, p: nat, colon: nat, len: nat): Scan
    requires p < colon <= |b|
  {
    if colon == |b| then Bad(ExpectedColon, colon)
    else if b[colon] != COLON then Bad(ExpectedDigit, colon)
    else if len > |b| - colon - 1 then Bad(UnexpectedEof, colon)
    else if colon + 1 - p > LONG_STRING_MAX_HEADER then Bad(LimitExceeded, colon + 1)
    else Good(LStr(b[p..colon], b[colon + 1..colon + 1 + len]), colon + 1 + len)
  }

  /**
   The next lexeme of a value that was read up to `p`, `used` lexemes so far, with the containers `s` open. The
   limits are looked at before the byte at `p` is.
   */
  ghost function Next(b: Bytes, p: nat, s: seq<Level>, used: nat, depthLimit: int, tokenLimit: int): Scan
    requires p <= |b|
  {
    if p == |b| then Bad(UnexpectedEof, p)
    else if |s| >= depthLimit then Bad(DepthExceeded, p)
    else if used >= tokenLimit then Bad(LimitExceeded, p)
    else if AtKey(s) && !Numeric(b[p]) && b[p] != LETTER_E then Bad(ExpectedDigit, p)
    else if b[p] == LETTER_D then Good(LDict, p + 1)
    else if b[p] == LETTER_L then Good(LList, p + 1)
    else if b[p] == LETTER_I then ScanInteger(b, p)
    else if b[p] == LETTER_E then
      if s == [] then Bad(UnexpectedEof, p)
      else if s[|s| - 1].wantValue then Bad(ExpectedValue, p)
      else Good(LEnd, p + 1)
    else if Numeric(b[p]) then ScanString(b, p)
    else Bad(ExpectedValue, p)
  }

  // ----- a lexeme that is found is one of the grammar

  ghost predicate ScanFits(b: Bytes, p: nat, r: Scan)
    requires r.Good?
  {
    LaxLexeme(r.lexeme) && p < r.next <= |b| && b[p..r.next] == RenderLexeme(r.lexeme)
  }

  lemma {:induction false} IntBodyOf(negative: bool, digits: Bytes)
    requires AllDigits(digits) && 0 < |digits| <= MAX_INT_DIGITS
    ensures IntBody(if negative then [MINUS] + digits else digits)
  {}

  lemma {:induction false} IntegerFits(b: Bytes, p: nat, pos: nat)
    requires p < |b| && b[p] == LETTER_I && IntegerError(b, p + 1) == NoError
    requires pos == p + 1 + SignAt(b, p + 1) + DigitRun(b, p + 1 + SignAt(b, p + 1))
    ensures ScanFits(b, p, Good(LInt(b[p + 1..pos]), pos + 1))
  {
    IntegerBody(b, p + 1, pos);
    IntegerText(b, p, pos);
  }

  lemma {:induction false} IntegerBody(b: Bytes, from: nat, pos: nat)
    requires from <= |b| && IntegerError(b, from) == NoError
    requires pos == from + SignAt(b, from) + DigitRun(b, from + SignAt(b, from))
    ensures from < pos < |b| && b[pos] == LETTER_E && IntBody(b[from..pos])
  {
    var sign := SignAt(b, from);
    var digits := b[from + sign..pos];
    assert AllDigits(digits) && 0 < |digits| <= MAX_INT_DIGITS;
    assert b[from..pos] == if sign == 1 then [MINUS] + digits else digits;
    IntBodyOf(sign == 1, digits);
  }

  lemma {:induction false} IntegerText(b: Bytes, p: nat, pos: nat)
    requires p < pos < |b| && b[p] == LETTER_I && b[pos] == LETTER_E
    ensures b[p..pos + 1] == RenderLexeme(LInt(b[p + 1..pos]))
  {
    SliceAround(b, p, pos);
  }

  lemma {:induction false} StringFits(b: Bytes, p: nat)
    requires p < |b| && Numeric(b[p]) && ScanString(b, p).Good?
    ensures ScanFits(b, p, ScanString(b, p))
  {
    ContentFits(b, p, p + DigitRun(b, p));
  }

  lemma {:induction false} ContentFits(b: Bytes, p: nat, colon: nat)
    requires p < colon <= |b| && AllDigits(b[p..colon]) && ScanContent(b, p, colon, Decimal(b[p..colon])).Good?
    ensures ScanFits(b, p, ScanContent(b, p, colon, Decimal(b[p..colon])))
  {
    StringText(b, p, colon, Decimal(b[p..colon]));
  }

  lemma {:induction false} StringText(b: Bytes, p: nat, colon: nat, len: nat)
    requires p < colon && colon + 1 + len <= |b| && b[colon] == COLON
    ensures b[p..colon + 1 + len] == RenderLexeme(LStr(b[p..colon], b[colon + 1..colon + 1 + len]))
  {}

  // ----- and a lexeme of the grammar that is there is found

  /**
   The scan misses no lexeme of the grammar: an error means that nothing acceptable follows, or that a limit was hit.
   */
  lemma {:induction false} NextIsComplete(b: Bytes, p: nat, s: seq<Level>, used: nat, depthLimit: int, tokenLimit: int,
                                          l: Lexeme)
    requires p <= |b| <= MAX_OFFSET
    requires LaxLexeme(l) && RenderLexeme(l) <= b[p..] && Step(s, l).Some?
    requires |s| < depthLimit && used < tokenLimit
    ensures Next(b, p, s, used, depthLimit, tokenLimit) == Good(l, p + |RenderLexeme(l)|)
  {
    LexemeByFirstByte(l, b[p..]);
    match l
    case LInt(body) => IntegerIsFound(b, p, body);
    case LStr(digits, content) => StringIsFound(b, p, digits, content);
    case _ =>
  }

  lemma {:induction false} IntegerIsFound(b: Bytes, p: nat, body: Bytes)
    requires p <= |b| && IntBody(body) && RenderLexeme(LInt(body)) <= b[p..]
    ensures ScanInteger(b, p) == Good(LInt(body), p + |body| + 2)
  {
    IntegerParts(b, p, body);
  }

  lemma {:induction false} IntegerParts(b: Bytes, p: nat, body: Bytes)
    requires p <= |b| && IntBody(body) && RenderLexeme(LInt(body)) <= b[p..]
    ensures p + |body| + 2 <= |b|
    ensures b[p] == LETTER_I && b[p + 1..p + 1 + |body|] == body && b[p + 1 + |body|] == LETTER_E
    ensures var sign := SignAt(b, p + 1); DigitRun(b, p + 1 + sign) == |body| - sign
  {
    var text := [LETTER_I] + body + [LETTER_E];
    PrefixAt(b, p, text);
    assert b[p + 1..p + 1 + |body|] == text[1..1 + |body|] == body;
    var sign := SignAt(b, p + 1);
    assert sign == if body[0] == MINUS then 1 else 0;
    DigitRunIs(b, p + 1 + sign, |body| - sign);
  }

  lemma {:induction false} StringIsFound(b: Bytes, p: nat, digits: Bytes, content: Bytes)
    requires p <= |b| <= MAX_OFFSET && LengthDigits(digits, |content|) && RenderLexeme(LStr(digits, content)) <= b[p..]
    ensures ScanString(b, p) == Good(LStr(digits, content), p + |digits| + 1 + |content|)
  {
    StringParts(b, p, digits, content);
    HeaderIsScanned(b, p, |digits|, |content|);
    ContentIsFound(b, p, p + |digits|, digits, content);
  }

  lemma {:induction false} HeaderIsScanned(b: Bytes, p: nat, n: nat, len: nat)
    requires p < p + n < |b| && Numeric(b[p]) && DigitRun(b, p) == n && Decimal(b[p..p + n]) == len <= INT64_MAX
    ensures ScanString(b, p) == ScanContent(b, p, p + n, len)
  {}

  lemma {:induction false} ContentIsFound(b: Bytes, p: nat, colon: nat, digits: Bytes, content: Bytes)
    requires p < colon && colon + 1 + |content| <= |b| && b[colon] == COLON && colon - p <= MAX_LENGTH_DIGITS
    requires b[p..colon] == digits && b[colon + 1..colon + 1 + |content|] == content
    ensures ScanContent(b, p, colon, |content|) == Good(LStr(digits, content), colon + 1 + |content|)
  {}

  lemma {:induction false} StringParts(b: Bytes, p: nat, digits: Bytes, content: Bytes)
    requires p <= |b| && LengthDigits(digits, |content|) && RenderLexeme(LStr(digits, content)) <= b[p..]
    ensures p + |digits| + 1 + |content| <= |b|
    ensures b[p..p + |digits|] == digits && b[p + |digits|] == COLON
    ensures b[p + |digits| + 1..p + |digits| + 1 + |content|] == content
    ensures Numeric(b[p]) && DigitRun(b, p) == |digits|
  {
    var n, text := |digits|, digits + [COLON] + content;
    PrefixAt(b, p, text);
    assert b[p..p + n] == text[..n] == digits;
    assert b[p + n + 1..p + n + 1 + |content|] == text[n + 1..] == content;
    DigitRunIs(b, p, n);
  }

  lemma {:induction false} PrefixAt(b: Bytes, p: nat, text: Bytes)
    requires p <= |b| && text <= b[p..]
    ensures p + |text| <= |b| && b[p..p + |text|] == text
    ensures forall i :: 0 <= i < |text| ==> b[p + i] == text[i]
  {
    assert b[p..p + |text|] == b[p..][..|text|];
    assert forall i :: 0 <= i < |text| ==> b[p + i] == b[p..][i];
  }
}
