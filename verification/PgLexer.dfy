/** The skip-ahead lexer of PostgreSQL text, and the one-byte-at-a-time
    automaton it must agree with (PostgreSQL documentation, section 4.1). */
module PgLexer {
  import opened Bytes

  /** One lexical element: a byte copied as is, a literal (quoted string, quoted
      identifier, comment or dollar-quoted body) or a `$n` placeholder. */
  datatype Token = Plain(b: byte) | Literal(text: Text) | Placeholder(digits: Text)

  predicate IsIdentByte(b: byte) {
    b == UNDERSCORE || b == DOLLAR || b >= 128 || IsLetter(b) || IsDigit(b)
  }

  predicate IsTagStart(b: byte) { b == UNDERSCORE || IsLetter(b) || b >= 128 }

  predicate IsTagByte(b: byte) { IsTagStart(b) || IsDigit(b) }

  // ---------------------------------------------------------------------------
  // The skip-ahead lexer, position by position.

  predicate IdentBefore(s: Text, i: nat)
    requires i <= |s|
  {
    i > 0 && IsIdentByte(s[i - 1])
  }

  /** An `e` that is not the tail of a longer identifier stands just before `i`. */
  predicate EscapeBefore(s: Text, i: nat)
    requires i <= |s|
  {
    i > 0 && IsE(s[i - 1]) && (i < 2 || !IsIdentByte(s[i - 2]))
  }

  predicate PairAt(s: Text, j: nat, a: byte, b: byte)
  {
    j + 1 < |s| && s[j] == a && s[j + 1] == b
  }

  /** End of a quoted literal whose bytes before `j` have been read. */
  function QuotedEnd(s: Text, j: nat, q: byte, esc: bool): (e: nat)
    requires j <= |s|
    ensures j <= e <= |s|
    decreases |s| - j
  {
    if j == |s| then |s|
    else if esc && s[j] == BACKSLASH then
      if j + 2 <= |s| then QuotedEnd(s, j + 2, q, esc) else |s|
    else if s[j] == q then
      if j + 1 < |s| && s[j + 1] == q then QuotedEnd(s, j + 2, q, esc) else j + 1
    else QuotedEnd(s, j + 1, q, esc)
  }

  function LineEnd(s: Text, j: nat): (e: nat)
    requires j <= |s|
    ensures j <= e <= |s|
    decreases |s| - j
  {
    if j == |s| then |s| else if s[j] == NEWLINE then j + 1 else LineEnd(s, j + 1)
  }

  /** End of a block comment that is `depth` openers deep at `j`. */
  function BlockEnd(s: Text, j: nat, depth: nat): (e: nat)
    requires j <= |s| && depth >= 1
    ensures j <= e <= |s|
    decreases |s| - j
  {
    if j == |s| then |s|
    else if PairAt(s, j, SLASH, STAR) then BlockEnd(s, j + 2, depth + 1)
    else if PairAt(s, j, STAR, SLASH) then
      if depth == 1 then j + 2 else BlockEnd(s, j + 2, depth - 1)
    else BlockEnd(s, j + 1, depth)
  }

  /** End of the run of tag bytes at `j`. */
  function TagRun(s: Text, j: nat): (e: nat)
    requires j <= |s|
    ensures j <= e <= |s|
    ensures forall k :: j <= k < e ==> IsTagByte(s[k])
    ensures e < |s| ==> !IsTagByte(s[e])
    decreases |s| - j
  {
    if j < |s| && IsTagByte(s[j]) then TagRun(s, j + 1) else j
  }

  /** End of the tag after the `$` at `i`: a tag does not start with a digit. */
  function TagEnd(s: Text, i: nat): (e: nat)
    requires i < |s|
    ensures i + 1 <= e <= |s|
    ensures forall k :: i + 1 <= k < e ==> IsTagByte(s[k])
  {
    if i + 1 < |s| && IsTagStart(s[i + 1]) then TagRun(s, i + 2) else i + 1
  }

  /** A `$tag$` delimiter starts at `i`. */
  predicate OpensDollar(s: Text, i: nat)
    requires i < |s|
  {
    s[i] == DOLLAR && TagEnd(s, i) < |s| && s[TagEnd(s, i)] == DOLLAR
  }

  /** End of the first occurrence of `delim` at or after `k`, or the end of text. */
  function DelimEnd(s: Text, k: nat, delim: Text): (e: nat)
    requires k <= |s|
    ensures k <= e <= |s|
    decreases |s| - k
  {
    if k + |delim| > |s| then |s|
    else if s[k..k + |delim|] == delim then k + |delim|
    else if k == |s| then |s|
    else DelimEnd(s, k + 1, delim)
  }

  function DollarEnd(s: Text, i: nat): (e: nat)
    requires i < |s| && OpensDollar(s, i)
    ensures i < e <= |s|
  {
    DelimEnd(s, TagEnd(s, i) + 1, s[i..TagEnd(s, i) + 1])
  }

  /** Index just past the literal starting at `i`, or `i` when none starts there. */
  function LiteralEnd(s: Text, i: nat): (e: nat)
    requires i < |s|
    ensures i <= e <= |s|
  {
    if s[i] == SINGLE_QUOTE || s[i] == DOUBLE_QUOTE then
      QuotedEnd(s, i + 1, s[i], s[i] == SINGLE_QUOTE && EscapeBefore(s, i))
    else if PairAt(s, i, DASH, DASH) then LineEnd(s, i)
    else if PairAt(s, i, SLASH, STAR) then BlockEnd(s, i + 2, 1)
    else if s[i] == DOLLAR && !IdentBefore(s, i) && OpensDollar(s, i) then DollarEnd(s, i)
    else i
  }

  /** End of the run of digits at `j`. */
  function DigitRun(s: Text, j: nat): (e: nat)
    requires j <= |s|
    ensures j <= e <= |s|
    ensures forall k :: j <= k < e ==> IsDigit(s[k])
    ensures e < |s| ==> !IsDigit(s[e])
    decreases |s| - j
  {
    if j < |s| && IsDigit(s[j]) then DigitRun(s, j + 1) else j
  }

  /** A `$n` placeholder starts at `i`. */
  predicate PlaceholderAt(s: Text, i: nat)
    requires i < |s|
  {
    s[i] == DOLLAR && !IdentBefore(s, i) && i + 1 < |s| && IsDigit(s[i + 1])
  }

  /** The tokens of `s` from position `i` on. */
  function Lex(s: Text, i: nat): seq<Token>
    requires i <= |s|
    decreases |s| - i
  {
    if i == |s| then []
    else if LiteralEnd(s, i) > i then [Literal(s[i..LiteralEnd(s, i)])] + Lex(s, LiteralEnd(s, i))
    else if PlaceholderAt(s, i) then
      var j := DigitRun(s, i + 1);
      [Placeholder(s[i + 1..j])] + Lex(s, j)
    else [Plain(s[i])] + Lex(s, i + 1)
  }

  // ---------------------------------------------------------------------------
  // The index loops of the source.

  method SkipQuoted(s: Text, i: nat, esc: bool) returns (end: nat)
    requires i < |s|
    ensures end == QuotedEnd(s, i + 1, s[i], esc)
  {
    var c := s[i];
    var j := i + 1;
    while j < |s|
      invariant i < j
      invariant QuotedEnd(s, i + 1, c, esc) == if j <= |s| then QuotedEnd(s, j, c, esc) else |s|
    {
      if esc && s[j] == BACKSLASH {
        j := j + 2;
        continue;
      }
      if s[j] == c {
        if j + 1 < |s| && s[j + 1] == c {
          j := j + 2;
          continue;
        }
        return j + 1;
      }
      j := j + 1;
    }
    return |s|;
  }

  method SkipBlock(s: Text, i: nat) returns (end: nat)
    requires PairAt(s, i, SLASH, STAR)
    ensures end == BlockEnd(s, i + 2, 1)
  {
    var depth, j := 0, i;
    while j < |s|
      invariant i <= j <= |s| && depth >= 0
      invariant if j == i then depth == 0 else depth >= 1 && BlockEnd(s, i + 2, 1) == BlockEnd(s, j, depth)
    {
      if PairAt(s, j, SLASH, STAR) {
        depth, j := depth + 1, j + 2;
      } else if PairAt(s, j, STAR, SLASH) {
        depth, j := depth - 1, j + 2;
        if depth == 0 {
          return j;
        }
      } else {
        j := j + 1;
      }
    }
    return |s|;
  }

  method SkipDollar(s: Text, i: nat) returns (end: nat)
    requires i < |s| && s[i] == DOLLAR
    ensures end == if OpensDollar(s, i) then DollarEnd(s, i) else i
  {
    var j := i + 1;
    while j < |s| && (IsTagStart(s[j]) || (j > i + 1 && IsDigit(s[j])))
      invariant i + 1 <= j <= |s|
      invariant j > i + 1 ==> IsTagStart(s[i + 1]) && TagEnd(s, i) == TagRun(s, j)
    {
      j := j + 1;
    }
    assert j == TagEnd(s, i);
    if j >= |s| || s[j] != DOLLAR {
      return i;
    }
    return DelimEnd(s, j + 1, s[i..j + 1]);
  }

  method SkipLiteral(s: Text, i: nat) returns (end: nat)
    requires i < |s|
    ensures end == LiteralEnd(s, i)
  {
    if s[i] == SINGLE_QUOTE || s[i] == DOUBLE_QUOTE {
      end := SkipQuoted(s, i, s[i] == SINGLE_QUOTE && EscapeBefore(s, i));
    } else if PairAt(s, i, DASH, DASH) {
      end := LineEnd(s, i);
    } else if PairAt(s, i, SLASH, STAR) {
      end := SkipBlock(s, i);
    } else if s[i] == DOLLAR {
      if IdentBefore(s, i) {
        return i;
      }
      end := SkipDollar(s, i);
    } else {
      end := i;
    }
  }

  // ---------------------------------------------------------------------------
  // The reference: an automaton that reads one byte at a time, never looks
  // ahead or back, and remembers two facts about the bytes it has read.

  /** `ident`: the last byte is an identifier byte. `escape`: it is an `e` that
      does not continue an identifier. */
  datatype Context = Context(ident: bool, escape: bool)

  /** What a block comment's last byte could still become half of. */
  datatype Half = NoHalf | HalfOpen | HalfClose

  /** What the automaton is inside of. `acc` is the literal read so far. */
  datatype Mode =
    | Normal
    | OneDash
    | OneSlash
    | OneDollar
    | Tag(tag: Text)
    | Number(digits: Text)
    | Quoted(q: byte, esc: bool, acc: Text)
    | Escaped(q: byte, acc: Text)
    | QuoteSeen(q: byte, esc: bool, acc: Text)
    | Line(acc: Text)
    | Block(depth: nat, half: Half, acc: Text)
    | Body(delim: Text, acc: Text)

  function Next(c: Context, b: byte): Context {
    Context(IsIdentByte(b), IsE(b) && !c.ident)
  }

  function Plains(t: Text): seq<Token> {
    if t == [] then [] else [Plain(t[0])] + Plains(t[1..])
  }

  /** Reading `b` outside every literal. */
  function Start(c: Context, b: byte): (seq<Token>, Mode) {
    if b == SINGLE_QUOTE || b == DOUBLE_QUOTE then ([], Quoted(b, b == SINGLE_QUOTE && c.escape, [b]))
    else if b == DASH then ([], OneDash)
    else if b == SLASH then ([], OneSlash)
    else if b == DOLLAR && !c.ident then ([], OneDollar)
    else ([Plain(b)], Normal)
  }

  /** `held` turned out to be complete before `b` was read. */
  function Restart(held: seq<Token>, c: Context, b: byte): (seq<Token>, Mode) {
    var r := Start(c, b);
    (held + r.0, r.1)
  }

  predicate EndsWith(t: Text, d: Text) { |d| <= |t| && t[|t| - |d|..] == d }

  function StepBlock(depth: nat, half: Half, acc: Text, b: byte): (seq<Token>, Mode) {
    if half == HalfOpen && b == STAR then ([], Block(depth + 1, NoHalf, acc))
    else if half == HalfClose && b == SLASH then
      if depth <= 1 then ([Literal(acc)], Normal) else ([], Block(depth - 1, NoHalf, acc))
    else ([], Block(depth, if b == SLASH then HalfOpen else if b == STAR then HalfClose else NoHalf, acc))
  }

  function Step(m: Mode, c: Context, b: byte): (seq<Token>, Mode) {
    match m
    case Normal => Start(c, b)
    case OneDash => if b == DASH then ([], Line([DASH, DASH])) else Restart([Plain(DASH)], c, b)
    case OneSlash => if b == STAR then ([], Block(1, NoHalf, [SLASH, STAR])) else Restart([Plain(SLASH)], c, b)
    case OneDollar =>
      if b == DOLLAR then ([], Body([DOLLAR, DOLLAR], [DOLLAR, DOLLAR]))
      else if IsDigit(b) then ([], Number([b]))
      else if IsTagStart(b) then ([], Tag([b]))
      else Restart([Plain(DOLLAR)], c, b)
    case Tag(t) =>
      if b == DOLLAR then ([], Body([DOLLAR] + t + [DOLLAR], [DOLLAR] + t + [DOLLAR]))
      else if IsTagByte(b) then ([], Tag(t + [b]))
      else Restart(Plains([DOLLAR] + t), c, b)
    case Number(ds) => if IsDigit(b) then ([], Number(ds + [b])) else Restart([Placeholder(ds)], c, b)
    case Quoted(q, esc, acc) =>
      if esc && b == BACKSLASH then ([], Escaped(q, acc + [b]))
      else if b == q then ([], QuoteSeen(q, esc, acc + [b]))
      else ([], Quoted(q, esc, acc + [b]))
    case Escaped(q, acc) => ([], Quoted(q, true, acc + [b]))
    case QuoteSeen(q, esc, acc) =>
      if b == q then ([], Quoted(q, esc, acc + [b])) else Restart([Literal(acc)], c, b)
    case Line(acc) => if b == NEWLINE then ([Literal(acc + [b])], Normal) else ([], Line(acc + [b]))
    case Block(depth, half, acc) => StepBlock(depth, half, acc + [b], b)
    case Body(d, acc) =>
      if 2 * |d| <= |acc| + 1 && EndsWith(acc + [b], d) then ([Literal(acc + [b])], Normal)
      else ([], Body(d, acc + [b]))
  }

  /** What is complete when the text ends in mode `m`. */
  function Flush(m: Mode): seq<Token> {
    match m
    case Normal => []
    case OneDash => [Plain(DASH)]
    case OneSlash => [Plain(SLASH)]
    case OneDollar => [Plain(DOLLAR)]
    case Tag(t) => Plains([DOLLAR] + t)
    case Number(ds) => [Placeholder(ds)]
    case Quoted(_, _, acc) => [Literal(acc)]
    case Escaped(_, acc) => [Literal(acc)]
    case QuoteSeen(_, _, acc) => [Literal(acc)]
    case Line(acc) => [Literal(acc)]
    case Block(_, _, acc) => [Literal(acc)]
    case Body(_, acc) => [Literal(acc)]
  }

  /** The automaton's output on the bytes from `i` on. */
  function Scan(s: Text, i: nat, c: Context, m: Mode): seq<Token>
    requires i <= |s|
    decreases |s| - i
  {
    if i == |s| then Flush(m)
    else var r := Step(m, c, s[i]); r.0 + Scan(s, i + 1, Next(c, s[i]), r.1)
  }

  function Automaton(s: Text): seq<Token> { Scan(s, 0, Context(false, false), Normal) }

  // ---------------------------------------------------------------------------
  // The skip-ahead lexer refines the automaton.

  function ContextAt(s: Text, i: nat): Context
    requires i <= |s|
  {
    Context(IdentBefore(s, i), EscapeBefore(s, i))
  }

  /** The automaton resumed at `i` with the context the text implies. */
  ghost function Resume(s: Text, i: nat, m: Mode): seq<Token>
    requires i <= |s|
  {
    Scan(s, i, ContextAt(s, i), m)
  }

  lemma ResumeStep(s: Text, i: nat, m: Mode)
    requires i < |s|
    ensures Resume(s, i, m) == Step(m, ContextAt(s, i), s[i]).0 + Resume(s, i + 1, Step(m, ContextAt(s, i), s[i]).1)
  {
    hide Step;
    assert Next(ContextAt(s, i), s[i]) == ContextAt(s, i + 1);
  }

  lemma ResumeEnd(s: Text, m: Mode)
    ensures Resume(s, |s|, m) == Flush(m)
  {
  }

  lemma OneMore(s: Text, i: nat, j: nat)
    requires i <= j < |s|
    ensures s[i..j] + [s[j]] == s[i..j + 1]
  {
  }

  lemma OneBefore(s: Text, i: nat, j: nat)
    requires i < j <= |s|
    ensures [s[i]] + s[i + 1..j] == s[i..j]
  {
  }

  lemma {:induction false} QuotedRefines(s: Text, i: nat, j: nat, q: byte, esc: bool)
    requires i <= j <= |s|
    ensures var e := QuotedEnd(s, j, q, esc);
            Resume(s, j, Quoted(q, esc, s[i..j])) == [Literal(s[i..e])] + Resume(s, e, Normal)
    decreases |s| - j
  {
    hide Scan, Start, Resume, ContextAt, Restart, StepBlock, EndsWith;
    if j == |s| {
      ResumeEnd(s, Quoted(q, esc, s[i..j]));
      ResumeEnd(s, Normal);
    } else {
      ResumeStep(s, j, Quoted(q, esc, s[i..j]));
      OneMore(s, i, j);
      if esc && s[j] == BACKSLASH {
        EscapedRefines(s, i, j + 1, q);
      } else if s[j] == q {
        QuoteSeenRefines(s, i, j + 1, q, esc);
      } else {
        QuotedRefines(s, i, j + 1, q, esc);
      }
    }
  }

  /** After a backslash the next byte belongs to the string, whatever it is. */
  lemma {:induction false} EscapedRefines(s: Text, i: nat, j: nat, q: byte)
    requires i <= j <= |s|
    ensures var e := if j < |s| then QuotedEnd(s, j + 1, q, true) else |s|;
            Resume(s, j, Escaped(q, s[i..j])) == [Literal(s[i..e])] + Resume(s, e, Normal)
    decreases |s| - j
  {
    hide Scan, Start, Resume, ContextAt, Restart, StepBlock, EndsWith, QuotedEnd;
    if j == |s| {
      ResumeEnd(s, Escaped(q, s[i..j]));
      ResumeEnd(s, Normal);
    } else {
      ResumeStep(s, j, Escaped(q, s[i..j]));
      OneMore(s, i, j);
      QuotedRefines(s, i, j + 1, q, true);
    }
  }

  /** After a quote the literal is over, unless the quote is doubled. */
  lemma {:induction false} QuoteSeenRefines(s: Text, i: nat, j: nat, q: byte, esc: bool)
    requires i <= j <= |s|
    ensures var e := if j < |s| && s[j] == q then QuotedEnd(s, j + 1, q, esc) else j;
            Resume(s, j, QuoteSeen(q, esc, s[i..j])) == [Literal(s[i..e])] + Resume(s, e, Normal)
    decreases |s| - j
  {
    hide Scan, Start, Resume, ContextAt, Restart, StepBlock, EndsWith, QuotedEnd;
    if j == |s| {
      ResumeEnd(s, QuoteSeen(q, esc, s[i..j]));
      ResumeEnd(s, Normal);
    } else {
      ResumeStep(s, j, QuoteSeen(q, esc, s[i..j]));
      if s[j] == q {
        OneMore(s, i, j);
        QuotedRefines(s, i, j + 1, q, esc);
      } else {
        RestartRefines(s, j, QuoteSeen(q, esc, s[i..j]), [Literal(s[i..j])]);
      }
    }
  }

  lemma {:induction false} LineRefines(s: Text, i: nat, j: nat)
    requires i <= j <= |s|
    ensures var e := LineEnd(s, j);
            Resume(s, j, Line(s[i..j])) == [Literal(s[i..e])] + Resume(s, e, Normal)
    decreases |s| - j
  {
    hide Scan, Start, Resume, ContextAt, Restart, StepBlock, EndsWith;
    if j == |s| {
      ResumeEnd(s, Line(s[i..j]));
      ResumeEnd(s, Normal);
    } else {
      ResumeStep(s, j, Line(s[i..j]));
      OneMore(s, i, j);
      if s[j] != NEWLINE {
        LineRefines(s, i, j + 1);
      }
    }
  }

  lemma {:induction false} BlockRefines(s: Text, i: nat, j: nat, depth: nat)
    requires i <= j <= |s| && depth >= 1
    ensures var e := BlockEnd(s, j, depth);
            Resume(s, j, Block(depth, NoHalf, s[i..j])) == [Literal(s[i..e])] + Resume(s, e, Normal)
    decreases |s| - j, 1
  {
    hide Scan, Start, Resume, ContextAt, Restart, EndsWith;
    if j == |s| {
      ResumeEnd(s, Block(depth, NoHalf, s[i..j]));
      ResumeEnd(s, Normal);
    } else {
      ResumeStep(s, j, Block(depth, NoHalf, s[i..j]));
      OneMore(s, i, j);
      if s[j] == SLASH || s[j] == STAR {
        BlockHalfRefines(s, i, j, depth);
      } else {
        BlockRefines(s, i, j + 1, depth);
      }
    }
  }

  /** The byte at `j` opens or closes a level if its partner follows. */
  lemma {:induction false} BlockHalfRefines(s: Text, i: nat, j: nat, depth: nat)
    requires i <= j < |s| && depth >= 1
    requires s[j] == SLASH || s[j] == STAR
    ensures var e := BlockEnd(s, j, depth);
            Resume(s, j + 1, Block(depth, if s[j] == SLASH then HalfOpen else HalfClose, s[i..j + 1]))
            == [Literal(s[i..e])] + Resume(s, e, Normal)
    decreases |s| - j, 0
  {
    hide Scan, Start, Resume, ContextAt, Restart, EndsWith;
    var half := if s[j] == SLASH then HalfOpen else HalfClose;
    if j + 1 == |s| {
      ResumeEnd(s, Block(depth, half, s[i..j + 1]));
      ResumeEnd(s, Normal);
    } else {
      ResumeStep(s, j + 1, Block(depth, half, s[i..j + 1]));
      OneMore(s, i, j + 1);
      if PairAt(s, j, SLASH, STAR) {
        BlockRefines(s, i, j + 2, depth + 1);
      } else if PairAt(s, j, STAR, SLASH) {
        if depth > 1 {
          BlockRefines(s, i, j + 2, depth - 1);
        }
      } else if s[j + 1] == SLASH || s[j + 1] == STAR {
        BlockHalfRefines(s, i, j + 1, depth);
      } else {
        BlockRefines(s, i, j + 2, depth);
      }
    }
  }

  /** End of the first delimiter that can still close a body opened at `i`, given
      that none ended in `..j`. */
  ghost function BodyEnd(s: Text, i: nat, j: nat, d: Text): (e: nat)
    requires |d| >= 1 && i + |d| <= j <= |s|
    ensures e <= |s|
  {
    var k := if j + 1 - |d| >= i + |d| then j + 1 - |d| else i + |d|;
    DelimEnd(s, k, d)
  }

  lemma BodyEndStep(s: Text, i: nat, j: nat, d: Text)
    requires |d| >= 1 && i + |d| <= j < |s|
    ensures 2 * |d| <= |s[i..j]| + 1 && EndsWith(s[i..j] + [s[j]], d) ==> BodyEnd(s, i, j, d) == j + 1
    ensures !(2 * |d| <= |s[i..j]| + 1 && EndsWith(s[i..j] + [s[j]], d)) ==>
              BodyEnd(s, i, j, d) == BodyEnd(s, i, j + 1, d)
  {
    var t := s[i..j] + [s[j]];
    assert t == s[i..j + 1];
    if 2 * |d| <= j - i + 1 {
      assert t[|t| - |d|..] == s[j + 1 - |d|..j + 1];
    }
  }

  lemma {:induction false} BodyRefines(s: Text, i: nat, j: nat, d: Text)
    requires |d| >= 1 && i + |d| <= j <= |s|
    ensures var e := BodyEnd(s, i, j, d);
            Resume(s, j, Body(d, s[i..j])) == [Literal(s[i..e])] + Resume(s, e, Normal)
    decreases |s| - j
  {
    hide Scan, Start, Resume, ContextAt, Restart, StepBlock;
    if j == |s| {
      ResumeEnd(s, Body(d, s[i..j]));
      ResumeEnd(s, Normal);
    } else {
      ResumeStep(s, j, Body(d, s[i..j]));
      OneMore(s, i, j);
      BodyEndStep(s, i, j, d);
      if !(2 * |d| <= |s[i..j]| + 1 && EndsWith(s[i..j] + [s[j]], d)) {
        BodyRefines(s, i, j + 1, d);
      }
    }
  }

  lemma {:induction false} TagRefines(s: Text, i: nat, j: nat)
    requires i + 1 < j <= |s| && s[i] == DOLLAR
    ensures var e := TagRun(s, j);
            Resume(s, j, Tag(s[i + 1..j])) ==
            if e < |s| && s[e] == DOLLAR then Resume(s, e + 1, Body(s[i..e + 1], s[i..e + 1]))
            else Plains(s[i..e]) + Resume(s, e, Normal)
    decreases |s| - j
  {
    hide Scan, Start, Plains, Resume, ContextAt, Restart, StepBlock, EndsWith;
    OneBefore(s, i, j);
    if j == |s| {
      ResumeEnd(s, Tag(s[i + 1..j]));
      ResumeEnd(s, Normal);
    } else {
      ResumeStep(s, j, Tag(s[i + 1..j]));
      if s[j] == DOLLAR {
        OneMore(s, i, j);
      } else if IsTagByte(s[j]) {
        OneMore(s, i + 1, j);
        TagRefines(s, i, j + 1);
      } else {
        RestartRefines(s, j, Tag(s[i + 1..j]), Plains(s[i..j]));
      }
    }
  }

  /** When `b` completes what is held, reading goes on as outside every literal. */
  lemma RestartRefines(s: Text, j: nat, m: Mode, held: seq<Token>)
    requires j < |s| && Step(m, ContextAt(s, j), s[j]) == Restart(held, ContextAt(s, j), s[j])
    ensures Resume(s, j, m) == held + Resume(s, j, Normal)
  {
    hide Scan;
    ResumeStep(s, j, m);
    ResumeStep(s, j, Normal);
    var r := Start(ContextAt(s, j), s[j]);
    assert held + r.0 + Resume(s, j + 1, r.1) == held + (r.0 + Resume(s, j + 1, r.1));
  }

  lemma {:induction false} NumberRefines(s: Text, i: nat, j: nat)
    requires i <= j <= |s|
    ensures var e := DigitRun(s, j);
            Resume(s, j, Number(s[i..j])) == [Placeholder(s[i..e])] + Resume(s, e, Normal)
    decreases |s| - j
  {
    hide Scan, Start, Resume, ContextAt, Restart, StepBlock, EndsWith;
    if j == |s| {
      ResumeEnd(s, Number(s[i..j]));
      ResumeEnd(s, Normal);
    } else {
      ResumeStep(s, j, Number(s[i..j]));
      if IsDigit(s[j]) {
        OneMore(s, i, j);
        NumberRefines(s, i, j + 1);
      } else {
        RestartRefines(s, j, Number(s[i..j]), [Placeholder(s[i..j])]);
      }
    }
  }

  lemma PlainsCons(s: Text, i: nat, e: nat, rest: seq<Token>)
    requires i < e <= |s|
    ensures Plains(s[i..e]) + rest == [Plain(s[i])] + (Plains(s[i + 1..e]) + rest)
  {
    assert s[i..e][1..] == s[i + 1..e];
  }

  /** Bytes that start nothing are copied one by one. */
  lemma {:induction false} PlainRun(s: Text, i: nat, e: nat)
    requires i <= e <= |s|
    requires forall k :: i <= k < e ==> IsTagByte(s[k])
    ensures Lex(s, i) == Plains(s[i..e]) + Lex(s, e)
    decreases e - i
  {
    hide QuotedEnd, LineEnd, BlockEnd, DollarEnd;
    if i < e {
      PlainRun(s, i + 1, e);
      PlainsCons(s, i, e, Lex(s, e));
    } else {
      assert s[i..e] == [];
    }
  }

  /** A `$` that is neither an opener nor a placeholder, and the tag bytes after it. */
  lemma LoneDollar(s: Text, i: nat)
    requires i < |s| && s[i] == DOLLAR
    requires LiteralEnd(s, i) == i && !PlaceholderAt(s, i)
    ensures Lex(s, i) == Plains(s[i..TagEnd(s, i)]) + Lex(s, TagEnd(s, i))
  {
    hide LiteralEnd, TagEnd, Plains;
    var e := TagEnd(s, i);
    PlainRun(s, i + 1, e);
    PlainsCons(s, i, e, Lex(s, e));
  }

  /** What the automaton makes of a `$` that starts an identifier or stands alone:
      a body, a number, or plain bytes. */
  lemma {:induction false} DollarRefines(s: Text, i: nat)
    requires i < |s| && s[i] == DOLLAR && !IdentBefore(s, i)
    ensures var e := TagEnd(s, i);
            Resume(s, i, Normal) ==
            if PlaceholderAt(s, i) then
              [Placeholder(s[i + 1..DigitRun(s, i + 1)])] + Resume(s, DigitRun(s, i + 1), Normal)
            else if OpensDollar(s, i) then Resume(s, e + 1, Body(s[i..e + 1], s[i..e + 1]))
            else Plains(s[i..e]) + Resume(s, e, Normal)
  {
    hide Scan, TagRun, DigitRun, Plains;
    ResumeStep(s, i, Normal);
    assert Plains([DOLLAR]) == [Plain(DOLLAR)] by { PlainsOne(DOLLAR); }
    if i + 1 == |s| {
      ResumeEnd(s, OneDollar);
      ResumeEnd(s, Normal);
      assert s[i..i + 1] == [DOLLAR];
    } else {
      ResumeStep(s, i + 1, OneDollar);
      if IsDigit(s[i + 1]) {
        assert [s[i + 1]] == s[i + 1..i + 2];
        NumberRefines(s, i + 1, i + 2);
        DigitRunStep(s, i + 1);
      } else if IsTagStart(s[i + 1]) {
        assert [s[i + 1]] == s[i + 1..i + 2];
        TagRefines(s, i, i + 2);
      } else if s[i + 1] == DOLLAR {
        assert s[i..i + 2] == [DOLLAR, DOLLAR];
      } else {
        RestartRefines(s, i + 1, OneDollar, [Plain(DOLLAR)]);
        assert s[i..i + 1] == [DOLLAR];
      }
    }
  }

  lemma PlainsOne(b: byte)
    ensures Plains([b]) == [Plain(b)]
  {
    assert [b][1..] == [];
  }

  lemma DigitRunStep(s: Text, j: nat)
    requires j < |s| && IsDigit(s[j])
    ensures DigitRun(s, j) == DigitRun(s, j + 1)
  {
  }

  lemma {:induction false} NormalRefines(s: Text, i: nat)
    requires i <= |s|
    ensures Resume(s, i, Normal) == Lex(s, i)
    decreases |s| - i, 1
  {
    hide Scan, LiteralEnd, DigitRun, Lex;
    if i == |s| {
      ResumeEnd(s, Normal);
      LexEnd(s);
    } else if s[i] == SINGLE_QUOTE || s[i] == DOUBLE_QUOTE {
      QuoteStart(s, i);
      NormalRefines(s, LiteralEnd(s, i));
      LexStep(s, i);
    } else if s[i] == DASH || s[i] == SLASH {
      PairRefines(s, i);
      NormalRefines(s, if LiteralEnd(s, i) > i then LiteralEnd(s, i) else i + 1);
      LexStep(s, i);
    } else if s[i] == DOLLAR && !IdentBefore(s, i) {
      DollarStart(s, i);
    } else {
      ResumeStep(s, i, Normal);
      NormalRefines(s, i + 1);
      OtherByte(s, i);
      LexStep(s, i);
    }
  }

  lemma LexEnd(s: Text)
    ensures Lex(s, |s|) == []
  {
  }

  lemma LexStep(s: Text, i: nat)
    requires i < |s|
    ensures LiteralEnd(s, i) > i ==> Lex(s, i) == [Literal(s[i..LiteralEnd(s, i)])] + Lex(s, LiteralEnd(s, i))
    ensures LiteralEnd(s, i) == i && PlaceholderAt(s, i) ==>
              Lex(s, i) == [Placeholder(s[i + 1..DigitRun(s, i + 1)])] + Lex(s, DigitRun(s, i + 1))
    ensures LiteralEnd(s, i) == i && !PlaceholderAt(s, i) ==> Lex(s, i) == [Plain(s[i])] + Lex(s, i + 1)
  {
    hide LiteralEnd, DigitRun;
  }

  lemma OtherByte(s: Text, i: nat)
    requires i < |s| && s[i] != SINGLE_QUOTE && s[i] != DOUBLE_QUOTE && s[i] != DASH && s[i] != SLASH
    requires s[i] == DOLLAR ==> IdentBefore(s, i)
    ensures LiteralEnd(s, i) == i && !PlaceholderAt(s, i)
  {
  }

  lemma {:induction false} QuoteStart(s: Text, i: nat)
    requires i < |s| && (s[i] == SINGLE_QUOTE || s[i] == DOUBLE_QUOTE)
    ensures i < LiteralEnd(s, i)
    ensures Resume(s, i, Normal) == [Literal(s[i..LiteralEnd(s, i)])] + Resume(s, LiteralEnd(s, i), Normal)
  {
    hide Scan, QuotedEnd;
    ResumeStep(s, i, Normal);
    assert [s[i]] == s[i..i + 1];
    QuotedRefines(s, i, i + 1, s[i], s[i] == SINGLE_QUOTE && EscapeBefore(s, i));
  }

  lemma {:induction false} DollarStart(s: Text, i: nat)
    requires i < |s| && s[i] == DOLLAR && !IdentBefore(s, i)
    ensures Resume(s, i, Normal) == Lex(s, i)
    decreases |s| - i, 0
  {
    hide Scan, DigitRun, Lex, TagEnd, DelimEnd, Plains;
    DollarRefines(s, i);
    LexStep(s, i);
    if PlaceholderAt(s, i) {
      NoTagDigit(s, i);
      NormalRefines(s, DigitRun(s, i + 1));
    } else if OpensDollar(s, i) {
      var e := TagEnd(s, i);
      BodyRefines(s, i, e + 1, s[i..e + 1]);
      NormalRefines(s, DollarEnd(s, i));
    } else {
      LoneDollar(s, i);
      NormalRefines(s, TagEnd(s, i));
    }
  }

  lemma NoTagDigit(s: Text, i: nat)
    requires i + 1 < |s| && IsDigit(s[i + 1])
    ensures !OpensDollar(s, i)
  {
  }

  /** A dash or slash opens a comment or stands alone. */
  lemma {:induction false} PairRefines(s: Text, i: nat)
    requires i < |s| && (s[i] == DASH || s[i] == SLASH)
    ensures var e := LiteralEnd(s, i);
            Resume(s, i, Normal) ==
            if e > i then [Literal(s[i..e])] + Resume(s, e, Normal) else [Plain(s[i])] + Resume(s, i + 1, Normal)
  {
    hide Scan;
    ResumeStep(s, i, Normal);
    var m := if s[i] == DASH then OneDash else OneSlash;
    if i + 1 == |s| {
      ResumeEnd(s, m);
      ResumeEnd(s, Normal);
    } else {
      ResumeStep(s, i + 1, m);
      if PairAt(s, i, DASH, DASH) {
        assert s[i..i + 2] == [DASH, DASH];
        LineRefines(s, i, i + 2);
        assert LineEnd(s, i) == LineEnd(s, i + 1) == LineEnd(s, i + 2);
      } else if PairAt(s, i, SLASH, STAR) {
        assert s[i..i + 2] == [SLASH, STAR];
        BlockRefines(s, i, i + 2, 1);
      } else {
        RestartRefines(s, i + 1, m, [Plain(s[i])]);
      }
    }
  }

  /** For every text the skip-ahead lexer and the automaton produce the same
      literals, placeholders and plain bytes. */
  lemma LexerRefinesAutomaton(s: Text)
    ensures Lex(s, 0) == Automaton(s)
  {
    NormalRefines(s, 0);
    assert ContextAt(s, 0) == Context(false, false);
  }
}
