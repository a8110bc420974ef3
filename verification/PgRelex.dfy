/** Lexing the converted text again. Writing `?` for `$n` removes the digits that
    stood before the next byte, and the lexer looks one and two bytes back. */
module PgRelex {
  import opened Bytes
  import opened PgLexer
  import opened PgPlaceholders

  function Mark(t: Token): Token { if t.Placeholder? then Plain(QUESTION) else t }

  /** The tokens with every placeholder turned into a plain question mark. */
  function Marked(ts: seq<Token>): seq<Token> {
    if ts == [] then [] else [Mark(ts[0])] + Marked(ts[1..])
  }

  /** What a placeholder ending at `j` kept apart: a `$` that would now open a
      dollar quote or be a placeholder, or an `e` that would now turn the string
      after it into one with backslash escapes and another end. */
  predicate Hazard(s: Text, j: nat)
    requires j <= |s|
  {
    j + 1 < |s| && (
      || (s[j] == DOLLAR && (OpensDollar(s, j) || IsDigit(s[j + 1])))
      || (IsE(s[j]) && s[j + 1] == SINGLE_QUOTE
          && QuotedEnd(s, j + 2, SINGLE_QUOTE, true) != QuotedEnd(s, j + 2, SINGLE_QUOTE, false)))
  }

  /** No placeholder from `i` on is followed by a hazard. */
  predicate HazardFree(s: Text, i: nat)
    requires i <= |s|
    decreases |s| - i
  {
    i < |s| ==>
      var (t, j) := TokenAt(s, i);
      (t.Placeholder? ==> !Hazard(s, j)) && HazardFree(s, j)
  }

  // ---------------------------------------------------------------------------
  // The converted text `c` copies a stretch of `s`, `d` bytes further on.

  /** `c` copies `s[i..j]`, ends when it ends, and otherwise goes on with the same
      byte or with the `?` of a placeholder. */
  ghost predicate Agree(s: Text, i: nat, j: nat, c: Text, d: int) {
    && i <= j <= |s| && 0 <= i + d && j + d <= |c|
    && (forall x :: i <= x < j ==> s[x] == c[x + d])
    && (j == |s| <==> j + d == |c|)
    && (j < |s| ==> c[j + d] == s[j] || (c[j + d] == QUESTION && s[j] == DOLLAR))
  }

  /** Whichever way backslashes are read, the copy of a string ends where the
      original does or neither ends there. */
  lemma {:induction false} QuotedAgrees(s: Text, j: nat, e: nat, c: Text, d: int, q: byte, esc: bool)
    requires Agree(s, j, e, c, d) && (e < |s| ==> s[e] != q) && q != QUESTION
    ensures QuotedEnd(s, j, q, esc) == e <==> QuotedEnd(c, j + d, q, esc) == e + d
    decreases e - j
  {
    if j == e {
    } else {
      if (esc && s[j] == BACKSLASH) || (s[j] == q && j + 1 < e && s[j + 1] == q) {
        if j + 2 <= e {
          QuotedAgrees(s, j + 2, e, c, d, q, esc);
        }
      } else {
        QuotedAgrees(s, j + 1, e, c, d, q, esc);
      }
    }
  }

  lemma {:induction false} LineAgrees(s: Text, j: nat, c: Text, d: int)
    requires j <= |s| && Agree(s, j, LineEnd(s, j), c, d)
    ensures LineEnd(c, j + d) == LineEnd(s, j) + d
    decreases |s| - j
  {
    if j < |s| && s[j] != NEWLINE {
      LineAgrees(s, j + 1, c, d);
    }
  }

  lemma {:induction false} BlockAgrees(s: Text, j: nat, c: Text, d: int, depth: nat)
    requires j <= |s| && depth >= 1 && Agree(s, j, BlockEnd(s, j, depth), c, d)
    ensures BlockEnd(c, j + d, depth) == BlockEnd(s, j, depth) + d
    decreases |s| - j
  {
    if j == |s| {
    } else {
      if PairAt(s, j, SLASH, STAR) {
        BlockAgrees(s, j + 2, c, d, depth + 1);
      } else if PairAt(s, j, STAR, SLASH) {
        if depth > 1 {
          BlockAgrees(s, j + 2, c, d, depth - 1);
        }
      } else {
        BlockAgrees(s, j + 1, c, d, depth);
      }
    }
  }

  lemma {:induction false} TagRunAgrees(s: Text, j: nat, e: nat, c: Text, d: int)
    requires Agree(s, j, e, c, d) && TagRun(s, j) <= e
    ensures TagRun(c, j + d) == TagRun(s, j) + d
    decreases e - j
  {
    if j < e && IsTagByte(s[j]) {
      TagRunAgrees(s, j + 1, e, c, d);
    }
  }

  lemma TagAgrees(s: Text, i: nat, e: nat, c: Text, d: int)
    requires i < e && Agree(s, i, e, c, d) && TagEnd(s, i) <= e
    ensures TagEnd(c, i + d) == TagEnd(s, i) + d
  {
    if i + 1 < |s| && IsTagStart(s[i + 1]) {
      TagRunAgrees(s, i + 2, e, c, d);
    }
  }

  lemma {:induction false} DelimAgrees(s: Text, j: nat, c: Text, d: int, delim: Text)
    requires j <= |s| && |delim| >= 1 && Agree(s, j, DelimEnd(s, j, delim), c, d)
    ensures DelimEnd(c, j + d, delim) == DelimEnd(s, j, delim) + d
    decreases |s| - j
  {
    if j + |delim| <= |s| {
      DelimLonger(s, j, delim);
      assert s[j..j + |delim|] == c[j + d..j + d + |delim|];
      if s[j..j + |delim|] != delim {
        DelimAgrees(s, j + 1, c, d, delim);
      }
    }
  }

  lemma {:induction false} DelimLonger(s: Text, j: nat, d: Text)
    requires j + |d| <= |s|
    ensures DelimEnd(s, j, d) >= j + |d|
    decreases |s| - j
  {
    if s[j..j + |d|] != d && j + 1 + |d| <= |s| {
      DelimLonger(s, j + 1, d);
    }
  }

  lemma {:induction false} QuotedStops(s: Text, j: nat, q: byte, esc: bool)
    requires j <= |s|
    ensures var e := QuotedEnd(s, j, q, esc); e < |s| ==> s[e] != q
    decreases |s| - j
  {
    if j == |s| {
    } else {
      if esc && s[j] == BACKSLASH {
        if j + 2 <= |s| {
          QuotedStops(s, j + 2, q, esc);
        }
      } else if s[j] == q {
        if j + 1 < |s| && s[j + 1] == q {
          QuotedStops(s, j + 2, q, esc);
        }
      } else {
        QuotedStops(s, j + 1, q, esc);
      }
    }
  }

  /** The bytes before `i` and `i + d` do not make the lexer treat `s[i]` differently. */
  ghost predicate SameStart(s: Text, i: nat, c: Text, d: int) {
    && i < |s| && 0 <= i + d <= |c|
    && (s[i] == DOLLAR ==> IdentBefore(s, i) == IdentBefore(c, i + d))
    && (s[i] == SINGLE_QUOTE ==> EscapeBefore(s, i) == EscapeBefore(c, i + d))
  }

  lemma DollarLiteralAgrees(s: Text, i: nat, c: Text, d: int)
    requires i < |s| && OpensDollar(s, i) && Agree(s, i, DollarEnd(s, i), c, d)
    ensures OpensDollar(c, i + d) && DollarEnd(c, i + d) == DollarEnd(s, i) + d
  {
    hide TagEnd, DelimEnd;
    var m := TagEnd(s, i);
    TagAgrees(s, i, DollarEnd(s, i), c, d);
    assert s[i..m + 1] == c[i + d..m + 1 + d];
    DelimAgrees(s, m + 1, c, d, s[i..m + 1]);
  }

  lemma LiteralAgrees(s: Text, i: nat, c: Text, d: int)
    requires SameStart(s, i, c, d)
    requires LiteralEnd(s, i) > i && Agree(s, i, LiteralEnd(s, i), c, d)
    ensures LiteralEnd(c, i + d) == LiteralEnd(s, i) + d
  {
    var e := LiteralEnd(s, i);
    var b := s[i];
    if b == SINGLE_QUOTE || b == DOUBLE_QUOTE {
      var esc := b == SINGLE_QUOTE && EscapeBefore(s, i);
      QuotedStops(s, i + 1, b, esc);
      QuotedAgrees(s, i + 1, e, c, d, b, esc);
    } else if PairAt(s, i, DASH, DASH) {
      assert LineEnd(s, i) == LineEnd(s, i + 1);
      LineAgrees(s, i, c, d);
    } else if PairAt(s, i, SLASH, STAR) {
      BlockAgrees(s, i + 2, c, d, 1);
    } else {
      DollarLiteralAgrees(s, i, c, d);
    }
  }

  // ---------------------------------------------------------------------------
  // Token by token through the original and its conversion.

  /** `c` from `i + d` on is what conversion makes of `s` from `i` on. */
  ghost predicate Follows(s: Text, i: nat, c: Text, d: int) {
    i <= |s| && 0 <= i + d <= |c| && c[i + d..] == Emit(Lex(s, i))
  }

  lemma EmitOne(t: Token, rest: seq<Token>)
    ensures Emit([t] + rest) == Written(t) + Emit(rest)
  {
    EmitConcat([t], rest);
    assert [t][..0] == [] && [t][0] == t;
  }

  /** Where `c` takes up the text after `done` bytes copied from `i`. */
  lemma AgreeFrom(s: Text, i: nat, j: nat, c: Text, d: int)
    requires i <= j <= |s| && 0 <= i + d <= |c|
    requires c[i + d..] == s[i..j] + Emit(Lex(s, j))
    ensures Agree(s, i, j, c, d) && Follows(s, j, c, d)
  {
    var tail := Emit(Lex(s, j));
    forall x | i <= x < j
      ensures s[x] == c[x + d]
    {
      assert c[i + d..][x - i] == s[i..j][x - i];
    }
    assert c[j + d..] == c[i + d..][j - i..] == tail;
    EmitFirst(s, j);
    if j < |s| {
      assert c[j + d] == c[j + d..][0];
    }
  }

  lemma EmitFirst(s: Text, i: nat)
    requires i <= |s|
    ensures Emit(Lex(s, i)) == [] <==> i == |s|
    ensures i < |s| ==> Emit(Lex(s, i))[0] == s[i] || (Emit(Lex(s, i))[0] == QUESTION && s[i] == DOLLAR)
  {
    if i < |s| {
      var (t, j) := TokenAt(s, i);
      EmitOne(t, Lex(s, j));
    }
  }

  /** A copied token stands in the converted text as it stood in the original. */
  lemma CopiedToken(s: Text, i: nat, c: Text, d: int)
    requires i < |s| && Follows(s, i, c, d) && !TokenAt(s, i).0.Placeholder?
    ensures var j := TokenAt(s, i).1;
            Agree(s, i, j, c, d) && Follows(s, j, c, d)
  {
    hide LiteralEnd, DigitRun, Lex, Emit, Agree;
    var (t, j) := TokenAt(s, i);
    EmitOne(t, Lex(s, j));
    AgreeFrom(s, i, j, c, d);
  }

  lemma {:induction false} EmitPlains(s: Text, i: nat, e: nat, rest: seq<Token>)
    requires i <= e <= |s|
    ensures Emit(Plains(s[i..e]) + rest) == s[i..e] + Emit(rest)
    decreases e - i
  {
    hide Emit;
    if i == e {
      assert s[i..e] == [];
      assert Plains([]) + rest == rest;
    } else {
      var more := Plains(s[i + 1..e]) + rest;
      EmitPlains(s, i + 1, e, rest);
      PlainsCons(s, i, e, rest);
      EmitOne(Plain(s[i]), more);
      assert s[i..e] == [s[i]] + s[i + 1..e];
    }
  }

  lemma PlainToken(s: Text, i: nat)
    requires i < |s|
    ensures TokenAt(s, i).0.Plain? <==> LiteralEnd(s, i) == i && !PlaceholderAt(s, i)
    ensures TokenAt(s, i).0.Plain? ==> TokenAt(s, i) == (Plain(s[i]), i + 1)
  {
    hide LiteralEnd, PlaceholderAt;
  }

  lemma IdentDollar(s: Text, i: nat)
    requires 0 < i < |s| && s[i] == DOLLAR && IsIdentByte(s[i - 1])
    ensures TokenAt(s, i) == (Plain(DOLLAR), i + 1)
  {
    hide QuotedEnd, LineEnd, BlockEnd, DollarEnd, DigitRun;
  }

  /** A `$` that starts no token longer than itself is copied with the tag bytes
      after it. */
  lemma CopiedTag(s: Text, i: nat, c: Text, d: int)
    requires i < |s| && Follows(s, i, c, d) && s[i] == DOLLAR && TokenAt(s, i).0.Plain?
    ensures Agree(s, i, TagEnd(s, i), c, d) && Follows(s, TagEnd(s, i), c, d)
  {
    hide LiteralEnd, PlaceholderAt, TagEnd, Lex, Emit, Plains, TokenAt;
    var e := TagEnd(s, i);
    PlainToken(s, i);
    LoneDollar(s, i);
    EmitPlains(s, i, e, Lex(s, e));
    AgreeFrom(s, i, e, c, d);
  }

  /** What ends the tag is seen by both. */
  lemma CopiedOpener(s: Text, i: nat, c: Text, d: int)
    requires i < |s| && Follows(s, i, c, d) && s[i] == DOLLAR && TokenAt(s, i).0.Plain?
    ensures i + d < |c| && c[i + d] == DOLLAR
    ensures OpensDollar(c, i + d) <==> OpensDollar(s, i)
    ensures i + 1 + d < |c| && IsDigit(c[i + 1 + d]) <==> i + 1 < |s| && IsDigit(s[i + 1])
  {
    hide LiteralEnd, PlaceholderAt, TagEnd, Lex, Emit, Follows, TokenAt;
    var e := TagEnd(s, i);
    CopiedTag(s, i, c, d);
    TagAgrees(s, i, e, c, d);
    if OpensDollar(s, i) {
      IdentDollar(s, e);
      CopiedToken(s, e, c, d);
    }
  }

  lemma PlainAgrees(s: Text, i: nat, c: Text, d: int)
    requires SameStart(s, i, c, d) && Follows(s, i, c, d) && TokenAt(s, i).0.Plain?
    ensures i + d < |c| && TokenAt(c, i + d) == (Plain(s[i]), i + 1 + d)
  {
    hide QuotedEnd, BlockEnd, DollarEnd, Lex, Emit;
    CopiedToken(s, i, c, d);
    if s[i] == DOLLAR {
      CopiedOpener(s, i, c, d);
    }
  }

  /** The same token starts at both places, and the copy of the rest follows. */
  lemma SameToken(s: Text, i: nat, c: Text, d: int)
    requires SameStart(s, i, c, d) && Follows(s, i, c, d) && !TokenAt(s, i).0.Placeholder?
    ensures var (t, j) := TokenAt(s, i);
            && i + d < |c| && TokenAt(c, i + d) == (t, j + d)
            && Agree(s, i, j, c, d) && Follows(s, j, c, d)
  {
    hide Lex, Emit, QuotedEnd, LineEnd, BlockEnd, DollarEnd, DigitRun;
    CopiedToken(s, i, c, d);
    if TokenAt(s, i).0.Plain? {
      PlainAgrees(s, i, c, d);
    } else {
      var e := LiteralEnd(s, i);
      LiteralAgrees(s, i, c, d);
      assert s[i..e] == c[i + d..e + d];
    }
  }

  /** Both places look back on the same facts. */
  ghost predicate Synced(s: Text, i: nat, c: Text, d: int) {
    i <= |s| && 0 <= i + d <= |c| && ContextAt(s, i) == ContextAt(c, i + d)
  }

  /** Reading the same bytes restores agreement: one byte settles whether it is an
      identifier byte, and two settle the rest. */
  lemma SyncedAfter(s: Text, i: nat, j: nat, c: Text, d: int)
    requires Agree(s, i, j, c, d) && i < j
    requires IdentBefore(s, i) == IdentBefore(c, i + d) || !IsE(s[j - 1]) || i + 1 < j
    ensures Synced(s, j, c, d)
  {
    assert s[j - 1] == c[j - 1 + d];
    if i + 1 < j {
      assert s[j - 2] == c[j - 2 + d];
    }
  }

  /** Lexing `c` from `k` gives the marked tokens of `s` from `i`. */
  ghost predicate Stable(s: Text, i: nat, c: Text, k: nat)
    requires i <= |s| && k <= |c|
  {
    Lex(c, k) == Marked(Lex(s, i))
  }

  /** Comparing the token lists comes down to comparing the first tokens and the rest. */
  lemma StableStep(s: Text, i: nat, j: nat, t: Token, c: Text, k: nat, m: nat, u: Token)
    requires i < |s| && k < |c| && TokenAt(s, i) == (t, j) && TokenAt(c, k) == (u, m)
    ensures var x := Mark(t);
            Stable(s, i, c, k) <==> u == x && Stable(s, j, c, m)
  {
    var x := Mark(t);
    assert ([t] + Lex(s, j))[1..] == Lex(s, j);
    var a, b := [u] + Lex(c, m), [x] + Marked(Lex(s, j));
    assert a[0] == u && b[0] == x && a[1..] == Lex(c, m) && b[1..] == Marked(Lex(s, j));
  }

  lemma CopiedStep(s: Text, i: nat, j: nat, t: Token, c: Text, d: int)
    requires i < |s| && 0 <= i + d < |c| && !t.Placeholder?
    requires TokenAt(s, i) == (t, j) && TokenAt(c, i + d) == (t, j + d)
    ensures Stable(s, i, c, i + d) <==> Stable(s, j, c, j + d)
    ensures HazardFree(s, i) <==> HazardFree(s, j)
  {
    StableStep(s, i, j, t, c, i + d, j + d, t);
  }

  /** Converted text lexes to the marked tokens of the original if and only if no
      placeholder is followed by a hazard. */
  lemma {:induction false} RelexFrom(s: Text, i: nat, c: Text, d: int)
    requires Follows(s, i, c, d) && Synced(s, i, c, d)
    ensures Stable(s, i, c, i + d) <==> HazardFree(s, i)
    decreases |s| - i, 2
  {
    hide LiteralEnd;
    if i == |s| {
    } else if TokenAt(s, i).0.Placeholder? {
      RelexMark(s, i, c, d);
    } else {
      SameToken(s, i, c, d);
      RelexCopied(s, i, TokenAt(s, i).1, TokenAt(s, i).0, c, d);
    }
  }

  lemma {:induction false} RelexCopied(s: Text, i: nat, j: nat, t: Token, c: Text, d: int)
    requires i < j <= |s| && 0 <= i + d < |c| && !t.Placeholder?
    requires TokenAt(s, i) == (t, j) && TokenAt(c, i + d) == (t, j + d)
    requires Agree(s, i, j, c, d) && Follows(s, j, c, d)
    requires IdentBefore(s, i) == IdentBefore(c, i + d) || !IsE(s[j - 1]) || i + 1 < j
    ensures Stable(s, i, c, i + d) <==> HazardFree(s, i)
    decreases |s| - j, 3
  {
    hide Lex, Emit, HazardFree, Stable, TokenAt;
    SyncedAfter(s, i, j, c, d);
    RelexFrom(s, j, c, d);
    CopiedStep(s, i, j, t, c, d);
  }

  lemma {:induction false} RelexMark(s: Text, i: nat, c: Text, d: int)
    requires i < |s| && Follows(s, i, c, d) && TokenAt(s, i).0.Placeholder?
    ensures Stable(s, i, c, i + d) <==> HazardFree(s, i)
    decreases |s| - i, 1
  {
    var (t, j) := TokenAt(s, i);
    MarkWritten(s, i, c, d);
    RelexAfterMark(s, j, c, i + d + 1 - j);
    StableStep(s, i, j, t, c, i + d, i + d + 1, Plain(QUESTION));
  }

  lemma MarkWritten(s: Text, i: nat, c: Text, d: int)
    requires i < |s| && Follows(s, i, c, d) && TokenAt(s, i).0.Placeholder?
    ensures i + d < |c| && TokenAt(c, i + d) == (Plain(QUESTION), i + d + 1)
    ensures var j := TokenAt(s, i).1; AfterMark(s, j, c, i + d + 1 - j)
  {
    var (t, j) := TokenAt(s, i);
    EmitOne(t, Lex(s, j));
    assert c[i + d] == c[i + d..][0];
    assert c[i + d + 1..] == c[i + d..][1..];
  }

  /** Just after a placeholder the original looks back on a digit, the converted
      text on a question mark. */
  ghost predicate AfterMark(s: Text, j: nat, c: Text, d: int) {
    && Follows(s, j, c, d)
    && 0 < j && IsDigit(s[j - 1]) && 0 < j + d && c[j - 1 + d] == QUESTION
    && (j < |s| ==> !IsDigit(s[j]))
  }

  lemma {:induction false} RelexAfterMark(s: Text, j: nat, c: Text, d: int)
    requires AfterMark(s, j, c, d)
    ensures Stable(s, j, c, j + d) <==> !Hazard(s, j) && HazardFree(s, j)
    decreases |s| - j, 1
  {
    if j == |s| {
    } else if s[j] == DOLLAR {
      RelexDollar(s, j, c, d);
    } else if IsE(s[j]) {
      RelexLetter(s, j, c, d);
    } else {
      SameToken(s, j, c, d);
      RelexCopied(s, j, TokenAt(s, j).1, TokenAt(s, j).0, c, d);
    }
  }

  /** A `$` right after a placeholder continued an identifier; now it may start
      something. */
  lemma {:induction false} RelexDollar(s: Text, j: nat, c: Text, d: int)
    requires AfterMark(s, j, c, d)
    requires j < |s| && s[j] == DOLLAR
    ensures Stable(s, j, c, j + d) <==> !Hazard(s, j) && HazardFree(s, j)
    decreases |s| - j, 0
  {
    DollarAfterMark(s, j, c, d);
    if Hazard(s, j) {
      StableStep(s, j, j + 1, Plain(DOLLAR), c, j + d, TokenAt(c, j + d).1, TokenAt(c, j + d).0);
    } else {
      RelexCopied(s, j, j + 1, Plain(DOLLAR), c, d);
    }
  }

  lemma DollarAfterMark(s: Text, j: nat, c: Text, d: int)
    requires AfterMark(s, j, c, d)
    requires j < |s| && s[j] == DOLLAR
    ensures TokenAt(s, j) == (Plain(DOLLAR), j + 1)
    ensures Agree(s, j, j + 1, c, d) && Follows(s, j + 1, c, d)
    ensures if Hazard(s, j) then TokenAt(c, j + d).0 != Plain(DOLLAR)
            else TokenAt(c, j + d) == (Plain(DOLLAR), j + 1 + d)
  {
    hide QuotedEnd, LineEnd, BlockEnd, DelimEnd, DigitRun, Lex, Emit, TagEnd;
    IdentDollar(s, j);
    CopiedToken(s, j, c, d);
    CopiedOpener(s, j, c, d);
  }

  /** An `e` right after a placeholder now stands alone, so a string after it takes
      backslash escapes. */
  lemma {:induction false} RelexLetter(s: Text, j: nat, c: Text, d: int)
    requires AfterMark(s, j, c, d)
    requires j < |s| && IsE(s[j])
    ensures Stable(s, j, c, j + d) <==> !Hazard(s, j) && HazardFree(s, j)
    decreases |s| - j, 0
  {
    LetterAfterMark(s, j, c, d);
    RelexAfterLetter(s, j, c, d);
    CopiedStep(s, j, j + 1, Plain(s[j]), c, d);
  }

  lemma LetterAfterMark(s: Text, j: nat, c: Text, d: int)
    requires AfterMark(s, j, c, d)
    requires j < |s| && IsE(s[j])
    ensures TokenAt(s, j) == (Plain(s[j]), j + 1) && j + d < |c| && TokenAt(c, j + d) == (Plain(s[j]), j + 1 + d)
    ensures Agree(s, j, j + 1, c, d) && Follows(s, j + 1, c, d)
    ensures !EscapeBefore(s, j + 1) && EscapeBefore(c, j + 1 + d)
    ensures IdentBefore(s, j + 1) && IdentBefore(c, j + 1 + d)
  {
    hide QuotedEnd, LineEnd, BlockEnd, DollarEnd, DigitRun, Lex, Emit, TagEnd;
    SameToken(s, j, c, d);
  }

  lemma {:induction false} RelexAfterLetter(s: Text, j: nat, c: Text, d: int)
    requires j < |s| && IsE(s[j]) && Follows(s, j + 1, c, d)
    requires !EscapeBefore(s, j + 1) && EscapeBefore(c, j + 1 + d)
    requires IdentBefore(s, j + 1) && IdentBefore(c, j + 1 + d)
    ensures Stable(s, j + 1, c, j + 1 + d) <==> !Hazard(s, j) && HazardFree(s, j + 1)
    decreases |s| - j - 1, 4
  {
    hide HazardFree, Stable, QuotedEnd, OpensDollar, Emit, Lex, IsIdentByte;
    if j + 1 < |s| && s[j + 1] == SINGLE_QUOTE {
      RelexString(s, j + 1, c, d);
    } else {
      RelexNoString(s, j + 1, c, d);
      assert !Hazard(s, j);
    }
  }

  lemma {:induction false} RelexNoString(s: Text, m: nat, c: Text, d: int)
    requires Follows(s, m, c, d) && (m < |s| ==> s[m] != SINGLE_QUOTE)
    requires IdentBefore(s, m) && IdentBefore(c, m + d)
    ensures Stable(s, m, c, m + d) <==> HazardFree(s, m)
    decreases |s| - m, 3
  {
    if m == |s| {
    } else {
      SameToken(s, m, c, d);
      RelexCopied(s, m, TokenAt(s, m).1, TokenAt(s, m).0, c, d);
    }
  }

  /** The string at `m` takes no escapes in the original and does in the copy. */
  lemma {:induction false} RelexString(s: Text, m: nat, c: Text, d: int)
    requires 0 < m < |s| && s[m] == SINGLE_QUOTE && !EscapeBefore(s, m) && IsE(s[m - 1])
    requires Follows(s, m, c, d) && EscapeBefore(c, m + d)
    ensures Stable(s, m, c, m + d) <==> !Hazard(s, m - 1) && HazardFree(s, m)
    decreases |s| - m, 0
  {
    hide HazardFree, Stable, QuotedEnd, OpensDollar, Emit, Lex, TokenAt, Agree, Follows, EscapeBefore;
    var e := QuotedEnd(s, m + 1, SINGLE_QUOTE, false);
    StringToken(s, m, false);
    CopiedToken(s, m, c, d);
    AgreeAt(s, m, e, c, d);
    var x := QuotedEnd(c, m + 1 + d, SINGLE_QUOTE, true);
    StringToken(c, m + d, true);
    StringCopies(s, m, e, c, d, x);
    if x == e + d {
      RelexCopied(s, m, e, Literal(s[m..e]), c, d);
    } else {
      StableStep(s, m, e, Literal(s[m..e]), c, m + d, x, Literal(c[m + d..x]));
    }
  }

  lemma AgreeAt(s: Text, i: nat, j: nat, c: Text, d: int)
    requires i < j && Agree(s, i, j, c, d)
    ensures 0 <= i + d < |c| && i < |s| && c[i + d] == s[i]
  {
  }

  lemma StringToken(s: Text, m: nat, esc: bool)
    requires m < |s| && s[m] == SINGLE_QUOTE && EscapeBefore(s, m) == esc
    ensures var e := QuotedEnd(s, m + 1, SINGLE_QUOTE, esc); m < e && TokenAt(s, m) == (Literal(s[m..e]), e)
  {
    hide QuotedEnd, Lex;
  }

  lemma StringCopies(s: Text, m: nat, e: nat, c: Text, d: int, x: nat)
    requires m < |s| && e == QuotedEnd(s, m + 1, SINGLE_QUOTE, false) && Agree(s, m, e, c, d)
    requires x == QuotedEnd(c, m + 1 + d, SINGLE_QUOTE, true)
    ensures x == e + d <==> QuotedEnd(s, m + 1, SINGLE_QUOTE, true) == e
    ensures x == e + d <==> s[m..e] == c[m + d..x]
  {
    QuotedStops(s, m + 1, SINGLE_QUOTE, false);
    QuotedAgrees(s, m + 1, e, c, d, SINGLE_QUOTE, true);
    if x == e + d {
      assert s[m..e] == c[m + d..x];
    } else {
      assert |s[m..e]| != |c[m + d..x]|;
    }
  }

  /** Conversion is stable under lexing again, with every literal in place and no
      placeholder left, exactly for the hazard-free texts. */
  lemma RelexStable(s: Text)
    ensures Lex(Emit(Lex(s, 0)), 0) == Marked(Lex(s, 0)) <==> HazardFree(s, 0)
  {
    var c := Emit(Lex(s, 0));
    assert c[0..] == c;
    RelexFrom(s, 0, c, 0);
    assert Stable(s, 0, c, 0) <==> HazardFree(s, 0);
  }

  /** Every placeholder ends the text or stands before a byte that is not part of
      an identifier. */
  predicate Separated(s: Text, i: nat)
    requires i <= |s|
    decreases |s| - i
  {
    i < |s| ==>
      var (t, j) := TokenAt(s, i);
      (t.Placeholder? && j < |s| ==> !IsIdentByte(s[j])) && Separated(s, j)
  }

  lemma {:induction false} SeparatedIsHazardFree(s: Text, i: nat)
    requires i <= |s| && Separated(s, i)
    ensures HazardFree(s, i)
    decreases |s| - i
  {
    if i == |s| {
    } else {
      SeparatedIsHazardFree(s, TokenAt(s, i).1);
    }
  }

  /** `$1$2`: in the original the second `$` continues what the first placeholder's
      digits started; after conversion it is a placeholder of its own. */
  lemma AdjacentPlaceholders()
    ensures var s: Text := [DOLLAR, 49, DOLLAR, 50];
            && Lex(s, 0) == [Placeholder([49]), Plain(DOLLAR), Plain(50)]
            && Lex(Emit(Lex(s, 0)), 0) == [Plain(QUESTION), Placeholder([50])]
  {
    hide Lex, Emit, TokenAt;
    AdjacentLexed();
    AdjacentEmitted();
    MarkThenPlaceholder();
  }

  lemma AdjacentLexed()
    ensures Lex([DOLLAR, 49, DOLLAR, 50], 0) == [Placeholder([49]), Plain(DOLLAR), Plain(50)]
  {
    hide Lex;
    var s: Text := [DOLLAR, 49, DOLLAR, 50];
    assert DigitRun(s, 1) == DigitRun(s, 2) == 2;
    assert TokenAt(s, 0) == (Placeholder(s[1..2]), 2);
    assert TokenAt(s, 2) == (Plain(DOLLAR), 3);
    assert TokenAt(s, 3) == (Plain(50), 4);
    assert s[1..2] == [49];
    LexEnd(s);
  }

  lemma AdjacentEmitted()
    ensures Emit([Placeholder([49]), Plain(DOLLAR), Plain(50)]) == [QUESTION, DOLLAR, 50]
  {
    var one, two, three := Placeholder([49]), Plain(DOLLAR), Plain(50);
    EmitOne(one, [two] + ([three] + []));
    EmitOne(two, [three] + []);
    EmitOne(three, []);
    assert [one] + ([two] + ([three] + [])) == [one, two, three];
  }

  lemma MarkThenPlaceholder()
    ensures Lex([QUESTION, DOLLAR, 50], 0) == [Plain(QUESTION), Placeholder([50])]
  {
    hide Lex;
    var c: Text := [QUESTION, DOLLAR, 50];
    assert DigitRun(c, 2) == DigitRun(c, 3) == 3;
    assert TokenAt(c, 0) == (Plain(QUESTION), 1);
    assert TokenAt(c, 1) == (Placeholder(c[2..3]), 3);
    assert c[2..3] == [50];
    LexEnd(c);
  }
}
