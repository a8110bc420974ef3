/** The lexer's byte classes, pinned by what they make of a text. The classes are
    written out here as numbers (PostgreSQL documentation, section 4.1) and share no
    definition with the lexer. */
module PgGrammar {
  import opened Bytes
  import opened PgLexer
  import opened PgPlaceholders

  /** `_`, `A`..`Z`, `a`..`z`, or part of a multi-byte character. */
  predicate FirstOfTag(b: byte) { b == 95 || 65 <= b <= 90 || 97 <= b <= 122 || 128 <= b <= 255 }

  /** The same or `0`..`9`. */
  predicate LaterInTag(b: byte) { FirstOfTag(b) || 48 <= b <= 57 }

  /** What can stand in an identifier: the same or `$`. */
  predicate InWord(b: byte) { LaterInTag(b) || b == 36 }

  predicate IsTag(tag: Text) {
    (tag != [] ==> FirstOfTag(tag[0])) && forall k :: 0 <= k < |tag| ==> LaterInTag(tag[k])
  }

  /** `delim` occurs in `t` at `k`. */
  predicate OccursAt(t: Text, k: nat, delim: Text) { k + |delim| <= |t| && t[k..k + |delim|] == delim }

  // ---------------------------------------------------------------------------
  // Dollar quotes.

  lemma {:induction false} RunToEnd(s: Text, j: nat, e: nat)
    requires j <= e <= |s| && (forall k :: j <= k < e ==> LaterInTag(s[k])) && (e < |s| ==> !LaterInTag(s[e]))
    ensures TagRun(s, j) == e
    decreases e - j
  {
    if j == e {
    } else {
      RunToEnd(s, j + 1, e);
    }
  }

  /** A `$` opens a dollar quote exactly when a tag and another `$` follow it. */
  lemma OpensIff(s: Text, i: nat)
    requires i < |s| && s[i] == 36
    ensures OpensDollar(s, i) <==> exists e :: i < e < |s| && s[e] == 36 && IsTag(s[i + 1..e])
  {
    hide TagRun;
    var end := TagEnd(s, i);
    if OpensDollar(s, i) {
      assert IsTag(s[i + 1..end]) by { EndIsTag(s, i); }
    }
    forall e | i < e < |s| && s[e] == 36 && IsTag(s[i + 1..e])
      ensures end == e
    {
      TagEndsThere(s, i, e);
    }
  }

  lemma EndIsTag(s: Text, i: nat)
    requires i < |s|
    ensures IsTag(s[i + 1..TagEnd(s, i)])
  {
    hide TagRun;
    var tag := s[i + 1..TagEnd(s, i)];
    assert forall k :: 0 <= k < |tag| ==> tag[k] == s[i + 1 + k];
    assert tag != [] ==> tag[0] == s[i + 1];
  }

  lemma TagEndsThere(s: Text, i: nat, e: nat)
    requires i < e < |s| && s[e] == 36 && IsTag(s[i + 1..e])
    ensures TagEnd(s, i) == e
  {
    hide TagRun;
    var tag := s[i + 1..e];
    assert forall k :: i + 1 <= k < e ==> s[k] == tag[k - i - 1];
    if tag != [] {
      assert s[i + 1] == tag[0];
      RunToEnd(s, i + 2, e);
    }
  }

  lemma {:induction false} FirstDelimiter(s: Text, k: nat, m: nat, delim: Text)
    requires k <= m && OccursAt(s, m, delim) && (forall x :: k <= x < m ==> !OccursAt(s, x, delim))
    ensures DelimEnd(s, k, delim) == m + |delim|
    decreases m - k
  {
    if k == m {
    } else {
      assert !OccursAt(s, k, delim);
      FirstDelimiter(s, k + 1, m, delim);
    }
  }

  lemma {:induction false} NoDelimiter(s: Text, k: nat, delim: Text)
    requires k <= |s| && |delim| >= 1 && (forall x :: k <= x <= |s| ==> !OccursAt(s, x, delim))
    ensures DelimEnd(s, k, delim) == |s|
    decreases |s| - k
  {
    if k + |delim| > |s| {
    } else {
      assert !OccursAt(s, k, delim);
      NoDelimiter(s, k + 1, delim);
    }
  }

  lemma OpenerAtStart(tag: Text, after: Text)
    requires IsTag(tag)
    ensures var s := [36] + tag + [36] + after; OpensDollar(s, 0) && TagEnd(s, 0) == |tag| + 1
  {
    var s := [36] + tag + [36] + after;
    assert s[1..|tag| + 1] == tag;
    TagEndsThere(s, 0, |tag| + 1);
  }

  lemma ClosesFirst(delim: Text, body: Text, rest: Text)
    requires forall x :: 0 <= x < |body| ==> !OccursAt(body + delim, x, delim)
    ensures var s, n := delim + body + delim + rest, |delim|;
            && OccursAt(s, n + |body|, delim)
            && forall x :: n <= x < n + |body| ==> !OccursAt(s, x, delim)
  {
    var s, n := delim + body + delim + rest, |delim|;
    assert s[n + |body|..n + |body| + n] == delim;
    forall x | n <= x < n + |body|
      ensures !OccursAt(s, x, delim)
    {
      assert s[x..x + n] == (body + delim)[x - n..x];
      assert !OccursAt(body + delim, x - n, delim);
    }
  }

  /** `$tag$ body $tag$`, where the closing tag is the first one after the opening
      one, is one literal, whatever follows it. */
  lemma DollarQuoted(tag: Text, body: Text, rest: Text)
    requires IsTag(tag)
    requires var delim := [36] + tag + [36]; forall x :: 0 <= x < |body| ==> !OccursAt(body + delim, x, delim)
    ensures var delim := [36] + tag + [36];
            var quoted := delim + body + delim;
            Lex(quoted + rest, 0) == [Literal(quoted)] + Lex(quoted + rest, |quoted|)
  {
    hide Lex, DelimEnd, LiteralEnd, OccursAt, IsTag;
    var delim := [36] + tag + [36];
    var quoted, n := delim + body + delim, |delim|;
    var s := quoted + rest;
    assert s == [36] + tag + [36] + (body + delim + rest);
    OpenerAtStart(tag, body + delim + rest);
    assert s[0..n] == delim;
    ClosesFirst(delim, body, rest);
    FirstDelimiter(s, n, n + |body|, delim);
    assert s[0..|quoted|] == quoted;
    QuoteAtStart(s);
    LexStep(s, 0);
  }

  lemma QuoteAtStart(s: Text)
    requires s != [] && s[0] == 36 && OpensDollar(s, 0)
    ensures LiteralEnd(s, 0) == DelimEnd(s, TagEnd(s, 0) + 1, s[0..TagEnd(s, 0) + 1])
  {
    hide DelimEnd, TagEnd;
  }

  /** An opened quote without its closing tag is a literal to the end of the text. */
  lemma UnclosedQuote(tag: Text, body: Text)
    requires IsTag(tag)
    requires var delim := [36] + tag + [36]; forall x :: 0 <= x <= |body| ==> !OccursAt(body, x, delim)
    ensures var s := [36] + tag + [36] + body; Lex(s, 0) == [Literal(s)]
  {
    hide Lex, DelimEnd, LiteralEnd, IsTag;
    var delim := [36] + tag + [36];
    var s, n := delim + body, |delim|;
    OpenerAtStart(tag, body);
    assert s[0..n] == delim;
    forall x | n <= x <= |s|
      ensures !OccursAt(s, x, delim)
    {
      assert x + n <= |s| ==> s[x..x + n] == body[x - n..x];
      assert !OccursAt(body, x - n, delim);
    }
    NoDelimiter(s, n, delim);
    assert s[0..|s|] == s;
    QuoteAtStart(s);
    LexStep(s, 0);
    LexEnd(s);
  }

  /** A `$` opens nothing if neither a tag's first byte nor another `$` follows it. */
  lemma OpensNothing(s: Text, i: nat)
    requires i < |s| && s[i] == 36 && (i + 1 < |s| ==> !FirstOfTag(s[i + 1]) && s[i + 1] != 36)
    ensures LiteralEnd(s, i) == i
  {
  }

  // ---------------------------------------------------------------------------
  // Placeholders and escape strings.

  /** A token is a placeholder exactly when it starts with `$` and a digit and does not
      continue an identifier. */
  lemma PlaceholderIff(s: Text, i: nat)
    requires i < |s|
    ensures Lex(s, i) != []
    ensures Lex(s, i)[0].Placeholder? <==>
            s[i] == 36 && i + 1 < |s| && 48 <= s[i + 1] <= 57 && !(i > 0 && InWord(s[i - 1]))
  {
    hide Lex, TagRun, DelimEnd, QuotedEnd, LineEnd, BlockEnd, DigitRun;
    LexStep(s, i);
  }

  /** Its digits are all the digits that follow. */
  lemma PlaceholderDigits(s: Text, i: nat, e: nat)
    requires i + 1 < e <= |s| && s[i] == 36 && !(i > 0 && InWord(s[i - 1]))
    requires (forall k :: i + 1 <= k < e ==> 48 <= s[k] <= 57) && (e < |s| ==> !(48 <= s[e] <= 57))
    ensures Lex(s, i) == [Placeholder(s[i + 1..e])] + Lex(s, e)
  {
    hide Lex, TagRun, DelimEnd, DigitRun;
    assert 48 <= s[i + 1] <= 57;
    OpensNothing(s, i);
    assert DigitRun(s, i + 1) == e by { DigitsEndThere(s, i + 1, e); }
    LexStep(s, i);
  }

  lemma {:induction false} DigitsEndThere(s: Text, j: nat, e: nat)
    requires j <= e <= |s|
    requires (forall k :: j <= k < e ==> 48 <= s[k] <= 57) && (e < |s| ==> !(48 <= s[e] <= 57))
    ensures DigitRun(s, j) == e
    decreases e - j
  {
    if j == e {
    } else {
      DigitsEndThere(s, j + 1, e);
    }
  }

  /** A quoted string takes backslash escapes exactly when an `e` or `E` that does not
      end a longer identifier stands right before it. */
  lemma EscapesIff(s: Text, i: nat)
    requires i < |s| && s[i] == 39
    ensures var esc := i > 0 && (s[i - 1] == 101 || s[i - 1] == 69) && (i < 2 || !InWord(s[i - 2]));
            LiteralEnd(s, i) == QuotedEnd(s, i + 1, 39, esc)
  {
  }

  // ---------------------------------------------------------------------------
  // Numbers.

  function PowerOfTen(k: nat): nat { if k == 0 then 1 else 10 * PowerOfTen(k - 1) }

  lemma OneMorePlace(d: int, p: int, v: int, last: int)
    ensures 10 * (d * p + v) + last == d * (10 * p) + (10 * v + last)
  {
    assert 10 * (d * p) == d * (10 * p);
  }

  /** Digits count by their place. */
  lemma {:induction false} DecimalIsPositional(d: byte, rest: Text)
    requires 48 <= d <= 57 && forall k :: 0 <= k < |rest| ==> 48 <= rest[k] <= 57
    ensures AllDigits([d] + rest) && AllDigits(rest)
    ensures DecimalValue([d] + rest) == (d - 48) * PowerOfTen(|rest|) + DecimalValue(rest)
  {
    var ds := [d] + rest;
    assert AllDigits(ds);
    if rest == [] {
      assert ds[..0] == [];
    } else {
      var front, last := rest[..|rest| - 1], rest[|rest| - 1] - 48;
      DecimalIsPositional(d, front);
      assert ds[..|ds| - 1] == [d] + front;
      OneMorePlace(d - 48, PowerOfTen(|front|), DecimalValue(front), last);
    }
  }
}
