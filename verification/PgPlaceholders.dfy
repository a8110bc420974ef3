/** Rewriting `$n` placeholders to `?` and reordering the arguments to match. */
module PgPlaceholders {
  import opened Bytes
  import opened PgLexer

  /** Largest Go `int`. */
  const MAX_INT: int := 0x7fff_ffff_ffff_ffff

  datatype Outcome<A> = Converted(sql: Text, args: seq<A>) | InvalidPlaceholder(digits: Text)

  /** strconv.Atoi on a run of digits: fails when the value does not fit an int. */
  function Atoi(ds: Text): Option<int>
    requires AllDigits(ds)
  {
    if DecimalValue(ds) <= MAX_INT then Some(DecimalValue(ds)) else None
  }

  /** The placeholder names one of `count` arguments. */
  ghost predicate InRange(t: Token, count: nat) {
    t.Placeholder? && AllDigits(t.digits) && 1 <= DecimalValue(t.digits) <= count
  }

  ghost predicate AllInRange(ts: seq<Token>, count: nat) {
    forall k :: 0 <= k < |ts| && ts[k].Placeholder? ==> InRange(ts[k], count)
  }

  ghost predicate HasPlaceholder(ts: seq<Token>) {
    exists k :: 0 <= k < |ts| && ts[k].Placeholder?
  }

  /** The digits of the first placeholder that names no argument. */
  ghost predicate FirstInvalid(ts: seq<Token>, count: nat, ds: Text) {
    exists k :: 0 <= k < |ts| && ts[k] == Placeholder(ds) && !InRange(ts[k], count) && AllInRange(ts[..k], count)
  }

  function Written(t: Token): Text {
    match t case Plain(b) => [b] case Literal(x) => x case Placeholder(_) => [QUESTION]
  }

  /** Text of the tokens with every placeholder written as `?`. */
  function Emit(ts: seq<Token>): Text {
    if ts == [] then []
    else Emit(ts[..|ts| - 1]) + Written(ts[|ts| - 1])
  }

  /** The arguments in the order the placeholders name them. */
  ghost function Reorder<A>(ts: seq<Token>, args: seq<A>): seq<A>
    requires AllInRange(ts, |args|)
  {
    if ts == [] then []
    else Reorder(ts[..|ts| - 1], args) +
         if ts[|ts| - 1].Placeholder? then [args[DecimalValue(ts[|ts| - 1].digits) - 1]] else []
  }

  function Spelled(t: Token): Text {
    match t case Plain(b) => [b] case Literal(x) => x case Placeholder(ds) => [DOLLAR] + ds
  }

  /** The query text the tokens stand for. */
  ghost function Source(ts: seq<Token>): Text {
    if ts == [] then [] else Source(ts[..|ts| - 1]) + Spelled(ts[|ts| - 1])
  }

  method ConvertPgPlaceholders<A>(sql: Text, args: seq<A>) returns (r: Outcome<A>)
    requires |args| <= MAX_INT
    ensures r.InvalidPlaceholder? <==> !AllInRange(Lex(sql, 0), |args|)
    ensures r.InvalidPlaceholder? ==> FirstInvalid(Lex(sql, 0), |args|, r.digits)
    ensures r.Converted? && !HasPlaceholder(Lex(sql, 0)) ==> r.sql == sql && r.args == args
    ensures r.Converted? && HasPlaceholder(Lex(sql, 0)) ==>
              r.sql == Emit(Lex(sql, 0)) && r.args == Reorder(Lex(sql, 0), args)
  {
    hide LiteralEnd, DigitRun, DecimalValue, Lex, Emit, Reorder, HasPlaceholder;
    LexEnd(sql);
    var b: Text := [];
    var orderedArgs: seq<A> := [];
    var found := false;
    var i := 0;
    ghost var done: seq<Token> := [];
    ghost var all := Lex(sql, 0);
    assert all == done + Lex(sql, 0);
    NothingDone(args);
    while i < |sql|
      invariant 0 <= i <= |sql|
      invariant all == done + Lex(sql, i)
      invariant AllInRange(done, |args|)
      invariant b == Emit(done) && orderedArgs == Reorder(done, args)
      invariant found <==> HasPlaceholder(done)
      decreases |sql| - i
    {
      var end := SkipLiteral(sql, i);
      if end > i {
        LexStep(sql, i);
        Advance(sql, i, done, Literal(sql[i..end]), end);
        AdvanceArgs(done, Literal(sql[i..end]), args);
        b, done := b + sql[i..end], done + [Literal(sql[i..end])];
        i := end;
        continue;
      }
      if sql[i] == DOLLAR && !IdentBefore(sql, i) {
        var j := ScanDigits(sql, i + 1);
        if j > i + 1 {
          var numStr := sql[i + 1..j];
          var n := Atoi(numStr);
          LexStep(sql, i);
          Advance(sql, i, done, Placeholder(numStr), j);
          if n.None? || n.value < 1 || n.value > |args| {
            ghost var k := |done|;
            assert all[k] == Placeholder(numStr) && all[..k] == done && !InRange(all[k], |args|);
            return InvalidPlaceholder(numStr);
          }
          found := true;
          AdvanceArgs(done, Placeholder(numStr), args);
          b, orderedArgs := b + [QUESTION], orderedArgs + [args[n.value - 1]];
          done, i := done + [Placeholder(numStr)], j;
          continue;
        }
      }
      LexStep(sql, i);
      Advance(sql, i, done, Plain(sql[i]), i + 1);
      AdvanceArgs(done, Plain(sql[i]), args);
      b, done := b + [sql[i]], done + [Plain(sql[i])];
      i := i + 1;
    }
    assert all == done;
    return if found then Converted(b, orderedArgs) else Converted(sql, args);
  }

  lemma NothingDone<A>(args: seq<A>)
    ensures AllInRange([], |args|) && !HasPlaceholder([]) && Emit([]) == [] && Reorder([], args) == []
  {
  }

  method ScanDigits(s: Text, i: nat) returns (j: nat)
    requires i <= |s|
    ensures j == DigitRun(s, i)
  {
    j := i;
    while j < |s| && IsDigit(s[j])
      invariant i <= j <= |s|
      invariant DigitRun(s, i) == DigitRun(s, j)
    {
      j := j + 1;
    }
  }

  /** Reading one token moves it from the rest to the part done. */
  lemma Advance(s: Text, i: nat, done: seq<Token>, t: Token, j: nat)
    requires i <= |s| && j <= |s| && Lex(s, i) == [t] + Lex(s, j)
    ensures done + Lex(s, i) == done + [t] + Lex(s, j)
    ensures (done + [t])[..|done|] == done && (done + [t])[|done|] == t
    ensures Emit(done + [t]) == Emit(done) + Written(t)
    ensures HasPlaceholder(done + [t]) <==> HasPlaceholder(done) || t.Placeholder?
  {
    hide Lex, Emit, HasPlaceholder, Written;
    assert done + ([t] + Lex(s, j)) == done + [t] + Lex(s, j);
    EmitMore(done, t);
    MorePlaceholders(done, t);
  }

  lemma EmitMore(done: seq<Token>, t: Token)
    ensures Emit(done + [t]) == Emit(done) + Written(t)
  {
    hide Written;
    assert (done + [t])[..|done|] == done;
  }

  lemma MorePlaceholders(done: seq<Token>, t: Token)
    ensures HasPlaceholder(done + [t]) <==> HasPlaceholder(done) || t.Placeholder?
  {
    var next := done + [t];
    assert next[|done|] == t && forall k :: 0 <= k < |done| ==> next[k] == done[k];
  }

  lemma AdvanceArgs<A>(done: seq<Token>, t: Token, args: seq<A>)
    requires AllInRange(done, |args|) && (t.Placeholder? ==> InRange(t, |args|))
    ensures AllInRange(done + [t], |args|)
    ensures Reorder(done + [t], args) ==
            Reorder(done, args) + if t.Placeholder? then [args[DecimalValue(t.digits) - 1]] else []
  {
    hide DecimalValue;
    var next := done + [t];
    assert next[..|done|] == done && next[|done|] == t;
    assert forall k :: 0 <= k < |done| ==> next[k] == done[k];
    assert AllInRange(next, |args|);
    assert Reorder(next, args) ==
      Reorder(next[..|next| - 1], args) + if t.Placeholder? then [args[DecimalValue(t.digits) - 1]] else [];
  }

  // ---------------------------------------------------------------------------
  // Meaning: what the database sees once the arguments are filled in.

  /** The query with every placeholder `$n` replaced by its rendered argument. */
  ghost function Fill<A>(ts: seq<Token>, args: seq<A>, render: A -> Text): Text
    requires AllInRange(ts, |args|)
  {
    if ts == [] then []
    else Fill(ts[..|ts| - 1], args, render) +
         match ts[|ts| - 1]
         case Plain(b) => [b]
         case Literal(t) => t
         case Placeholder(ds) => render(args[DecimalValue(ds) - 1])
  }

  /** Where the emitted question marks stand in the converted text. */
  ghost function Marks(ts: seq<Token>): seq<nat> {
    if ts == [] then []
    else Marks(ts[..|ts| - 1]) + if ts[|ts| - 1].Placeholder? then [|Emit(ts[..|ts| - 1])|] else []
  }

  ghost predicate MarksIn(marks: seq<nat>, text: Text) {
    && (forall k :: 0 <= k < |marks| ==> marks[k] < |text| && text[marks[k]] == QUESTION)
    && (forall j, k :: 0 <= j < k < |marks| ==> marks[j] < marks[k])
  }

  /** `text` with the byte at the k-th mark replaced by the k-th rendered value. */
  ghost function Substitute<A>(text: Text, marks: seq<nat>, vals: seq<A>, render: A -> Text): Text
    requires MarksIn(marks, text) && |marks| <= |vals|
    decreases |marks|
  {
    if marks == [] then text
    else
      var n := |marks| - 1;
      Substitute(text[..marks[n]], marks[..n], vals, render) + render(vals[n]) + text[marks[n] + 1..]
  }

  lemma {:induction false} EmittedMarks(ts: seq<Token>)
    ensures MarksIn(Marks(ts), Emit(ts))
  {
    if ts == [] {
    } else {
      EmittedMarks(ts[..|ts| - 1]);
    }
  }

  lemma SubstituteExtra<A>(text: Text, marks: seq<nat>, vals: seq<A>, more: seq<A>, render: A -> Text)
    requires MarksIn(marks, text) && |marks| <= |vals|
    ensures Substitute(text, marks, vals + more, render) == Substitute(text, marks, vals, render)
    decreases |marks|
  {
    if marks != [] {
      var n := |marks| - 1;
      SubstituteExtra(text[..marks[n]], marks[..n], vals, more, render);
    }
  }

  lemma SubstituteTail<A>(text: Text, tail: Text, marks: seq<nat>, vals: seq<A>, render: A -> Text)
    requires MarksIn(marks, text) && |marks| <= |vals|
    ensures MarksIn(marks, text + tail)
    ensures Substitute(text + tail, marks, vals, render) == Substitute(text, marks, vals, render) + tail
  {
    if marks != [] {
      var p := marks[|marks| - 1];
      assert (text + tail)[..p] == text[..p];
      assert (text + tail)[p + 1..] == text[p + 1..] + tail;
    }
  }

  /** Filling the emitted marks of `ts` gives the filled original. */
  ghost predicate MeaningKept<A>(ts: seq<Token>, args: seq<A>, render: A -> Text)
    requires AllInRange(ts, |args|)
  {
    && |Reorder(ts, args)| == |Marks(ts)|
    && MarksIn(Marks(ts), Emit(ts))
    && Substitute(Emit(ts), Marks(ts), Reorder(ts, args), render) == Fill(ts, args, render)
  }

  lemma MeaningOfMark<A>(front: seq<Token>, ds: Text, args: seq<A>, render: A -> Text)
    requires AllInRange(front + [Placeholder(ds)], |args|) && AllInRange(front, |args|)
    requires MeaningKept(front, args, render)
    ensures MeaningKept(front + [Placeholder(ds)], args, render)
  {
    hide DecimalValue;
    var ts := front + [Placeholder(ds)];
    assert ts[..|ts| - 1] == front && ts[|front|] == Placeholder(ds);
    EmittedMarks(ts);
    var v := args[DecimalValue(ds) - 1];
    var p := |Emit(front)|;
    assert Emit(ts) == Emit(front) + [QUESTION] && Marks(ts) == Marks(front) + [p];
    assert Reorder(ts, args) == Reorder(front, args) + [v];
    SubstituteExtra(Emit(front), Marks(front), Reorder(front, args), [v], render);
    SubstituteLast(Emit(front), Marks(front), Reorder(front, args) + [v], render);
  }

  lemma MarkAdded(text: Text, marks: seq<nat>)
    requires MarksIn(marks, text)
    ensures MarksIn(marks + [|text|], text + [QUESTION])
  {
  }

  lemma SubstituteLast<A>(text: Text, marks: seq<nat>, vals: seq<A>, render: A -> Text)
    requires MarksIn(marks, text) && |marks| < |vals|
    ensures MarksIn(marks + [|text|], text + [QUESTION])
    ensures Substitute(text + [QUESTION], marks + [|text|], vals, render)
            == Substitute(text, marks, vals, render) + render(vals[|marks|])
  {
    var t, m := text + [QUESTION], marks + [|text|];
    assert t[..|text|] == text && t[|text| + 1..] == [] && m[..|marks|] == marks;
    hide MarksIn;
    assert MarksIn(m, t) by { MarkAdded(text, marks); }
    var done := Substitute(text, marks, vals, render) + render(vals[|marks|]);
    assert done + [] == done;
  }

  lemma MeaningOfText<A>(front: seq<Token>, t: Token, args: seq<A>, render: A -> Text)
    requires AllInRange(front + [t], |args|) && AllInRange(front, |args|) && !t.Placeholder?
    requires MeaningKept(front, args, render)
    ensures MeaningKept(front + [t], args, render)
  {
    var ts := front + [t];
    assert ts[..|ts| - 1] == front && ts[|front|] == t;
    var tail := if t.Plain? then [t.b] else t.text;
    SubstituteTail(Emit(front), tail, Marks(front), Reorder(front, args), render);
    assert Marks(ts) == Marks(front) && Reorder(ts, args) == Reorder(front, args);
    assert Emit(ts) == Emit(front) + tail && Fill(ts, args, render) == Fill(front, args, render) + tail;
  }

  /** Filling the k-th emitted `?` with the k-th returned argument is the same as
      filling every `$n` of the original with argument `n`. */
  lemma {:induction false} ConversionPreservesMeaning<A>(ts: seq<Token>, args: seq<A>, render: A -> Text)
    requires AllInRange(ts, |args|)
    ensures |Reorder(ts, args)| == |Marks(ts)|
    ensures MarksIn(Marks(ts), Emit(ts))
    ensures Substitute(Emit(ts), Marks(ts), Reorder(ts, args), render) == Fill(ts, args, render)
  {
    if ts == [] {
    } else {
      var front, last := ts[..|ts| - 1], ts[|ts| - 1];
      assert ts == front + [last];
      ConversionPreservesMeaning(front, args, render);
      if last.Placeholder? {
        MeaningOfMark(front, last.digits, args, render);
      } else {
        MeaningOfText(front, last, args, render);
      }
    }
  }

  lemma {:induction false} SourceConcat(a: seq<Token>, b: seq<Token>)
    ensures Source(a + b) == Source(a) + Source(b)
  {
    hide Spelled;
    if b == [] {
      assert a + b == a;
    } else {
      var front, x := b[..|b| - 1], Spelled(b[|b| - 1]);
      SourceConcat(a, front);
      assert (a + b)[..|a + b| - 1] == a + front;
      assert Source(a) + (Source(front) + x) == Source(a) + Source(front) + x;
    }
  }

  lemma {:induction false} EmitConcat(a: seq<Token>, b: seq<Token>)
    ensures Emit(a + b) == Emit(a) + Emit(b)
  {
    hide Written;
    if b == [] {
      assert a + b == a;
    } else {
      var front, w := b[..|b| - 1], Written(b[|b| - 1]);
      EmitConcat(a, front);
      assert (a + b)[..|a + b| - 1] == a + front;
      assert Emit(a) + (Emit(front) + w) == Emit(a) + Emit(front) + w;
    }
  }

  /** The first token and the position after it. */
  function TokenAt(s: Text, i: nat): (r: (Token, nat))
    requires i < |s|
    ensures i < r.1 <= |s|
    ensures Lex(s, i) == [r.0] + Lex(s, r.1)
  {
    LexStep(s, i);
    hide LiteralEnd, Lex;
    var e := LiteralEnd(s, i);
    if e > i then (Literal(s[i..e]), e)
    else if PlaceholderAt(s, i) then (Placeholder(s[i + 1..DigitRun(s, i + 1)]), DigitRun(s, i + 1))
    else (Plain(s[i]), i + 1)
  }

  /** No byte is lost or invented by lexing. */
  lemma {:induction false} TokensCoverText(s: Text, i: nat)
    requires i <= |s|
    ensures Source(Lex(s, i)) == s[i..]
    decreases |s| - i
  {
    hide Lex, TokenAt, Source;
    if i == |s| {
      LexEnd(s);
      assert Source([]) == [] by { SourceNone(); }
    } else {
      var (t, j) := TokenAt(s, i);
      TokensCoverText(s, j);
      SourceConcat([t], Lex(s, j));
      TokenCovers(s, i);
      assert s[i..] == s[i..j] + s[j..];
    }
  }

  lemma SourceNone()
    ensures Source([]) == []
  {
  }

  lemma TokenCovers(s: Text, i: nat)
    requires i < |s|
    ensures Source([TokenAt(s, i).0]) == s[i..TokenAt(s, i).1]
  {
    hide Lex, LiteralEnd, DigitRun;
    var (t, j) := TokenAt(s, i);
    assert [t][..0] == [] && [t][0] == t;
    assert t.Placeholder? ==> [DOLLAR] + t.digits == s[i..j];
    assert t.Plain? ==> [t.b] == s[i..j];
  }

  lemma {:induction false} EmitWithoutPlaceholders(ts: seq<Token>)
    requires !HasPlaceholder(ts)
    ensures Emit(ts) == Source(ts) && Marks(ts) == []
  {
    if ts == [] {
    } else {
      assert forall k :: 0 <= k < |ts| ==> !ts[k].Placeholder?;
      EmitWithoutPlaceholders(ts[..|ts| - 1]);
    }
  }

  /** What the two converted results mean: filling the returned text with the
      returned arguments gives the original query filled with the original
      arguments, whichever branch the conversion returned from. */
  lemma ConvertedMeans<A>(sql: Text, args: seq<A>, text: Text, ordered: seq<A>, render: A -> Text)
    requires AllInRange(Lex(sql, 0), |args|)
    requires if HasPlaceholder(Lex(sql, 0)) then text == Emit(Lex(sql, 0)) && ordered == Reorder(Lex(sql, 0), args)
             else text == sql && ordered == args
    ensures var marks := Marks(Lex(sql, 0));
            && MarksIn(marks, text) && |marks| <= |ordered|
            && Substitute(text, marks, ordered, render) == Fill(Lex(sql, 0), args, render)
  {
    var ts := Lex(sql, 0);
    ConversionPreservesMeaning(ts, args, render);
    if !HasPlaceholder(ts) {
      EmitWithoutPlaceholders(ts);
      TokensCoverText(sql, 0);
    }
  }
}
