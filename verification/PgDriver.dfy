/** What a driver that fills `?` marks makes of the converted text: it sees only that
    text, so it lexes it again and counts the question marks outside literals. */
module PgDriver {
  import opened Bytes
  import opened PgLexer
  import opened PgPlaceholders
  import opened PgRelex

  /** Where the tokens have a question mark outside every literal. */
  ghost function Questions(ts: seq<Token>): seq<nat> {
    if ts == [] then []
    else Questions(ts[..|ts| - 1]) +
         if ts[|ts| - 1] == Plain(QUESTION) then [|Source(ts[..|ts| - 1])|] else []
  }

  /** The marks the driver finds in a text. */
  ghost function DriverMarks(text: Text): seq<nat> { Questions(Lex(text, 0)) }

  lemma {:induction false} MarkedSnoc(ts: seq<Token>)
    requires ts != []
    ensures Marked(ts) == Marked(ts[..|ts| - 1]) + [Mark(ts[|ts| - 1])]
  {
    hide Mark;
    if |ts| == 1 {
      assert ts[..0] == [] && ts[1..] == [];
    } else {
      var rest, front, last := ts[1..], ts[..|ts| - 1], Mark(ts[|ts| - 1]);
      MarkedSnoc(rest);
      assert rest[..|rest| - 1] == front[1..];
      assert [Mark(ts[0])] + (Marked(front[1..]) + [last]) == [Mark(ts[0])] + Marked(front[1..]) + [last];
    }
  }

  /** The marked tokens spell the converted text. */
  lemma {:induction false} MarkedSpells(ts: seq<Token>)
    ensures Source(Marked(ts)) == Emit(ts)
  {
    if ts == [] {
    } else {
      var front := ts[..|ts| - 1];
      MarkedSnoc(ts);
      MarkedSpells(front);
      assert Marked(ts)[..|Marked(front)|] == Marked(front);
    }
  }

  /** The driver finds the emitted marks and the query's own question marks. */
  lemma {:induction false} QuestionsOfMarked(ts: seq<Token>)
    ensures |Questions(Marked(ts))| >= |Marks(ts)|
    ensures Plain(QUESTION) in ts ==> |Questions(Marked(ts))| > |Marks(ts)|
    ensures Plain(QUESTION) !in ts ==> Questions(Marked(ts)) == Marks(ts)
  {
    hide Emit, Source;
    if ts == [] {
    } else {
      var front, last := ts[..|ts| - 1], ts[|ts| - 1];
      assert ts == front + [last];
      MarkedSnoc(ts);
      MarkedSpells(front);
      QuestionsOfMarked(front);
      assert Marked(ts)[..|Marked(front)|] == Marked(front);
    }
  }

  /** On hazard-free text the driver finds exactly the emitted marks if and only if the
      query has no question mark of its own outside literals. */
  lemma DriverFindsMarks(s: Text)
    requires HazardFree(s, 0)
    ensures DriverMarks(Emit(Lex(s, 0))) == Marks(Lex(s, 0)) <==> Plain(QUESTION) !in Lex(s, 0)
  {
    hide Lex, Emit, HazardFree, Questions, Marks, Marked;
    RelexStable(s);
    QuestionsOfMarked(Lex(s, 0));
  }

  /** A hazard need not move a mark: `$1$2` is not hazard-free, and the driver finds
      the one emitted mark all the same. */
  lemma HazardMayKeepMarks()
    ensures var s: Text := [DOLLAR, 49, DOLLAR, 50];
            !HazardFree(s, 0) && DriverMarks(Emit(Lex(s, 0))) == Marks(Lex(s, 0)) == [0]
  {
    hide Lex, HazardFree, Emit;
    var s: Text := [DOLLAR, 49, DOLLAR, 50];
    AdjacentPlaceholders();
    RelexStable(s);
    var ts, us := [Placeholder([49]), Plain(DOLLAR), Plain(50)], [Plain(QUESTION), Placeholder([50])];
    assert ts[..2][..1] == ts[..1] && ts[..1][..0] == [] && us[..1][..0] == [];
    assert Marked(ts)[1] == Plain(DOLLAR);
    assert Source([]) == [] by { SourceNone(); }
    assert Emit([]) == [] by { EmitNone(); }
    assert Marks(ts[..1]) == [0] && Marks(ts[..2]) == [0];
    assert Questions(us[..1]) == [0];
  }

  lemma EmitNone()
    ensures Emit([]) == []
  {
  }

  /** So for those queries the driver, filling what it finds with the returned
      arguments, produces the original filled with the original arguments. */
  lemma DriverFills<A>(s: Text, args: seq<A>, render: A -> Text)
    requires HazardFree(s, 0) && Plain(QUESTION) !in Lex(s, 0) && AllInRange(Lex(s, 0), |args|)
    ensures var text, ordered := Emit(Lex(s, 0)), Reorder(Lex(s, 0), args);
            && MarksIn(DriverMarks(text), text) && |DriverMarks(text)| == |ordered|
            && Substitute(text, DriverMarks(text), ordered, render) == Fill(Lex(s, 0), args, render)
  {
    hide Lex, Emit, HazardFree, DriverMarks, Marks, Reorder, Substitute, Fill, MarksIn, AllInRange;
    DriverFindsMarks(s);
    ConversionPreservesMeaning(Lex(s, 0), args, render);
  }
}
