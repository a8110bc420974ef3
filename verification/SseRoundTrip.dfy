/** Reading what the handler wrote: one event per record, and nothing from an
    incomplete one, wherever the connection is cut. */
module SseRoundTrip {
  import opened Bytes
  import opened JournalSource
  import opened SseFraming

  // ---------------------------------------------------------------------------
  // Payload lines.

  /** The lines of a text under the standard's line endings: CR LF, LF and CR. */
  function StandardLines(t: Text): (ls: seq<Text>)
    ensures |ls| >= 1
  {
    if t == [] then [[]]
    else if |t| >= 2 && t[0] == RETURN && t[1] == NEWLINE then [[]] + StandardLines(t[2..])
    else if t[0] == RETURN || t[0] == NEWLINE then [[]] + StandardLines(t[1..])
    else
      var rest := StandardLines(t[1..]);
      [[t[0]] + rest[0]] + rest[1..]
  }

  /** The two replacements frame exactly the lines a reader of the payload sees. */
  lemma {:induction false} NormalisedLines(t: Text)
    ensures SplitLines(Normalised(t)) == StandardLines(t)
  {
    if t == [] {
    } else {
      var n := Normalised(t);
      if |t| >= 2 && t[0] == RETURN && t[1] == NEWLINE {
        NormalisedLines(t[2..]);
        assert ReplaceCrLf(t)[1..] == ReplaceCrLf(t[2..]);
        assert n[1..] == Normalised(t[2..]);
      } else {
        NormalisedLines(t[1..]);
        assert ReplaceCrLf(t)[1..] == ReplaceCrLf(t[1..]);
        assert n[1..] == Normalised(t[1..]);
      }
    }
  }

  lemma {:induction false} NoCr(t: Text)
    ensures RETURN !in ReplaceCr(t)
  {
    if t == [] {
    } else {
      NoCr(t[1..]);
    }
  }

  ghost predicate AllNoBreak(ls: seq<Text>) { forall k :: 0 <= k < |ls| ==> NoBreak(ls[k]) }

  lemma {:induction false} SplitNoBreak(t: Text)
    requires RETURN !in t
    ensures AllNoBreak(SplitLines(t))
  {
    if t == [] {
    } else {
      SplitNoBreak(t[1..]);
    }
  }

  /** The lines, each ended by a line feed. */
  function Joined(ls: seq<Text>): Text {
    if ls == [] then [] else Joined(ls[..|ls| - 1]) + ls[|ls| - 1] + [NEWLINE]
  }

  lemma {:induction false} JoinedFirst(l: Text, ls: seq<Text>)
    ensures Joined([l] + ls) == l + [NEWLINE] + Joined(ls)
  {
    var all := [l] + ls;
    if ls == [] {
      assert all[..0] == [] && all[0] == l;
    } else {
      var front, last := ls[..|ls| - 1], ls[|ls| - 1];
      JoinedFirst(l, front);
      assert all[..|all| - 1] == [l] + front && all[|all| - 1] == last;
      assert l + [NEWLINE] + Joined(front) + last + [NEWLINE] == l + [NEWLINE] + (Joined(front) + last + [NEWLINE]);
    }
  }

  lemma JoinedNone()
    ensures Joined([]) == []
  {
  }

  lemma {:induction false} JoinSplit(t: Text)
    ensures Joined(SplitLines(t)) == t + [NEWLINE]
  {
    hide Joined;
    if t == [] {
      JoinedFirst([], []);
      assert Joined([]) == [] by { JoinedNone(); }
      assert SplitLines(t) == [[]] + [];
    } else {
      var rest := SplitLines(t[1..]);
      JoinSplit(t[1..]);
      assert t == [t[0]] + t[1..];
      if t[0] == NEWLINE {
        JoinedFirst([], rest);
      } else {
        var more := Joined(rest[1..]);
        JoinedFirst([t[0]] + rest[0], rest[1..]);
        JoinedFirst(rest[0], rest[1..]);
        assert rest == [rest[0]] + rest[1..];
        assert [t[0]] + rest[0] + [NEWLINE] + more == [t[0]] + (rest[0] + [NEWLINE] + more);
      }
    }
  }

  // ---------------------------------------------------------------------------
  // Whole items.

  lemma {:induction false} ReadDataLines(p: Parser, ls: seq<Text>)
    requires p.line == [] && !p.half && AllNoBreak(ls)
    ensures Read(p, DataLines(ls)) == p.(data := p.data + Joined(ls))
  {
    hide ProcessLine, ReadByte, Read, FieldLine;
    if ls == [] {
      ReadNothing(p);
      assert p.data + Joined(ls) == p.data;
    } else {
      var front, l := ls[..|ls| - 1], ls[|ls| - 1];
      ReadDataLines(p, front);
      ReadConcat(p, DataLines(front), FieldLine(DATA_NAME, l));
      ReadField(p.(data := p.data + Joined(front)), DATA_NAME, l);
      assert p.data + Joined(front) + l + [NEWLINE] == p.data + Joined(ls);
    }
  }

  lemma DigitsNoBreak(ds: Text)
    requires AllDigits(ds)
    ensures NoBreak(ds) && 0 !in ds
  {
    forall b | b in ds
      ensures IsDigit(b)
    {
      var k :| 0 <= k < |ds| && ds[k] == b;
    }
  }

  /** The parser after a record's event. */
  function AfterRecord(p: Parser, m: Msg): Parser {
    var id := Decimal(m.seqNo);
    p.(idBuffer := id, lastEventId := id, events := p.events + [EventOf(m)])
  }

  lemma ReadEvent(p: Parser, m: Msg)
    requires Idle(p)
    ensures Read(p, EventBytes(m)) == AfterRecord(p, m)
  {
    hide ProcessLine, ReadByte, Read, DataLines, Joined, SplitLines, Normalised, Decimal, FieldLine;
    var id, text := Decimal(m.seqNo), Normalised(m.data);
    var ls := SplitLines(text);
    var head, body := FieldLine(ID_NAME, id), DataLines(ls);
    DigitsNoBreak(id);
    ReadField(p, ID_NAME, id);
    var p1 := p.(idBuffer := id);
    assert Read(p, head) == p1;
    NormalisedNoCr(m.data);
    SplitNoBreak(text);
    ReadDataLines(p1, ls);
    JoinSplit(text);
    var p2 := p1.(data := text + [NEWLINE]);
    assert Read(p1, body) == p2;
    ReadConcat(p, head, body);
    ReadConcat(p, head + body, [NEWLINE]);
    ReadOne(p2, NEWLINE);
    BlankLine(p2, text);
  }

  lemma NormalisedNoCr(t: Text)
    ensures RETURN !in Normalised(t)
  {
    NoCr(ReplaceCrLf(t));
  }

  lemma BlankLine(p: Parser, text: Text)
    requires p.line == [] && !p.half && p.kind == [] && p.data == text + [NEWLINE]
    ensures ReadByte(p, NEWLINE)
            == p.(data := [], lastEventId := p.idBuffer, events := p.events + [Event([], text, p.idBuffer)])
  {
    assert p.data[..|text|] == text;
  }

  /** A heartbeat is no event, but its blank line sets the last event ID string. */
  lemma ReadPing(p: Parser)
    requires Idle(p)
    ensures ItemBytes(Heartbeat) == [58, 32, 112, 105, 110, 103, 10, 10]
    ensures Read(p, ItemBytes(Heartbeat)) == p.(lastEventId := p.idBuffer)
  {
    var bytes := PING_LINE + [NEWLINE];
    assert ItemBytes(Heartbeat) == bytes + [NEWLINE];
    ReadLine(p, PING_LINE);
    assert ProcessLine(p, PING_LINE) == p;
    ReadConcat(p, bytes, [NEWLINE]);
    ReadOne(p, NEWLINE);
  }

  /** The parser after whole items. */
  function AfterItems(p: Parser, items: seq<Item>): Parser {
    if items == [] then p
    else
      var q := AfterItems(p, items[..|items| - 1]);
      match items[|items| - 1]
      case Record(m) => AfterRecord(q, m)
      case Heartbeat => q.(lastEventId := q.idBuffer)
  }

  lemma {:induction false} ReadStream(p: Parser, items: seq<Item>)
    requires Idle(p)
    ensures Read(p, StreamBytes(items)) == AfterItems(p, items)
    ensures Idle(AfterItems(p, items))
  {
    hide EventBytes, Read;
    if items == [] {
      ReadNothing(p);
    } else {
      var front, last := items[..|items| - 1], items[|items| - 1];
      ReadStream(p, front);
      ReadConcat(p, StreamBytes(front), ItemBytes(last));
      var q := AfterItems(p, front);
      match last {
        case Record(m) => ReadEvent(q, m);
        case Heartbeat => ReadPing(q);
      }
    }
  }

  lemma ReadNothing(p: Parser)
    ensures Read(p, []) == p
  {
  }

  /** The records among the items, in order. */
  function Records(items: seq<Item>): seq<Msg> {
    if items == [] then []
    else Records(items[..|items| - 1]) + match items[|items| - 1] case Record(m) => [m] case Heartbeat => []
  }

  /** A record's event: its payload with normalised line ends, and its id. */
  function EventOf(m: Msg): Event { Event([], Normalised(m.data), Decimal(m.seqNo)) }

  /** One event per record. */
  function EventsOf(ms: seq<Msg>): seq<Event> {
    if ms == [] then [] else EventsOf(ms[..|ms| - 1]) + [EventOf(ms[|ms| - 1])]
  }

  lemma EventsOfMore(ms: seq<Msg>, m: Msg)
    ensures EventsOf(ms + [m]) == EventsOf(ms) + [EventOf(m)]
  {
    assert (ms + [m])[..|ms|] == ms;
  }

  /** The id of the last record, if any. */
  ghost function LastId(ms: seq<Msg>, otherwise: Text): Text {
    if ms == [] then otherwise else Decimal(ms[|ms| - 1].seqNo)
  }

  lemma {:induction false} AfterItemsEvents(p: Parser, items: seq<Item>)
    ensures var q := AfterItems(p, items);
            && q.events == p.events + EventsOf(Records(items))
            && q.idBuffer == LastId(Records(items), p.idBuffer)
            && q.lastEventId == LastId(Records(items), if items == [] then p.lastEventId else p.idBuffer)
  {
    hide Normalised, Decimal;
    if items == [] {
    } else {
      var front, last := items[..|items| - 1], items[|items| - 1];
      AfterItemsEvents(p, front);
      match last {
        case Record(m) => EventsOfMore(Records(front), m);
        case Heartbeat => assert Records(items) == Records(front);
      }
    }
  }

  /** For every sequence of records and heartbeats, reading the written bytes yields
      exactly one event per record. */
  lemma RoundTrip(idBuffer: Text, lastEventId: Text, items: seq<Item>)
    ensures Read(Fresh(idBuffer, lastEventId), StreamBytes(items)).events == EventsOf(Records(items))
  {
    hide Read, AfterItems, StreamBytes, EventsOf, Records;
    var p := Fresh(idBuffer, lastEventId);
    ReadStream(p, items);
    AfterItemsEvents(p, items);
  }

  // ---------------------------------------------------------------------------
  // Cut connections.

  /** No line of `t` is empty. */
  ghost predicate Dense(t: Text) {
    && RETURN !in t
    && (t != [] ==> t[0] != NEWLINE)
    && (forall i :: 0 <= i && i + 1 < |t| ==> !(t[i] == NEWLINE && t[i + 1] == NEWLINE))
  }

  lemma {:induction false} DenseDispatchesNothing(p: Parser, t: Text)
    requires p.line == [] && !p.half && Dense(t)
    ensures var q := Read(p, t);
            && q.events == p.events && q.lastEventId == p.lastEventId && !q.half
            && (q.line == [] <==> t == [] || t[|t| - 1] == NEWLINE)
  {
    hide ReadByte;
    if t == [] {
    } else {
      var front, b := t[..|t| - 1], t[|t| - 1];
      DenseDispatchesNothing(p, front);
      assert front != [] ==> front[|front| - 1] == t[|t| - 2];
      ByteDispatchesNothing(Read(p, front), b);
    }
  }

  /** A byte that ends no empty line dispatches nothing. */
  lemma ByteDispatchesNothing(p: Parser, b: byte)
    requires !p.half && b != RETURN && (b == NEWLINE ==> p.line != [])
    ensures var q := ReadByte(p, b);
            && q.events == p.events && q.lastEventId == p.lastEventId && !q.half
            && (q.line == [] <==> b == NEWLINE)
  {
    hide ColonAt;
  }

  lemma DenseConcat(a: Text, b: Text)
    requires Dense(a) && Dense(b)
    ensures Dense(a + b)
  {
  }

  lemma DenseField(name: Text, value: Text)
    requires name != [] && NoBreak(name) && NoBreak(value)
    ensures Dense(FieldLine(name, value))
  {
    var l := name + [COLON, SPACE] + value;
    assert NoBreak(l);
    assert FieldLine(name, value) == l + [NEWLINE];
    assert forall i :: 0 <= i < |l| ==> l[i] != NEWLINE;
  }

  lemma {:induction false} DenseData(ls: seq<Text>)
    requires AllNoBreak(ls)
    ensures Dense(DataLines(ls))
  {
    if ls == [] {
    } else {
      DenseData(ls[..|ls| - 1]);
      DenseField(DATA_NAME, ls[|ls| - 1]);
      DenseConcat(DataLines(ls[..|ls| - 1]), FieldLine(DATA_NAME, ls[|ls| - 1]));
    }
  }

  /** An item without its last byte has no blank line. */
  lemma DenseItem(it: Item)
    ensures |ItemBytes(it)| >= 1 && Dense(ItemBytes(it)[..|ItemBytes(it)| - 1])
  {
    hide DataLines, SplitLines, Normalised, Decimal, FieldLine, Dense;
    match it {
      case Record(m) =>
        var id, ls := Decimal(m.seqNo), SplitLines(Normalised(m.data));
        DigitsNoBreak(id);
        DenseField(ID_NAME, id);
        NormalisedNoCr(m.data);
        SplitNoBreak(Normalised(m.data));
        DenseData(ls);
        var body := FieldLine(ID_NAME, id) + DataLines(ls);
        DenseConcat(FieldLine(ID_NAME, id), DataLines(ls));
        assert ItemBytes(it) == body + [NEWLINE];
      case Heartbeat =>
        DensePing();
    }
  }

  lemma DensePing()
    ensures Dense(ItemBytes(Heartbeat)[..|ItemBytes(Heartbeat)| - 1])
  {
    var t: Text := [COLON, SPACE, 112, 105, 110, 103, NEWLINE];
    assert ItemBytes(Heartbeat) == t + [NEWLINE];
    assert Dense(t);
  }

  /** How many items the first k bytes hold completely. */
  ghost function Complete(items: seq<Item>, k: nat): (c: nat)
    ensures c <= |items|
  {
    if |StreamBytes(items)| <= k then |items|
    else Complete(items[..|items| - 1], k)
  }

  /** A cut leaves the parser as the complete items left it, but for what it holds
      of the next one: no event and no last event ID comes from a part of an item. */
  lemma {:induction false} CutAnywhere(p: Parser, items: seq<Item>, k: nat)
    requires Idle(p) && k <= |StreamBytes(items)|
    ensures var q := Read(p, StreamBytes(items)[..k]);
            var done := AfterItems(p, items[..Complete(items, k)]);
            q.events == done.events && q.lastEventId == done.lastEventId
  {
    hide Read, ItemBytes, AfterItems, Dense;
    var bytes := StreamBytes(items);
    if k == |bytes| {
      assert bytes[..k] == bytes && items[..|items|] == items;
      ReadStream(p, items);
    } else {
      var front, last := items[..|items| - 1], items[|items| - 1];
      var head := StreamBytes(front);
      var c := Complete(front, k);
      assert items[..c] == front[..c];
      if k <= |head| {
        assert bytes[..k] == head[..k];
        CutAnywhere(p, front, k);
      } else {
        var part := ItemBytes(last)[..k - |head|];
        assert bytes[..k] == head + part;
        assert front[..c] == front;
        CutInside(p, front, last, part);
      }
    }
  }

  lemma CutInside(p: Parser, front: seq<Item>, last: Item, part: Text)
    requires Idle(p) && |part| < |ItemBytes(last)| && part == ItemBytes(last)[..|part|]
    ensures var q := Read(p, StreamBytes(front) + part);
            var done := AfterItems(p, front);
            q.events == done.events && q.lastEventId == done.lastEventId
  {
    hide Read, ItemBytes, AfterItems;
    ReadStream(p, front);
    ReadConcat(p, StreamBytes(front), part);
    DenseItem(last);
    var whole := ItemBytes(last)[..|ItemBytes(last)| - 1];
    assert part == whole[..|part|];
    DensePrefix(whole, |part|);
    DenseDispatchesNothing(AfterItems(p, front), part);
  }

  lemma DensePrefix(t: Text, k: nat)
    requires Dense(t) && k <= |t|
    ensures Dense(t[..k])
  {
  }
}
