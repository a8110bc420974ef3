/** Writing journal records as Server-Sent Events, and reading them back as
    sections 9.2.5 and 9.2.6 of the WHATWG HTML Living Standard say. */
module SseFraming {
  import opened Bytes
  import opened JournalSource

  const ID_NAME: Text := [105, 100]
  const DATA_NAME: Text := [100, 97, 116, 97]
  const EVENT_NAME: Text := [101, 118, 101, 110, 116]

  /** `: ping` */
  const PING_LINE: Text := [COLON, SPACE, 112, 105, 110, 103]

  // ---------------------------------------------------------------------------
  // The printer.

  /** fmt's %d for an unsigned number. */
  function Decimal(n: nat): (ds: Text)
    ensures AllDigits(ds) && |ds| >= 1 && DecimalValue(ds) == n
    ensures n > 0 ==> ds[0] != 48
  {
    if n < 10 then
      var ds: Text := [48 + n];
      assert ds[..0] == [];
      ds
    else
      var front := Decimal(n / 10);
      var ds: Text := front + [48 + n % 10];
      assert ds[..|ds| - 1] == front;
      ds
  }

  /** strings.ReplaceAll(t, "\r\n", "\n") */
  function ReplaceCrLf(t: Text): Text {
    if t == [] then []
    else if |t| >= 2 && t[0] == RETURN && t[1] == NEWLINE then [NEWLINE] + ReplaceCrLf(t[2..])
    else [t[0]] + ReplaceCrLf(t[1..])
  }

  /** strings.ReplaceAll(t, "\r", "\n") */
  function ReplaceCr(t: Text): Text {
    if t == [] then [] else [if t[0] == RETURN then NEWLINE else t[0]] + ReplaceCr(t[1..])
  }

  function Normalised(t: Text): Text { ReplaceCr(ReplaceCrLf(t)) }

  /** strings.SplitSeq(t, "\n") */
  function SplitLines(t: Text): (ls: seq<Text>)
    ensures |ls| >= 1
  {
    if t == [] then [[]]
    else
      var rest := SplitLines(t[1..]);
      if t[0] == NEWLINE then [[]] + rest else [[t[0]] + rest[0]] + rest[1..]
  }

  /** A field line as the handler writes it. */
  function FieldLine(name: Text, value: Text): Text { name + [COLON, SPACE] + value + [NEWLINE] }

  function DataLines(ls: seq<Text>): Text {
    if ls == [] then [] else DataLines(ls[..|ls| - 1]) + FieldLine(DATA_NAME, ls[|ls| - 1])
  }

  function EventBytes(m: Msg): Text {
    FieldLine(ID_NAME, Decimal(m.seqNo)) + DataLines(SplitLines(Normalised(m.data))) + [NEWLINE]
  }

  /** What the event loop sends: a record, or a heartbeat comment. */
  datatype Item = Record(msg: Msg) | Heartbeat

  function ItemBytes(it: Item): Text {
    match it
    case Record(m) => EventBytes(m)
    case Heartbeat => PING_LINE + [NEWLINE, NEWLINE]
  }

  function StreamBytes(items: seq<Item>): Text {
    if items == [] then [] else StreamBytes(items[..|items| - 1]) + ItemBytes(items[|items| - 1])
  }

  lemma NothingSent(items: seq<Item>)
    ensures StreamBytes(items[..0]) == []
  {
  }

  lemma OneMoreSent(items: seq<Item>, i: nat)
    requires i < |items|
    ensures StreamBytes(items[..i + 1]) == StreamBytes(items[..i]) + ItemBytes(items[i])
  {
    assert items[..i + 1][..i] == items[..i];
  }

  class ResponseWriter {
    var out: Text

    constructor ()
      ensures out == []
    {
      out := [];
    }

    method WriteEvent(m: Msg)
      modifies this
      ensures out == old(out) + EventBytes(m)
    {
      hide FieldLine, SplitLines, Normalised, Decimal;
      var head := FieldLine(ID_NAME, Decimal(m.seqNo));
      out := out + head;
      var lines := SplitLines(Normalised(m.data));
      for i := 0 to |lines|
        invariant out == old(out) + head + DataLines(lines[..i])
      {
        out := out + FieldLine(DATA_NAME, lines[i]);
        assert lines[..i + 1][..i] == lines[..i];
      }
      assert lines[..|lines|] == lines;
      out := out + [NEWLINE];
    }

    /** The event loop, one ticker or message case per item. */
    method Stream(items: seq<Item>)
      modifies this
      ensures out == old(out) + StreamBytes(items)
    {
      hide EventBytes, StreamBytes;
      assert StreamBytes(items[..0]) == [] by { NothingSent(items); }
      for i := 0 to |items|
        invariant out == old(out) + StreamBytes(items[..i])
      {
        match items[i] {
          case Record(m) => WriteEvent(m);
          case Heartbeat => out := out + (PING_LINE + [NEWLINE, NEWLINE]);
        }
        OneMoreSent(items, i);
      }
      assert items[..|items|] == items;
    }
  }

  // ---------------------------------------------------------------------------
  // The reader.

  datatype Event = Event(kind: Text, data: Text, lastEventId: Text)

  /** The parser of one stream and the last event ID string of its event source.
      `half` records a CR whose LF may still follow. */
  datatype Parser = Parser(line: Text, half: bool, data: Text, kind: Text, idBuffer: Text,
                           lastEventId: Text, events: seq<Event>)

  function Fresh(idBuffer: Text, lastEventId: Text): Parser {
    Parser([], false, [], [], idBuffer, lastEventId, [])
  }

  /** Dispatch the event. */
  function Dispatch(p: Parser): Parser {
    var q := p.(lastEventId := p.idBuffer, data := [], kind := []);
    if p.data == [] then q
    else
      var n := |p.data| - 1;
      q.(events := p.events + [Event(p.kind, if p.data[n] == NEWLINE then p.data[..n] else p.data, p.idBuffer)])
  }

  /** Process the field. */
  function ProcessField(p: Parser, name: Text, value: Text): Parser {
    if name == EVENT_NAME then p.(kind := value)
    else if name == DATA_NAME then p.(data := p.data + value + [NEWLINE])
    else if name == ID_NAME then if 0 in value then p else p.(idBuffer := value)
    else p
  }

  /** Index of the first colon, or the length. */
  function ColonAt(l: Text): (k: nat)
    ensures k <= |l|
  {
    if l == [] || l[0] == COLON then 0 else 1 + ColonAt(l[1..])
  }

  function ProcessLine(p: Parser, l: Text): Parser {
    if l == [] then Dispatch(p)
    else
      var k := ColonAt(l);
      if k == 0 then p
      else if k == |l| then ProcessField(p, l, [])
      else
        var v := l[k + 1..];
        ProcessField(p, l[..k], if v != [] && v[0] == SPACE then v[1..] else v)
  }

  /** Reading one byte: lines end with CR LF, LF or CR. */
  function ReadByte(p: Parser, b: byte): Parser {
    if b == NEWLINE && p.half then p.(half := false)
    else if b == NEWLINE || b == RETURN then ProcessLine(p.(line := [], half := b == RETURN), p.line)
    else p.(line := p.line + [b], half := false)
  }

  function Read(p: Parser, t: Text): Parser {
    if t == [] then p else ReadByte(Read(p, t[..|t| - 1]), t[|t| - 1])
  }

  lemma {:induction false} ReadConcat(p: Parser, a: Text, b: Text)
    ensures Read(p, a + b) == Read(Read(p, a), b)
  {
    if b == [] {
      assert a + b == a;
    } else {
      ReadConcat(p, a, b[..|b| - 1]);
      assert (a + b)[..|a + b| - 1] == a + b[..|b| - 1];
    }
  }

  predicate NoBreak(t: Text) { NEWLINE !in t && RETURN !in t }

  /** Between lines and between events. */
  predicate Idle(p: Parser) { p.line == [] && !p.half && p.data == [] && p.kind == [] }

  lemma {:induction false} ReadText(p: Parser, t: Text)
    requires NoBreak(t) && !p.half
    ensures Read(p, t) == p.(line := p.line + t)
  {
    if t == [] {
    } else {
      ReadText(p, t[..|t| - 1]);
      assert p.line + t[..|t| - 1] + [t[|t| - 1]] == p.line + t;
    }
  }

  lemma ReadLine(p: Parser, t: Text)
    requires NoBreak(t) && p.line == [] && !p.half
    ensures Read(p, t + [NEWLINE]) == ProcessLine(p, t)
  {
    hide ProcessLine, Read;
    ReadConcat(p, t, [NEWLINE]);
    ReadText(p, t);
    var q := Read(p, t);
    assert q.line == t;
    ReadOne(q, NEWLINE);
    assert q.(line := [], half := false) == p;
  }

  lemma ReadOne(p: Parser, b: byte)
    ensures Read(p, [b]) == ReadByte(p, b)
  {
    assert [b][..0] == [] && [b][0] == b;
  }

  lemma {:induction false} ColonAfter(name: Text, rest: Text)
    requires COLON !in name
    ensures ColonAt(name + [COLON] + rest) == |name|
  {
    var l := name + [COLON] + rest;
    if name == [] {
    } else {
      ColonAfter(name[1..], rest);
      assert l[1..] == name[1..] + [COLON] + rest;
    }
  }

  /** A field line the handler writes is read back as that field. */
  lemma ReadField(p: Parser, name: Text, value: Text)
    requires p.line == [] && !p.half && name != []
    requires NoBreak(name) && NoBreak(value) && COLON !in name
    ensures Read(p, FieldLine(name, value)) == ProcessField(p, name, value)
  {
    hide ProcessField, Read, Dispatch, ColonAt;
    var l := name + [COLON, SPACE] + value;
    ReadLine(p, l);
    ColonAfter(name, [SPACE] + value);
    assert l == name + [COLON] + ([SPACE] + value);
    assert l[..|name|] == name && l[|name| + 1..] == [SPACE] + value;
  }
}
