/** Reconnecting with Last-Event-ID: what a client receives over any number of
    connections, each cut anywhere. */
module SseResume {
  import opened Bytes
  import opened JournalSource
  import opened SseFraming
  import opened SseRoundTrip

  /** strconv.ParseUint(v, 10, 64) */
  function ParseUint(v: Text): Option<nat> {
    if v != [] && AllDigits(v) && DecimalValue(v) < TWO_64 then Some(DecimalValue(v)) else None
  }

  /** The sequence a stream starts from, given the Last-Event-ID header; 0 asks for
      the backfill window. */
  function StartFrom(header: Text): nat {
    if header == [] then 0
    else
      match ParseUint(header)
      case Some(n) => if n < TWO_64 - 1 then n + 1 else 0
      case None => 0
  }

  /** An event source between connections: its last event ID string and all events. */
  datatype Client = Client(lastEventId: Text, received: seq<Event>)

  /** What the handler writes on one connection, and after how many bytes it is cut. */
  datatype Connection = Connection(items: seq<Item>, cut: nat)

  ghost predicate CutInRange(conn: Connection) { conn.cut <= |StreamBytes(conn.items)| }

  /** The client after one connection. Section 9.2.6 starts each stream with an empty
      last event ID buffer; with `carry` it starts with the client's last event ID. */
  function Connect(carry: bool, client: Client, conn: Connection): Client
    requires CutInRange(conn)
  {
    var start := Fresh(if carry then client.lastEventId else [], client.lastEventId);
    var p := Read(start, StreamBytes(conn.items)[..conn.cut]);
    Client(p.lastEventId, client.received + p.events)
  }

  /** The items that arrived whole. */
  ghost function Arrived(conn: Connection): seq<Item> {
    conn.items[..Complete(conn.items, conn.cut)]
  }

  /** The connection does not make the client forget its last event ID: a heartbeat
      with no record before or after it would, unless the buffer is carried over. */
  ghost predicate KeepsId(carry: bool, client: Client, conn: Connection) {
    carry || client.lastEventId == [] || Arrived(conn) == [] || Records(Arrived(conn)) != []
  }

  /** What one connection does: the whole records become events, and the id is that
      of the last one; it is the old one otherwise exactly when it is kept. */
  lemma ConnectDelivers(carry: bool, client: Client, conn: Connection)
    requires CutInRange(conn)
    ensures Connect(carry, client, conn).received == client.received + EventsOf(Records(Arrived(conn)))
    ensures Records(Arrived(conn)) != [] || KeepsId(carry, client, conn) ==>
              Connect(carry, client, conn).lastEventId == LastId(Records(Arrived(conn)), client.lastEventId)
    ensures !KeepsId(carry, client, conn) ==> Connect(carry, client, conn).lastEventId == []
  {
    hide Read, StreamBytes, Complete, AfterItems, EventsOf, Records;
    var start := Fresh(if carry then client.lastEventId else [], client.lastEventId);
    CutAnywhere(start, conn.items, conn.cut);
    AfterItemsEvents(start, Arrived(conn));
    assert Arrived(conn) == [] ==> Records(Arrived(conn)) == [] by { RecordsNone(); }
  }

  lemma RecordsNone()
    ensures Records([]) == []
  {
  }

  ghost predicate AllCut(conns: seq<Connection>) { forall k :: 0 <= k < |conns| ==> CutInRange(conns[k]) }

  ghost function ClientAfter(carry: bool, conns: seq<Connection>): Client
    requires AllCut(conns)
  {
    if conns == [] then Client([], [])
    else Connect(carry, ClientAfter(carry, conns[..|conns| - 1]), conns[|conns| - 1])
  }

  /** Each connection serves what the source delivers from the requested start, and
      heartbeats only if the handler's ticker runs. */
  ghost predicate Served(log: seq<Msg>, replay: nat, carry: bool, ticker: bool, conns: seq<Connection>)
    requires AllCut(conns)
  {
    conns == [] ||
    var front, conn := conns[..|conns| - 1], conns[|conns| - 1];
    && Served(log, replay, carry, ticker, front)
    && Honours(log, replay, StartFrom(ClientAfter(carry, front).lastEventId), Records(conn.items))
    && (Heartbeat in conn.items ==> ticker)
  }

  /** Without heartbeats, or with a carried buffer, no connection loses the id. */
  lemma IdIsKept(carry: bool, client: Client, conn: Connection)
    requires carry || Heartbeat !in conn.items
    ensures KeepsId(carry, client, conn)
  {
    hide Complete, StreamBytes;
    var items := Arrived(conn);
    if items == [] {
    } else {
      assert items[|items| - 1] in conn.items;
    }
  }

  lemma {:induction false} RecordsPrefix(items: seq<Item>, c: nat)
    requires c <= |items|
    ensures |Records(items[..c])| <= |Records(items)|
    ensures Records(items[..c]) == Records(items)[..|Records(items[..c])|]
    decreases |items|
  {
    if c == |items| {
      assert items[..c] == items;
    } else {
      var front := items[..|items| - 1];
      RecordsPrefix(front, c);
      assert items[..c] == front[..c];
    }
  }

  lemma {:induction false} EventsConcat(a: seq<Msg>, b: seq<Msg>)
    ensures EventsOf(a + b) == EventsOf(a) + EventsOf(b)
  {
    hide EventOf;
    if b == [] {
      assert a + b == a;
    } else {
      var front, e := b[..|b| - 1], EventOf(b[|b| - 1]);
      EventsConcat(a, front);
      assert (a + b)[..|a + b| - 1] == a + front;
      assert EventsOf(a) + (EventsOf(front) + [e]) == EventsOf(a) + EventsOf(front) + [e];
    }
  }

  lemma ResumesAfter(m: Msg)
    requires m.seqNo < TWO_64
    ensures StartFrom(Decimal(m.seqNo)) == if m.seqNo < TWO_64 - 1 then m.seqNo + 1 else 0
  {
  }

  /** A header that is not a decimal number below 2^64 - 1 asks for the backfill window,
      and a number below it for the sequence after it. */
  lemma HeaderAsks(header: Text)
    ensures var digits := header != [] && forall k :: 0 <= k < |header| ==> 48 <= header[k] <= 57;
            && (!digits ==> StartFrom(header) == 0)
            && (digits ==> AllDigits(header) && StartFrom(header) ==
                           if DecimalValue(header) < 0xffff_ffff_ffff_ffff then DecimalValue(header) + 1 else 0)
  {
  }

  lemma SegmentPrefix(log: seq<Msg>, i: nat, ms: seq<Msg>, n: nat)
    requires Segment(log, i, ms) && n <= |ms|
    ensures Segment(log, i, ms[..n])
  {
  }

  /** Whatever was received so far, the next connection goes on right behind it. */
  lemma NextConnection(log: seq<Msg>, replay: nat, ms: seq<Msg>, served: seq<Msg>, n: nat)
    requires Increasing(log) && BelowMax(log)
    requires GapFree(log, ms) && Honours(log, replay, StartFrom(LastId(ms, [])), served) && n <= |served|
    ensures GapFree(log, ms + served[..n])
  {
    hide StartFrom;
    var part := served[..n];
    if ms == [] {
      assert StartFrom([]) == 0 by { NoHeader(); }
      var len: nat :| len <= |log| && Segment(log, WindowStart(len, replay), served);
      SegmentPrefix(log, WindowStart(len, replay), served, n);
      assert ms + part == part;
    } else {
      var i: nat :| Segment(log, i, ms);
      var last := i + |ms| - 1;
      assert ms[|ms| - 1] == log[last];
      ResumesAfter(log[last]);
      FirstAfter(log, last);
      SegmentPrefix(log, i + |ms|, served, n);
      SegmentConcat(log, i, ms, part);
    }
  }

  lemma NoHeader()
    ensures StartFrom([]) == 0
  {
  }

  /** The events of some gap-free, duplicate-free run of the stream. */
  ghost predicate GapFreeEvents(log: seq<Msg>, received: seq<Event>) {
    exists ms :: GapFree(log, ms) && received == EventsOf(ms)
  }

  /** Every sequence can be resumed after. */
  ghost predicate BelowMax(log: seq<Msg>) { forall k :: 0 <= k < |log| ==> log[k].seqNo < TWO_64 - 1 }

  lemma {:induction false} RunIsGapFree(log: seq<Msg>, replay: nat, carry: bool, ticker: bool, conns: seq<Connection>)
    requires Increasing(log) && BelowMax(log) && (carry || !ticker)
    requires AllCut(conns) && Served(log, replay, carry, ticker, conns)
    ensures exists ms ::
              && GapFree(log, ms)
              && ClientAfter(carry, conns) == Client(LastId(ms, []), EventsOf(ms))
  {
    hide Connect, Honours, StartFrom, CutInRange, EventsOf, Records, KeepsId, LastId, GapFree, Increasing, BelowMax;
    if conns == [] {
      NothingReceived(log);
      assert ClientAfter(carry, conns) == Client(LastId([], []), EventsOf([]));
    } else {
      var front, conn := conns[..|conns| - 1], conns[|conns| - 1];
      RunIsGapFree(log, replay, carry, ticker, front);
      var client := ClientAfter(carry, front);
      var ms :| GapFree(log, ms) && client == Client(LastId(ms, []), EventsOf(ms));
      var more := Records(Arrived(conn));
      IdIsKept(carry, client, conn);
      ConnectDelivers(carry, client, conn);
      RecordsPrefix(conn.items, Complete(conn.items, conn.cut));
      NextConnection(log, replay, ms, Records(conn.items), |more|);
      EventsConcat(ms, more);
      LastOfBoth(ms, more);
      assert ClientAfter(carry, conns) == Client(LastId(ms + more, []), EventsOf(ms + more));
    }
  }

  lemma LastOfBoth(ms: seq<Msg>, more: seq<Msg>)
    ensures LastId(ms + more, []) == LastId(more, LastId(ms, []))
  {
    hide Decimal;
    if more == [] {
      assert ms + more == ms;
    } else {
      assert (ms + more)[|ms + more| - 1] == more[|more| - 1];
    }
  }

  lemma NothingReceived(log: seq<Msg>)
    ensures GapFree(log, []) && EventsOf([]) == [] && LastId([], []) == []
  {
    assert Segment(log, 0, []);
  }

  lemma EventsNone()
    ensures EventsOf([]) == []
  {
  }

  /** Over every sequence of connections, cut anywhere, nothing is lost or repeated: if
      the reader carries its id buffer over or the ticker is off. */
  lemma ResumeLosesNothing(log: seq<Msg>, replay: nat, carry: bool, ticker: bool, conns: seq<Connection>)
    requires Increasing(log) && BelowMax(log) && (carry || !ticker)
    requires AllCut(conns) && Served(log, replay, carry, ticker, conns)
    ensures GapFreeEvents(log, ClientAfter(carry, conns).received)
  {
    hide Served, ClientAfter, GapFree, LastId, EventsOf, AllCut;
    RunIsGapFree(log, replay, carry, ticker, conns);
  }

  // ---------------------------------------------------------------------------
  // The runs that repeat a record.

  /** The items of a connection that sends just these records. */
  function AsItems(ms: seq<Msg>): seq<Item> {
    if ms == [] then [] else AsItems(ms[..|ms| - 1]) + [Record(ms[|ms| - 1])]
  }

  lemma {:induction false} RecordsOfItems(ms: seq<Msg>)
    ensures Records(AsItems(ms)) == ms && Heartbeat !in AsItems(ms) && (ms != [] ==> AsItems(ms) != [])
  {
    if ms == [] {
    } else {
      var front := AsItems(ms[..|ms| - 1]);
      RecordsOfItems(ms[..|ms| - 1]);
      assert AsItems(ms)[..|front|] == front;
    }
  }

  /** A connection that is not cut. */
  ghost function Whole(items: seq<Item>): (conn: Connection)
    ensures CutInRange(conn) && Arrived(conn) == items
  {
    assert items[..|items|] == items;
    Connection(items, |StreamBytes(items)|)
  }

  lemma {:induction false} EventAt(ms: seq<Msg>, k: nat)
    requires k < |ms|
    ensures |EventsOf(ms)| == |ms| && EventsOf(ms)[k] == EventOf(ms[k])
  {
    hide EventOf;
    if |ms| == 1 {
    } else {
      EventAt(ms[..|ms| - 1], if k < |ms| - 1 then k else 0);
    }
  }

  lemma EventsDiffer(log: seq<Msg>, ms: seq<Msg>, k: nat)
    requires Increasing(log) && GapFree(log, ms) && 0 < k < |ms|
    ensures EventOf(ms[0]) != EventOf(ms[k])
  {
    var i: nat :| Segment(log, i, ms);
    assert ms[0] == log[i] && ms[k] == log[i + k];
    assert DecimalValue(Decimal(ms[0].seqNo)) != DecimalValue(Decimal(ms[k].seqNo));
  }

  /** What was delivered twice is no run of the stream. */
  lemma TwiceIsNotGapFree(log: seq<Msg>, w: seq<Msg>)
    requires Increasing(log) && w != []
    ensures !GapFreeEvents(log, EventsOf(w + w))
  {
    hide EventsOf, EventOf, GapFree;
    var two := w + w;
    EventAt(two, 0);
    EventAt(two, |w|);
    forall ms: seq<Msg> | GapFree(log, ms)
      ensures EventsOf(two) != EventsOf(ms)
    {
      if EventsOf(two) == EventsOf(ms) {
        SameLength(two, ms);
        EventAt(ms, 0);
        EventAt(ms, |w|);
        EventsDiffer(log, ms, |w|);
      }
    }
  }

  lemma SameLength(a: seq<Msg>, b: seq<Msg>)
    requires EventsOf(a) == EventsOf(b)
    ensures |a| == |b|
  {
    hide EventOf;
    if a != [] {
      EventAt(a, 0);
    }
    if b != [] {
      EventAt(b, 0);
    }
  }

  lemma OneMoreConnection(log: seq<Msg>, replay: nat, carry: bool, ticker: bool, front: seq<Connection>,
                          conn: Connection)
    requires AllCut(front) && Served(log, replay, carry, ticker, front) && CutInRange(conn)
    requires Honours(log, replay, StartFrom(ClientAfter(carry, front).lastEventId), Records(conn.items))
    requires Heartbeat in conn.items ==> ticker
    ensures AllCut(front + [conn]) && Served(log, replay, carry, ticker, front + [conn])
    ensures ClientAfter(carry, front + [conn]) == Connect(carry, ClientAfter(carry, front), conn)
  {
    hide CutInRange, Honours, StartFrom, Records, Connect;
    assert (front + [conn])[..|front|] == front;
  }

  /** The first connection of a run that delivers `w`. */
  lemma FirstDelivery(log: seq<Msg>, replay: nat, carry: bool, ticker: bool, w: seq<Msg>)
    requires Honours(log, replay, 0, w)
    ensures var conns := [Whole(AsItems(w))];
            && AllCut(conns) && Served(log, replay, carry, ticker, conns)
            && ClientAfter(carry, conns) == Client(LastId(w, []), EventsOf(w))
  {
    hide Connect, Honours, StartFrom, EventsOf, Records, LastId;
    var conn := Whole(AsItems(w));
    RecordsOfItems(w);
    assert StartFrom([]) == 0 by { NoHeader(); }
    OneMoreConnection(log, replay, carry, ticker, [], conn);
    assert [] + [conn] == [conn];
    ConnectDelivers(carry, Client([], []), conn);
    assert [] + EventsOf(w) == EventsOf(w);
  }

  /** A client that was left without a usable id is given the window `w` once more. */
  lemma DeliveredAgain(log: seq<Msg>, replay: nat, carry: bool, ticker: bool, front: seq<Connection>, w: seq<Msg>)
    requires Increasing(log) && w != [] && Honours(log, replay, 0, w)
    requires AllCut(front) && Served(log, replay, carry, ticker, front)
    requires ClientAfter(carry, front).received == EventsOf(w) && StartFrom(ClientAfter(carry, front).lastEventId) == 0
    ensures var conns := front + [Whole(AsItems(w))];
            && AllCut(conns) && Served(log, replay, carry, ticker, conns)
            && !GapFreeEvents(log, ClientAfter(carry, conns).received)
  {
    hide Connect, Honours, StartFrom, EventsOf, Records, LastId, GapFreeEvents;
    var conn := Whole(AsItems(w));
    RecordsOfItems(w);
    OneMoreConnection(log, replay, carry, ticker, front, conn);
    ConnectDelivers(carry, ClientAfter(carry, front), conn);
    EventsConcat(w, w);
    TwiceIsNotGapFree(log, w);
  }

  lemma WindowEndingAt(log: seq<Msg>, replay: nat, k: nat)
    requires k < |log| && replay >= 1
    ensures WindowStart(k + 1, replay) <= k && Honours(log, replay, 0, log[WindowStart(k + 1, replay)..k + 1])
  {
    assert Segment(log, WindowStart(k + 1, replay), log[WindowStart(k + 1, replay)..k + 1]);
  }

  /** With the ticker on and a buffer that starts empty: a record, a connection cut
      after its first heartbeat, and the record comes again. */
  lemma HeartbeatRepeats(log: seq<Msg>, replay: nat) returns (conns: seq<Connection>)
    requires Increasing(log) && log != [] && replay >= 1 && log[0].seqNo < TWO_64 - 1
    ensures AllCut(conns) && Served(log, replay, false, true, conns)
    ensures !GapFreeEvents(log, ClientAfter(false, conns).received)
  {
    hide Connect, Honours, StartFrom, EventsOf, Records, GapFreeEvents, Served, AllCut, ClientAfter, Decimal;
    var w := log[0..1];
    WindowEndingAt(log, replay, 0);
    FirstDelivery(log, replay, false, true, w);
    var one, beat := [Whole(AsItems(w))], Whole([Heartbeat]);
    assert Records([Heartbeat]) == [] by { RecordsOfBeat(); }
    ResumesAfter(log[0]);
    FirstAfter(log, 0);
    assert Honours(log, replay, log[0].seqNo + 1, []) by { NothingYet(log, replay, 0); }
    OneMoreConnection(log, replay, false, true, one, beat);
    var client := ClientAfter(false, one);
    ConnectDelivers(false, client, beat);
    assert StartFrom([]) == 0 by { NoHeader(); }
    assert EventsOf([]) == [] by { EventsNone(); }
    assert client.received + [] == client.received;
    DeliveredAgain(log, replay, false, true, one + [beat], w);
    conns := one + [beat] + [Whole(AsItems(w))];
  }

  lemma RecordsOfBeat()
    ensures Records([Heartbeat]) == []
  {
    assert [Heartbeat][..0] == [];
  }

  /** A source with nothing after a record yet. */
  lemma NothingYet(log: seq<Msg>, replay: nat, k: nat)
    requires Increasing(log) && k < |log|
    ensures Honours(log, replay, log[k].seqNo + 1, [])
  {
    FirstAfter(log, k);
  }

  /** The largest uint64 cannot be resumed after: it comes again. */
  lemma LastSequenceRepeats(log: seq<Msg>, replay: nat, carry: bool, ticker: bool, k: nat)
    returns (conns: seq<Connection>)
    requires Increasing(log) && replay >= 1 && k < |log| && log[k].seqNo == TWO_64 - 1
    ensures AllCut(conns) && Served(log, replay, carry, ticker, conns)
    ensures !GapFreeEvents(log, ClientAfter(carry, conns).received)
  {
    hide Connect, Honours, StartFrom, EventsOf, Records, GapFreeEvents, Served, AllCut, ClientAfter, Decimal;
    WindowEndingAt(log, replay, k);
    var w := log[WindowStart(k + 1, replay)..k + 1];
    FirstDelivery(log, replay, carry, ticker, w);
    assert w[|w| - 1] == log[k];
    ResumesAfter(log[k]);
    DeliveredAgain(log, replay, carry, ticker, [Whole(AsItems(w))], w);
    conns := [Whole(AsItems(w))] + [Whole(AsItems(w))];
  }

  /** Resuming by Last-Event-ID loses and repeats nothing, in every honestly served
      run, exactly when the buffer is carried over or the ticker is off, and no record
      has the largest uint64 as its sequence. */
  lemma ResumeExactIff(log: seq<Msg>, replay: nat, carry: bool, ticker: bool)
    requires Increasing(log) && log != [] && replay >= 1
    ensures (carry || !ticker) && BelowMax(log) <==>
            forall conns :: AllCut(conns) && Served(log, replay, carry, ticker, conns) ==>
              GapFreeEvents(log, ClientAfter(carry, conns).received)
  {
    hide Served, ClientAfter, GapFreeEvents, AllCut;
    if !BelowMax(log) {
      var k :| 0 <= k < |log| && !(log[k].seqNo < TWO_64 - 1);
      var conns := LastSequenceRepeats(log, replay, carry, ticker, k);
    } else if !carry && ticker {
      var conns := HeartbeatRepeats(log, replay);
    } else {
      forall conns | AllCut(conns) && Served(log, replay, carry, ticker, conns)
        ensures GapFreeEvents(log, ClientAfter(carry, conns).received)
      {
        ResumeLosesNothing(log, replay, carry, ticker, conns);
      }
    }
  }
}
