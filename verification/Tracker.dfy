/** The bounded newest-first ring of recent events, and the loop that keeps it
    current across dropped subscriptions. */
module Tracker {
  import opened Bytes
  import opened StableSort
  import opened JournalSource

  const DEFAULT_TRACKER_SIZE: nat := 500

  datatype Config<!T> = Config(less: Option<(T, T) -> bool>, decode: Msg -> Option<T>, max: nat)

  /** The size cap NewTracker applies. */
  function Capped(max: int): (n: nat)
    ensures n >= 1 && n == if max > 0 then max else 500
  {
    if max <= 0 then DEFAULT_TRACKER_SIZE else max
  }

  ghost predicate ConfigOk<T(!new)>(cfg: Config<T>) {
    cfg.max >= 1 && (cfg.less.Some? ==> StrictWeakOrder(cfg.less.value))
  }

  // ---------------------------------------------------------------------------
  // What one record does to the ring.

  function Inserted<T>(cfg: Config<T>, ring: seq<T>, v: T): seq<T> {
    Take(if cfg.less.Some? then Sort(cfg.less.value, ring + [v]) else [v] + ring, cfg.max)
  }

  function LastSeq(ms: seq<Msg>): nat {
    if ms == [] then 0 else ms[|ms| - 1].seqNo
  }

  /** The ring after the records `ms`, starting empty. */
  function RingAfter<T>(cfg: Config<T>, ms: seq<Msg>): seq<T> {
    if ms == [] then []
    else
      var front, m := ms[..|ms| - 1], ms[|ms| - 1];
      var ring := if m.seqNo < LastSeq(front) then [] else RingAfter(cfg, front);
      match cfg.decode(m) case Some(v) => Inserted(cfg, ring, v) case None => ring
  }

  lemma RingStep<T>(cfg: Config<T>, ms: seq<Msg>, m: Msg)
    ensures LastSeq(ms + [m]) == m.seqNo
    ensures var ring := if m.seqNo < LastSeq(ms) then [] else RingAfter(cfg, ms);
            RingAfter(cfg, ms + [m]) == match cfg.decode(m) case Some(v) => Inserted(cfg, ring, v) case None => ring
  {
    assert (ms + [m])[..|ms|] == ms;
  }

  /** How Run returns: the context's error, the subscription's error, or none. */
  datatype RunEnd = Cancelled | SubscribeFailed | SourceClosed

  class Tracker<T(!new)> {
    const cfg: Config<T>
    var ring: seq<T>
    ghost var history: seq<Msg>

    ghost predicate Valid()
      reads this
    {
      ConfigOk(cfg) && ring == RingAfter(cfg, history)
    }

    constructor (less: Option<(T, T) -> bool>, decode: Msg -> Option<T>, max: int)
      requires less.Some? ==> StrictWeakOrder(less.value)
      ensures Valid() && history == [] && ring == []
      ensures cfg.less == less && cfg.decode == decode && cfg.max == Capped(max)
    {
      cfg := Config(less, decode, Capped(max));
      ring, history := [], [];
    }

    method Reset()
      modifies `ring
      ensures ring == []
    {
      ring := [];
    }

    method Insert(v: T)
      modifies `ring
      ensures ring == Inserted(cfg, old(ring), v)
    {
      if cfg.less.Some? {
        ring := Sort(cfg.less.value, ring + [v]);
      } else {
        ring := [v] + ring;
      }
      if |ring| > cfg.max {
        ring := ring[..cfg.max];
      }
    }

    /** Drains the records of one subscription into the ring. */
    method Ingest(ch: seq<Msg>, from: nat) returns (lastSeq: nat)
      requires Valid() && from == LastSeq(history)
      modifies this
      ensures Valid() && history == old(history) + ch && lastSeq == LastSeq(history)
    {
      hide RingAfter, Inserted, LastSeq, ConfigOk;
      lastSeq := from;
      for i := 0 to |ch|
        invariant Valid() && history == old(history) + ch[..i] && lastSeq == LastSeq(history)
      {
        var m := ch[i];
        if m.seqNo < lastSeq {
          Reset();
        }
        lastSeq := m.seqNo;
        var v := cfg.decode(m);
        if v.Some? {
          Insert(v.value);
        }
        RingStep(cfg, history, m);
        history := history + [m];
        assert ch[..i + 1] == ch[..i] + [m];
      }
    }

    method Snapshot() returns (out: seq<T>)
      requires Valid()
      ensures out == RingAfter(cfg, history)
    {
      out := ring;
    }

    /** Subscribes up to `attempts` times before the context ends. Without a retry
        interval the first closed or failed subscription ends the run, unless the
        context ends first: while its channel is drained if `interrupted`. */
    method Run(serve: Serve, attempts: nat, retry: bool, interrupted: bool) returns (used: nat, end: RunEnd)
      requires Valid() && history == []
      modifies this
      ensures end == if retry || attempts == 0 then Cancelled
                     else if serve(0, cfg.max, 0).None? then SubscribeFailed
                     else if interrupted then Cancelled else SourceClosed
      ensures used <= attempts && (retry ==> used == attempts) && (!retry && attempts > 0 ==> used == 1)
      ensures Valid() && history == Ingested(serve, cfg.max, used)
    {
      hide RingAfter, ConfigOk;
      var lastSeq := 0;
      used, end := 0, Cancelled;
      while used < attempts
        invariant used <= attempts && (used > 0 ==> retry) && end == Cancelled
        invariant Valid() && history == Ingested(serve, cfg.max, used) && lastSeq == LastSeq(history)
      {
        var replay, from := cfg.max, 0;
        if lastSeq > 0 {
          from := (lastSeq + 1) % TWO_64;
        }
        var ch := serve(used, replay, from);
        if ch.Some? {
          lastSeq := Ingest(ch.value, lastSeq);
        }
        used := used + 1;
        if !retry {
          if ch.None? {
            end := SubscribeFailed;
          } else if !interrupted {
            end := SourceClosed;
          }
          return;
        }
      }
    }
  }

  // ---------------------------------------------------------------------------
  // The ring is the head of the sorted history.

  /** Index of the last record that went backwards, or 0. */
  ghost function LastReset(ms: seq<Msg>): (r: nat)
    ensures r <= |ms|
  {
    if ms == [] then 0
    else if ms[|ms| - 1].seqNo < LastSeq(ms[..|ms| - 1]) then |ms| - 1
    else LastReset(ms[..|ms| - 1])
  }

  /** The values decoded from `ms`, in arrival order. */
  ghost function Kept<T>(cfg: Config<T>, ms: seq<Msg>): seq<T> {
    if ms == [] then []
    else Kept(cfg, ms[..|ms| - 1]) +
         match cfg.decode(ms[|ms| - 1]) case Some(v) => [v] case None => []
  }

  function Reversed<T>(s: seq<T>): seq<T> {
    if s == [] then [] else [s[|s| - 1]] + Reversed(s[..|s| - 1])
  }

  /** All values, newest first. */
  ghost function Ranked<T>(cfg: Config<T>, vals: seq<T>): seq<T> {
    if cfg.less.Some? then Sort(cfg.less.value, vals) else Reversed(vals)
  }

  /** Inserting into the truncated ring loses nothing the full ranking would show. */
  lemma InsertKeepsHead<T(!new)>(cfg: Config<T>, vals: seq<T>, v: T)
    requires ConfigOk(cfg)
    ensures Inserted(cfg, Take(Ranked(cfg, vals), cfg.max), v) == Take(Ranked(cfg, vals + [v]), cfg.max)
  {
    var all, n := vals + [v], cfg.max;
    assert all[..|all| - 1] == vals && all[|vals|] == v;
    var head := Take(Ranked(cfg, vals), n);
    if cfg.less.Some? {
      var less := cfg.less.value;
      SortSorts(less, vals);
      SortOfSorted(less, head);
      assert (head + [v])[..|head|] == head;
      TakeInsert(less, Sort(less, vals), v, n);
    } else {
      assert Take([v] + head, n) == Take([v] + Reversed(vals), n);
    }
  }

  /** For every ingest history the ring is the first max of everything kept since
      the last reset, newest first. */
  lemma {:induction false} RingIsHeadOfHistory<T(!new)>(cfg: Config<T>, ms: seq<Msg>)
    requires ConfigOk(cfg)
    ensures RingAfter(cfg, ms) == Take(Ranked(cfg, Kept(cfg, ms[LastReset(ms)..])), cfg.max)
  {
    hide Sort, Inserted, Reversed, Insert;
    if ms == [] {
      RankedNone(cfg);
    } else {
      var front, m := ms[..|ms| - 1], ms[|ms| - 1];
      var since := front[LastReset(ms)..];
      assert ms[LastReset(ms)..] == since + [m];
      var ring := if m.seqNo < LastSeq(front) then [] else RingAfter(cfg, front);
      assert ring == Take(Ranked(cfg, Kept(cfg, since)), cfg.max) by {
        if m.seqNo < LastSeq(front) {
          assert since == [];
          RankedNone(cfg);
        } else {
          RingIsHeadOfHistory(cfg, front);
        }
      }
      KeptStep(cfg, since, m);
      if cfg.decode(m).Some? {
        InsertKeepsHead(cfg, Kept(cfg, since), cfg.decode(m).value);
      } else {
        assert Kept(cfg, since + [m]) == Kept(cfg, since);
      }
    }
  }

  lemma RankedNone<T>(cfg: Config<T>)
    ensures Ranked(cfg, []) == []
  {
  }

  lemma KeptStep<T>(cfg: Config<T>, ms: seq<Msg>, m: Msg)
    ensures Kept(cfg, ms + [m]) == Kept(cfg, ms) + match cfg.decode(m) case Some(v) => [v] case None => []
  {
    assert (ms + [m])[..|ms|] == ms;
  }

  /** With an order, the ring lists the first max positions of the one stable order. */
  lemma RingIsStableTop<T(!new)>(cfg: Config<T>, ms: seq<Msg>, order: seq<nat>)
    requires ConfigOk(cfg) && cfg.less.Some?
    requires StableOrder(cfg.less.value, Kept(cfg, ms[LastReset(ms)..]), order)
    ensures RingAfter(cfg, ms) == At(Kept(cfg, ms[LastReset(ms)..]), Take(order, cfg.max))
  {
    hide RingAfter, Kept, LastReset, Sort, Positions;
    var less, vals := cfg.less.value, Kept(cfg, ms[LastReset(ms)..]);
    RingIsHeadOfHistory(cfg, ms);
    SortIsStable(less, vals);
    SameOrder(less, vals, order, Positions(less, vals));
  }

  lemma SameOrder<T(!new)>(less: (T, T) -> bool, vals: seq<T>, o1: seq<nat>, o2: seq<nat>)
    requires StrictWeakOrder(less) && StableOrder(less, vals, o1) && StableOrder(less, vals, o2)
    ensures o1 == o2
  {
    hide Before;
    forall a
      ensures a in o1 <==> a in o2
    {
      if a in o1 {
        var k :| 0 <= k < |o1| && o1[k] == a;
      }
      if a in o2 {
        var k :| 0 <= k < |o2| && o2[k] == a;
      }
    }
    StableOrderUnique(less, vals, o1, o2);
  }

  // ---------------------------------------------------------------------------
  // Resuming after drops.

  /** A source: attempt number, replay window and resume point to the records of
      that subscription, or None when subscribing fails. */
  type Serve = (nat, nat, nat) -> Option<seq<Msg>>

  function ResumePoint(last: nat): nat {
    if last > 0 then (last + 1) % TWO_64 else 0
  }

  /** Everything ingested in the first n attempts. */
  ghost function Ingested(serve: Serve, max: nat, n: nat): seq<Msg> {
    if n == 0 then []
    else
      var before := Ingested(serve, max, n - 1);
      match serve(n - 1, max, ResumePoint(LastSeq(before)))
      case Some(ms) => before + ms
      case None => before
  }

  ghost predicate Honest(serve: Serve, log: seq<Msg>, max: nat) {
    forall k: nat, from: nat :: serve(k, max, from).Some? ==> Honours(log, max, from, serve(k, max, from).value)
  }

  /** Every sequence can be resumed after: it is neither 0 nor the largest uint64. */
  ghost predicate Resumable(log: seq<Msg>) {
    forall k :: 0 <= k < |log| ==> 1 <= log[k].seqNo < TWO_64 - 1
  }

  /** For every pattern of drops and failed subscribes the ingested records are a
      gap-free, duplicate-free run of the stream. */
  lemma {:induction false} ResumeIsGapFree(serve: Serve, log: seq<Msg>, max: nat, n: nat)
    requires Increasing(log) && Resumable(log) && Honest(serve, log, max)
    ensures GapFree(log, Ingested(serve, max, n))
  {
    if n == 0 {
      assert Segment(log, 0, []);
    } else {
      ResumeIsGapFree(serve, log, max, n - 1);
      var before := Ingested(serve, max, n - 1);
      var from := ResumePoint(LastSeq(before));
      if serve(n - 1, max, from).Some? {
        var ms := serve(n - 1, max, from).value;
        assert Honours(log, max, from, ms);
        ContinueRun(log, max, before, ms);
      }
    }
  }

  lemma ContinueRun(log: seq<Msg>, max: nat, before: seq<Msg>, ms: seq<Msg>)
    requires Increasing(log) && Resumable(log) && GapFree(log, before)
    requires Honours(log, max, ResumePoint(LastSeq(before)), ms)
    ensures GapFree(log, before + ms)
  {
    if before == [] {
      assert before + ms == ms;
      var len: nat :| len <= |log| && Segment(log, WindowStart(len, max), ms);
    } else {
      var i: nat :| Segment(log, i, before);
      var last := i + |before| - 1;
      assert before[|before| - 1] == log[last];
      FirstAfter(log, last);
      SegmentConcat(log, i, before, ms);
    }
  }

  lemma TwiceRepeats(log: seq<Msg>, w: seq<Msg>, i: nat)
    requires Increasing(log) && w != []
    ensures !Segment(log, i, w + w)
  {
    var two := w + w;
    assert two[0] == two[|w|];
    if i + |two| <= |log| {
      var x := log[i..i + |two|];
      assert x[0] == log[i] && x[|w|] == log[i + |w|];
    }
  }

  /** A record with sequence 0 or 2^64-1 cannot be resumed after: the resume point
      computed from it is 0, so a drop right after it delivers it again. */
  lemma UnresumableRepeats(log: seq<Msg>, k: nat, max: nat) returns (serve: Serve)
    requires Increasing(log) && k < |log| && max >= 1
    requires log[k].seqNo == 0 || log[k].seqNo == TWO_64 - 1
    ensures Honest(serve, log, max) && !GapFree(log, Ingested(serve, max, 2))
  {
    var start := WindowStart(k + 1, max);
    var w := log[start..k + 1];
    serve := (attempt: nat, replay: nat, from: nat) => if from == 0 then Some(w) else None;
    assert Honest(serve, log, max) by {
      assert Segment(log, start, w);
    }
    assert w[|w| - 1] == log[k] && ResumePoint(LastSeq(w)) == 0;
    assert Ingested(serve, max, 1) == w by {
      assert Ingested(serve, max, 0) == [];
    }
    assert Ingested(serve, max, 2) == w + w;
    forall i: nat
      ensures !Segment(log, i, w + w)
    {
      TwiceRepeats(log, w, i);
    }
  }

  lemma {:induction false} NeverBackwards(log: seq<Msg>, i: nat, ms: seq<Msg>)
    requires Increasing(log) && Segment(log, i, ms)
    ensures LastReset(ms) == 0
  {
    if ms == [] {
    } else {
      var front := ms[..|ms| - 1];
      assert Segment(log, i, front);
      NeverBackwards(log, i, front);
      if front != [] {
        assert front[|front| - 1] == log[i + |front| - 1] && ms[|ms| - 1] == log[i + |front|];
      }
    }
  }

  /** On a stream that is not reset the ring ranks the whole run, across all drops. */
  lemma RingSurvivesDrops<T(!new)>(cfg: Config<T>, serve: Serve, log: seq<Msg>, n: nat)
    requires ConfigOk(cfg)
    requires Increasing(log) && Resumable(log) && Honest(serve, log, cfg.max)
    ensures exists i: nat ::
              && Segment(log, i, Ingested(serve, cfg.max, n))
              && RingAfter(cfg, Ingested(serve, cfg.max, n)) ==
                 Take(Ranked(cfg, Kept(cfg, Ingested(serve, cfg.max, n))), cfg.max)
  {
    ResumeIsGapFree(serve, log, cfg.max, n);
    var ms := Ingested(serve, cfg.max, n);
    var i: nat :| Segment(log, i, ms);
    NeverBackwards(log, i, ms);
    RingIsHeadOfHistory(cfg, ms);
    assert ms[0..] == ms;
  }

  /** Resuming is exact for the streams whose every sequence can be resumed after,
      and for no others. */
  lemma ResumableIffGapFree(log: seq<Msg>, max: nat)
    requires Increasing(log) && max >= 1
    ensures Resumable(log) <==>
            forall serve: Serve, n: nat :: Honest(serve, log, max) ==> GapFree(log, Ingested(serve, max, n))
  {
    if Resumable(log) {
      forall serve: Serve, n: nat | Honest(serve, log, max)
        ensures GapFree(log, Ingested(serve, max, n))
      {
        ResumeIsGapFree(serve, log, max, n);
      }
    } else {
      var k :| 0 <= k < |log| && !(1 <= log[k].seqNo < TWO_64 - 1);
      var serve := UnresumableRepeats(log, k, max);
    }
  }
}
