/** The hot-reload machine of one TLS input: re-read when the mtimes change, keep
    the last good value when a re-read fails. */
module FileReloader {
  import opened Bytes

  /** The mtime of each backing file, in file order. */
  type Stamp = seq<int>

  datatype Content<+V, +E> = Good(val: V) | Bad(err: E)

  /** What reading yields: a function of the mtimes, and one result while some file
      cannot be stat'ed. One call's stat and read see the same files. */
  datatype World<!V, !E> = World(content: Stamp -> Content<V, E>, missing: Content<V, E>)

  /** One call: what stat sees (None when it fails), whether the gate is skipped, the
      clock when a failure is recorded and when the kept value is judged, and MaxStale. */
  datatype Call = Call(stat: Option<Stamp>, forced: bool, failClock: int, keptClock: int, maxStale: int)

  datatype Failure<+E> = ReadFailed(err: E) | KeptTooLong(latest: Option<E>)

  /** The returned value (None for the zero value) and error. */
  datatype Outcome<+V, +E> = Outcome(val: Option<V>, err: Option<Failure<E>>)

  function ReadAt<V, E>(w: World<V, E>, stat: Option<Stamp>): Content<V, E> {
    match stat case Some(s) => w.content(s) case None => w.missing
  }

  // ---------------------------------------------------------------------------
  // The gated machine.

  datatype State<+V, +E> = State(val: Option<V>, loaded: bool, loadedAt: Stamp, failedAt: Stamp,
                                 statFailed: bool, failSince: Option<int>, failErr: Option<E>)

  /** The files are unchanged since the last load attempt. */
  predicate Settled<V, E>(st: State<V, E>, stat: Option<Stamp>) {
    st.loaded &&
    match stat
    case None => st.statFailed
    case Some(s) => if st.failSince.None? then s == st.loadedAt else s == st.failedAt
  }

  /** The kept value, or the failure once failures have lasted longer than MaxStale. */
  function Kept<V, E>(val: Option<V>, failSince: Option<int>, failErr: Option<E>, now: int, maxStale: int)
    : Outcome<V, E>
  {
    if maxStale > 0 && failSince.Some? && now - failSince.value > maxStale
    then Outcome(None, Some(KeptTooLong(failErr)))
    else Outcome(val, None)
  }

  function KeptBy<V, E>(st: State<V, E>, c: Call): Outcome<V, E> {
    Kept(st.val, st.failSince, st.failErr, c.keptClock, c.maxStale)
  }

  function Failed<V, E>(st: State<V, E>, c: Call, e: E): State<V, E> {
    st.(failedAt := if c.stat.Some? then c.stat.value else [],
        statFailed := c.stat.None?,
        failSince := if st.failSince.None? then Some(c.failClock) else st.failSince,
        failErr := Some(e))
  }

  function Loaded<V, E>(st: State<V, E>, c: Call, v: V): State<V, E> {
    State(Some(v), true, if c.stat.Some? then c.stat.value else st.loadedAt, [], false, None, None)
  }

  /** One call of the gated machine. */
  function GatedGet<V, E>(w: World<V, E>, st: State<V, E>, c: Call): (State<V, E>, Outcome<V, E>) {
    if !c.forced && Settled(st, c.stat) then (st, KeptBy(st, c))
    else
      match ReadAt(w, c.stat)
      case Good(v) => (Loaded(st, c, v), Outcome(Some(v), None))
      case Bad(e) =>
        if !st.loaded then (st, Outcome(None, Some(ReadFailed(e))))
        else
          var next := Failed(st, c, e);
          var kept := KeptBy(next, c);
          (next, if c.forced then kept.(err := Some(ReadFailed(e))) else kept)
  }

  class FileValue<V(0), E(0)> {
    var val: Option<V>
    var loaded: bool
    var loadedAt: Stamp
    var failedAt: Stamp
    var statFailed: bool
    var failSince: Option<int>
    var failErr: Option<E>

    function View(): State<V, E>
      reads this
    {
      State(val, loaded, loadedAt, failedAt, statFailed, failSince, failErr)
    }

    constructor ()
      ensures View() == Unloaded()
    {
      val, loaded, loadedAt, failedAt := None, false, [], [];
      statFailed, failSince, failErr := false, None, None;
    }

    method Get(w: World<V, E>, c: Call) returns (r: Outcome<V, E>)
      modifies this
      ensures (View(), r) == GatedGet(w, old(View()), c)
    {
      if !c.forced && Settled(View(), c.stat) {
        return Kept(val, failSince, failErr, c.keptClock, c.maxStale);
      }
      match ReadAt(w, c.stat) {
        case Bad(e) =>
          if !loaded {
            return Outcome(None, Some(ReadFailed(e)));
          }
          failedAt := if c.stat.Some? then c.stat.value else [];
          statFailed := c.stat.None?;
          if failSince.None? {
            failSince := Some(c.failClock);
          }
          failErr := Some(e);
          var kept := Kept(val, failSince, failErr, c.keptClock, c.maxStale);
          if c.forced {
            return kept.(err := Some(ReadFailed(e)));
          }
          return kept;
        case Good(v) =>
          val, loaded := Some(v), true;
          failSince, failErr, statFailed := None, None, false;
          failedAt := [];
          if c.stat.Some? {
            loadedAt := c.stat.value;
          }
          return Outcome(Some(v), None);
      }
    }
  }

  // ---------------------------------------------------------------------------
  // The reference: a machine without a gate, which re-reads on every call.

  datatype Plain<+V, +E> = Plain(val: Option<V>, loaded: bool, failSince: Option<int>, failErr: Option<E>)

  function PlainGet<V, E>(w: World<V, E>, st: Plain<V, E>, c: Call): (Plain<V, E>, Outcome<V, E>) {
    match ReadAt(w, c.stat)
    case Good(v) => (Plain(Some(v), true, None, None), Outcome(Some(v), None))
    case Bad(e) =>
      if !st.loaded then (st, Outcome(None, Some(ReadFailed(e))))
      else
        var since := if st.failSince.None? then Some(c.failClock) else st.failSince;
        var kept := Kept(st.val, since, Some(e), c.keptClock, c.maxStale);
        (st.(failSince := since, failErr := Some(e)), if c.forced then kept.(err := Some(ReadFailed(e))) else kept)
  }

  function Unloaded<V, E>(): State<V, E> { State(None, false, [], [], false, None, None) }

  /** What the two machines share: value, start of the failure run, latest failure. */
  function Shared<V, E>(st: State<V, E>): Plain<V, E> {
    Plain(st.val, st.loaded, st.failSince, st.failErr)
  }

  ghost function GatedRun<V, E>(w: World<V, E>, calls: seq<Call>): (State<V, E>, seq<Outcome<V, E>>) {
    if calls == [] then (Unloaded(), [])
    else
      var (st, out) := GatedRun(w, calls[..|calls| - 1]);
      var (next, r) := GatedGet(w, st, calls[|calls| - 1]);
      (next, out + [r])
  }

  ghost function PlainRun<V, E>(w: World<V, E>, calls: seq<Call>): (Plain<V, E>, seq<Outcome<V, E>>) {
    if calls == [] then (Plain(None, false, None, None), [])
    else
      var (st, out) := PlainRun(w, calls[..|calls| - 1]);
      var (next, r) := PlainGet(w, st, calls[|calls| - 1]);
      (next, out + [r])
  }

  /** Every call sees `n` files, and there is at least one. */
  ghost predicate CallsOn(n: nat, calls: seq<Call>) {
    n >= 1 && forall k :: 0 <= k < |calls| && calls[k].stat.Some? ==> |calls[k].stat.value| == n
  }

  /** The gate is harmless: files that cannot be stat'ed cannot be read, or reading
      them yields the only value there is. */
  ghost predicate Gateable<V(!new), E(!new)>(w: World<V, E>, n: nat) {
    w.missing.Bad? || forall s: Stamp :: |s| == n && w.content(s).Good? ==> w.content(s) == w.missing
  }

  /** The mtimes the machine remembers stand for the value and the failure it keeps. */
  ghost predicate Remembers<V, E>(w: World<V, E>, n: nat, st: State<V, E>) {
    && (!st.loaded ==> st.failSince.None?)
    && (st.failSince.None? ==> !st.statFailed && st.failErr.None?)
    && (st.loadedAt != [] ==> |st.loadedAt| == n && w.content(st.loadedAt).Good?)
    && (st.loaded ==> st.val.Some?)
    && (st.loaded && st.failSince.None? && st.loadedAt != [] ==> w.content(st.loadedAt) == Good(st.val.value))
    && (st.failSince.Some? && st.statFailed ==>
          st.failedAt == [] && st.failErr.Some? && w.missing == Bad(st.failErr.value))
    && (st.failSince.Some? && !st.statFailed ==>
          |st.failedAt| == n && st.failErr.Some? && w.content(st.failedAt) == Bad(st.failErr.value))
  }

  lemma GatedStep<V(!new), E(!new)>(w: World<V, E>, n: nat, st: State<V, E>, c: Call)
    requires n >= 1 && (c.stat.Some? ==> |c.stat.value| == n)
    requires Gateable(w, n) && Remembers(w, n, st)
    ensures var (next, r) := GatedGet(w, st, c);
            Remembers(w, n, next) && (Shared(next), r) == PlainGet(w, Shared(st), c)
  {
  }

  /** For every sequence of calls, forced or not, the gated machine returns what the
      re-reading machine returns and keeps the same value and failure run. */
  lemma {:induction false} GateIsInvisible<V(!new), E(!new)>(w: World<V, E>, n: nat, calls: seq<Call>)
    requires Gateable(w, n) && CallsOn(n, calls)
    ensures Remembers(w, n, GatedRun(w, calls).0)
    ensures Shared(GatedRun(w, calls).0) == PlainRun(w, calls).0
    ensures GatedRun(w, calls).1 == PlainRun(w, calls).1
  {
    if calls == [] {
    } else {
      GateIsInvisible(w, n, calls[..|calls| - 1]);
      GatedStep(w, n, GatedRun(w, calls[..|calls| - 1]).0, calls[|calls| - 1]);
    }
  }

  /** When a read can succeed while stat fails and yields another value than some
      readable state of the files, the gate shows: that value stays after the files
      are back with the mtimes of the previous load. */
  lemma GateShows<V(!new), E(!new)>(w: World<V, E>, n: nat, s: Stamp, now: int)
    requires n >= 1 && |s| == n && w.missing.Good? && w.content(s).Good? && w.content(s) != w.missing
    ensures var there, gone := Call(Some(s), false, now, now, 0), Call(None, false, now, now, 0);
            var calls := [there, gone, there];
            CallsOn(n, calls) && GatedRun(w, calls).1 != PlainRun(w, calls).1
  {
    var there, gone := Call(Some(s), false, now, now, 0), Call(None, false, now, now, 0);
    var one, two, three := [there], [there, gone], [there, gone, there];
    assert one[..0] == [] && two[..1] == one && three[..2] == two;
    var v, x := Some(w.content(s).val), Some(w.missing.val);
    var sawFile, sawOther: Outcome<V, E> := Outcome(v, None), Outcome(x, None);
    var none: seq<Call> := [];
    assert GatedRun(w, none).1 + [sawFile] == [sawFile] == PlainRun(w, none).1 + [sawFile];
    assert GatedRun(w, one) == (State(v, true, s, [], false, None, None), [sawFile]);
    var held: State<V, E> := State(x, true, s, [], false, None, None);
    assert GatedGet(w, GatedRun(w, one).0, gone) == (held, sawOther);
    assert GatedRun(w, two) == (held, [sawFile] + [sawOther]);
    assert GatedGet(w, held, there) == (held, sawOther);
    assert GatedRun(w, three).1 == [sawFile, sawOther] + [sawOther];
    var plain: Plain<V, E> := Plain(v, true, None, None);
    assert PlainGet(w, PlainRun(w, none).0, there) == (plain, sawFile);
    assert PlainRun(w, one) == (plain, PlainRun(w, none).1 + [sawFile]);
    assert PlainRun(w, two).1 == [sawFile] + [sawOther];
    assert PlainRun(w, three).1 == [sawFile] + [sawOther] + [sawFile];
    assert GatedRun(w, three).1[2] != PlainRun(w, three).1[2];
  }

  /** Gating is invisible in exactly those worlds. */
  lemma GateInvisibleIff<V(!new), E(!new)>(w: World<V, E>, n: nat)
    requires n >= 1
    ensures Gateable(w, n) <==>
            forall calls :: CallsOn(n, calls) ==> GatedRun(w, calls).1 == PlainRun(w, calls).1
  {
    if Gateable(w, n) {
      forall calls | CallsOn(n, calls)
        ensures GatedRun(w, calls).1 == PlainRun(w, calls).1
      {
        GateIsInvisible(w, n, calls);
      }
    } else {
      var s: Stamp :| |s| == n && w.content(s).Good? && w.content(s) != w.missing;
      GateShows(w, n, s, 0);
    }
  }

  // ---------------------------------------------------------------------------
  // What a call returns, read off the calls so far and the files.

  /** What the files yield to the k-th call. */
  function Reading<V, E>(w: World<V, E>, calls: seq<Call>, k: nat): Content<V, E>
    requires k < |calls|
  {
    match calls[k].stat case Some(s) => w.content(s) case None => w.missing
  }

  /** The last good reading is the g-th call's. */
  ghost predicate LastGood<V, E>(w: World<V, E>, calls: seq<Call>, g: nat) {
    && g < |calls| && Reading(w, calls, g).Good?
    && forall k :: g < k < |calls| ==> Reading(w, calls, k).Bad?
  }

  ghost predicate NoneGood<V, E>(w: World<V, E>, calls: seq<Call>) {
    forall k :: 0 <= k < |calls| ==> Reading(w, calls, k).Bad?
  }

  /** Dropping the last call leaves the readings of the others. */
  lemma FrontReadings<V, E>(w: World<V, E>, calls: seq<Call>, g: nat)
    requires calls != []
    ensures var front := calls[..|calls| - 1];
            && (NoneGood(w, calls) ==> NoneGood(w, front))
            && (g < |front| && LastGood(w, calls, g) ==>
                  LastGood(w, front, g) && Reading(w, front, g) == Reading(w, calls, g))
  {
    var front := calls[..|calls| - 1];
    assert forall k :: 0 <= k < |front| ==> Reading(w, front, k) == Reading(w, calls, k);
  }

  /** The state of the re-reading machine after good readings. */
  lemma {:induction false} PlainAfterGood<V, E>(w: World<V, E>, calls: seq<Call>, g: nat)
    requires LastGood(w, calls, g)
    ensures var st, n := PlainRun(w, calls).0, |calls| - 1;
            && st.loaded && st.val == Some(Reading(w, calls, g).val)
            && (g == n ==> st.failSince.None?)
            && (g < n ==> st.failSince == Some(calls[g + 1].failClock) && st.failErr == Some(Reading(w, calls, n).err))
  {
    var front := calls[..|calls| - 1];
    FrontReadings(w, calls, g);
    if g == |calls| - 1 {
    } else {
      PlainAfterGood(w, front, g);
      assert Reading(w, calls, |calls| - 1).Bad?;
    }
  }

  lemma {:induction false} PlainBeforeGood<V, E>(w: World<V, E>, calls: seq<Call>)
    requires NoneGood(w, calls)
    ensures !PlainRun(w, calls).0.loaded
  {
    if calls == [] {
    } else {
      FrontReadings(w, calls, 0);
      PlainBeforeGood(w, calls[..|calls| - 1]);
      assert Reading(w, calls, |calls| - 1).Bad?;
    }
  }

  /** What the last of the calls is given. */
  ghost function LastOutcome<V, E>(w: World<V, E>, calls: seq<Call>): Outcome<V, E>
    requires calls != []
  {
    var out := GatedRun(w, calls).1;
    if out == [] then Outcome(None, None) else out[|out| - 1]
  }

  lemma LastIsPlain<V(!new), E(!new)>(w: World<V, E>, n: nat, calls: seq<Call>)
    requires Gateable(w, n) && CallsOn(n, calls) && calls != []
    ensures LastOutcome(w, calls) == PlainGet(w, PlainRun(w, calls[..|calls| - 1]).0, calls[|calls| - 1]).1
  {
    hide Gateable, PlainGet, GatedGet, CallsOn;
    GateIsInvisible(w, n, calls);
  }

  /** A call whose reading is good is given its value. */
  lemma GoodIsServed<V(!new), E(!new)>(w: World<V, E>, n: nat, calls: seq<Call>)
    requires Gateable(w, n) && CallsOn(n, calls) && calls != [] && Reading(w, calls, |calls| - 1).Good?
    ensures LastOutcome(w, calls) == Outcome(Some(Reading(w, calls, |calls| - 1).val), None)
  {
    LastIsPlain(w, n, calls);
  }

  /** A call whose reading fails, when none was good before, is given the error. */
  lemma FirstFailureIsReported<V(!new), E(!new)>(w: World<V, E>, n: nat, calls: seq<Call>)
    requires Gateable(w, n) && CallsOn(n, calls) && calls != [] && NoneGood(w, calls)
    ensures LastOutcome(w, calls) == Outcome(None, Some(ReadFailed(Reading(w, calls, |calls| - 1).err)))
  {
    var front := calls[..|calls| - 1];
    FrontReadings(w, calls, 0);
    PlainBeforeGood(w, front);
    LastIsPlain(w, n, calls);
    assert Reading(w, calls, |calls| - 1).Bad?;
  }

  /** A call whose reading fails after a good one is given the value of the last good
      reading, unless MaxStale is set and more than MaxStale has passed since the first
      failing call after it; then it is given the latest failure. A forced call is told
      of its own failure either way. */
  lemma KeptUntilStale<V(!new), E(!new)>(w: World<V, E>, n: nat, calls: seq<Call>, g: nat)
    requires Gateable(w, n) && CallsOn(n, calls) && g < |calls| - 1 && LastGood(w, calls, g)
    ensures var c, err := calls[|calls| - 1], Reading(w, calls, |calls| - 1).err;
            var stale := c.maxStale > 0 && c.keptClock > calls[g + 1].failClock + c.maxStale;
            LastOutcome(w, calls) ==
            Outcome(if stale then None else Some(Reading(w, calls, g).val),
                    if c.forced then Some(ReadFailed(err)) else if stale then Some(KeptTooLong(Some(err))) else None)
  {
    var front := calls[..|calls| - 1];
    FrontReadings(w, calls, g);
    PlainAfterGood(w, front, g);
    LastIsPlain(w, n, calls);
    assert Reading(w, calls, |calls| - 1).Bad?;
  }

  // ---------------------------------------------------------------------------
  // Unchanged files are not read again.

  lemma {:induction false} SettlesAfter<V, E>(w: World<V, E>, calls: seq<Call>)
    requires calls != [] && GatedRun(w, calls).0.loaded
    requires calls[|calls| - 1].stat.Some? || w.missing.Bad?
    ensures Settled(GatedRun(w, calls).0, calls[|calls| - 1].stat)
  {
    var st := GatedRun(w, calls[..|calls| - 1]).0;
    assert GatedRun(w, calls).0 == GatedGet(w, st, calls[|calls| - 1]).0;
  }

  /** Once a value is loaded, a call that is not forced and sees the mtimes of the call
      before it answers the same whatever the files now hold: it does not read them. */
  lemma UnchangedNotRead<V, E>(w: World<V, E>, calls: seq<Call>, c: Call, other: World<V, E>)
    requires calls != [] && GatedRun(w, calls).0.loaded && !c.forced && c.stat == calls[|calls| - 1].stat
    requires c.stat.Some? || w.missing.Bad?
    ensures GatedGet(other, GatedRun(w, calls).0, c) == GatedGet(w, GatedRun(w, calls).0, c)
    ensures GatedGet(w, GatedRun(w, calls).0, c).0 == GatedRun(w, calls).0
  {
    SettlesAfter(w, calls);
  }
}
