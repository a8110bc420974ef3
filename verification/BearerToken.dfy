/** The cached bearer token and its single-flight refresh. Each critical section is
    one operation on the manager's fields. Times are nanoseconds; 0 is Go's zero time. */
module BearerToken {
  import opened Bytes

  const MIN_REFRESH_RETRY: int := SECOND
  const MAX_REFRESH_RETRY: int := 30 * SECOND

  /** The manager's fields; `inflight` names the refresh call that owns the slot. */
  datatype Manager = Manager(token: Text, expiresAt: int, hasRefresher: bool, inflight: Option<nat>,
                             nextAttempt: int, lifetime: int, lastErr: Option<Text>)

  function Seeded(token: Text, expiresAt: int, hasRefresher: bool): Manager {
    Manager(token, expiresAt, hasRefresher, None, 0, 0, None)
  }

  function Max(a: int, b: int): int { if a > b then a else b }

  function Min(a: int, b: int): int { if a < b then a else b }

  /** Go's truncating division by two. */
  function Half(n: int): int { if n >= 0 then n / 2 else -((-n) / 2) }

  /** A refresh buffer longer than half the observed lifetime is cut to that half. */
  function Clamped(buffer: int, lifetime: int): int {
    if buffer < 0 && lifetime > 0 then Max(buffer, Half(-lifetime)) else buffer
  }

  predicate Fresh(m: Manager, buffer: int, now: int) {
    now < m.expiresAt + Clamped(buffer, m.lifetime)
  }

  predicate Usable(m: Manager, now: int) { m.token != [] && now < m.expiresAt }

  /** What the locked part of GetToken decides. */
  datatype Decision =
    | Serve(token: Text)
    | NoRefresher
    | BackingOff(lastErr: Option<Text>)
    | Wait(call: nat, stale: Text, staleExpiry: int)

  /** `checked` is the clock at the freshness test, `now` the one read after it, and
      `newCall` the name a call started here would get. */
  function Decide(m: Manager, buffer: int, checked: int, now: int, newCall: nat): (Manager, Decision) {
    if Fresh(m, buffer, checked) then (m, Serve(m.token))
    else if m.inflight.Some? then
      (m, if Usable(m, now) then Serve(m.token) else Wait(m.inflight.value, m.token, m.expiresAt))
    else if !m.hasRefresher then (m, if Usable(m, now) then Serve(m.token) else NoRefresher)
    else if now < m.nextAttempt then (m, if Usable(m, now) then Serve(m.token) else BackingOff(m.lastErr))
    else (m.(inflight := Some(newCall)), Wait(newCall, m.token, m.expiresAt))
  }

  /** What the Refresher returned. */
  datatype Refreshed = Granted(token: Text, expiresAt: int) | Refused(err: Text)

  /** Stands for the error text the source uses. */
  const EMPTY_TOKEN_ERROR: Text := [69]

  /** The error a refresh call ends with: an empty token counts as one. */
  function ErrorOf(r: Refreshed): Option<Text> {
    match r
    case Granted(t, _) => if t == [] then Some(EMPTY_TOKEN_ERROR) else None
    case Refused(e) => Some(e)
  }

  /** The locked part of runRefresh. */
  function Complete(m: Manager, r: Refreshed, now: int): Manager {
    match ErrorOf(r)
    case None =>
      m.(token := r.token, expiresAt := r.expiresAt, lifetime := r.expiresAt - now, nextAttempt := 0,
         lastErr := None, inflight := None)
    case Some(e) =>
      m.(lastErr := Some(e), inflight := None,
         nextAttempt := now + Min(Max(Half(m.expiresAt - now), MIN_REFRESH_RETRY), MAX_REFRESH_RETRY))
  }

  class BearerTokenManager {
    var token: Text
    var expiresAt: int
    const hasRefresher: bool
    var inflight: Option<nat>
    var nextAttempt: int
    var lifetime: int
    var lastErr: Option<Text>

    function View(): Manager
      reads this
    {
      Manager(token, expiresAt, hasRefresher, inflight, nextAttempt, lifetime, lastErr)
    }

    constructor (token: Text, expiresAt: int, hasRefresher: bool)
      ensures View() == Seeded(token, expiresAt, hasRefresher)
    {
      this.token, this.expiresAt, this.hasRefresher := token, expiresAt, hasRefresher;
      inflight, nextAttempt, lifetime, lastErr := None, 0, 0, None;
    }

    /** The freshness test shared by the fast path and the re-check. */
    method IsFresh(buffer: int, now: int) returns (ok: bool)
      ensures ok == Fresh(View(), buffer, now)
    {
      var b := buffer;
      if b < 0 && lifetime > 0 {
        b := Max(b, Half(-lifetime));
      }
      ok := now < expiresAt + b;
    }

    method DecideLocked(buffer: int, checked: int, now: int, newCall: nat) returns (d: Decision)
      modifies `inflight
      ensures (View(), d) == Decide(old(View()), buffer, checked, now, newCall)
    {
      var ok := IsFresh(buffer, checked);
      if ok {
        return Serve(token);
      }
      var stale, staleExpiry := token, expiresAt;
      var usable := stale != [] && now < staleExpiry;
      var call := inflight;
      if call.Some? {
        if usable {
          return Serve(stale);
        }
      } else if !hasRefresher {
        return if usable then Serve(stale) else NoRefresher;
      } else if now < nextAttempt {
        return if usable then Serve(stale) else BackingOff(lastErr);
      } else {
        call := Some(newCall);
        inflight := call;
      }
      return Wait(call.value, stale, staleExpiry);
    }

    method CompleteLocked(r: Refreshed, now: int) returns (err: Option<Text>)
      modifies `token, `expiresAt, `lifetime, `nextAttempt, `lastErr, `inflight
      ensures View() == Complete(old(View()), r, now) && err == ErrorOf(r)
    {
      err := ErrorOf(r);
      if err.None? {
        token, expiresAt := r.token, r.expiresAt;
        lifetime := expiresAt - now;
        nextAttempt, lastErr := 0, None;
      } else {
        lastErr := err;
        var remaining := expiresAt - now;
        nextAttempt := now + Min(Max(Half(remaining), MIN_REFRESH_RETRY), MAX_REFRESH_RETRY);
      }
      inflight := None;
    }
  }

  // ---------------------------------------------------------------------------
  // Concurrent callers and refresh calls, interleaved step by step.

  /** A token and when it expires. */
  datatype Grant = Grant(token: Text, expiresAt: int)

  /** How a refresh call ended, when, and what it granted if it succeeded. */
  datatype End = End(err: Option<Text>, at: int, grant: Grant)

  /** The lifetime a call granted. */
  function Life(e: End): int { e.grant.expiresAt - e.at }

  datatype CallPhase = Running | Stored(end: End) | Closed(end: End)

  datatype RefreshCall = RefreshCall(startedAt: int, phase: CallPhase)

  /** Where a returned token came from. */
  datatype Source = Cached(expiresAt: int, decidedAt: int) | FromRefresh(waited: nat, storedBy: nat)

  /** A refused caller: what the manager held for it, the clock reading it was judged
      at, and the failure it is told of. */
  datatype Result =
    | Token(token: Text, source: Source)
    | Failed(call: nat, err: Text, held: Grant, at: int)
    | Expired(held: Grant, at: int, cause: Option<Text>)
    | Cancelled

  /** A GetToken call in progress; `buffer` is its refresh buffer. */
  datatype Caller =
    | Called(buffer: int)
    | Slow(buffer: int)
    | Waiting(buffer: int, call: nat, stale: Text, staleExpiry: int)
    | Reading(buffer: int, call: nat)
    | Returned(buffer: int, result: Result)

  /** `holder` names the refresh call that stored the current token; None for the seed. */
  datatype System = System(m: Manager, clock: int, callers: map<nat, Caller>, calls: seq<RefreshCall>,
                           holder: Option<nat>, seed: Grant)

  function Start(m: Manager, clock: int): System {
    System(m, clock, map[], [], None, Grant(m.token, m.expiresAt))
  }

  datatype Step =
    | Tick(now: int)
    | Begin(id: nat, buffer: int)
    | FastPath(id: nat)
    | SlowPath(id: nat, now: int)
    | Finish(call: nat, r: Refreshed)
    | Close(call: nat)
    | Wake(id: nat)
    | Read(id: nat)
    | Cancel(id: nat)

  predicate Enabled(s: System, step: Step) {
    match step
    case Tick(now) => now >= s.clock
    case Begin(id, _) => id !in s.callers
    case FastPath(id) => id in s.callers && s.callers[id].Called?
    case SlowPath(id, now) => id in s.callers && s.callers[id].Slow? && now >= s.clock
    case Finish(c, _) => c < |s.calls| && s.calls[c].phase.Running?
    case Close(c) => c < |s.calls| && s.calls[c].phase.Stored?
    case Wake(id) =>
      && id in s.callers && s.callers[id].Waiting?
      && s.callers[id].call < |s.calls| && s.calls[s.callers[id].call].phase.Closed?
    case Read(id) => id in s.callers && s.callers[id].Reading? && s.holder.Some?
    case Cancel(id) => id in s.callers && s.callers[id].Waiting?
  }

  function Set(s: System, id: nat, c: Caller): System { s.(callers := s.callers[id := c]) }

  function Decided(b: int, d: Decision, held: Grant, now: int): Caller {
    match d
    case Serve(t) => Returned(b, Token(t, Cached(held.expiresAt, now)))
    case NoRefresher => Returned(b, Expired(held, now, None))
    case BackingOff(e) => Returned(b, Expired(held, now, e))
    case Wait(c, stale, expiry) => Waiting(b, c, stale, expiry)
  }

  /** The locked section, the clock moving from the freshness test to `now` in it. A
      token served as fresh is judged at the first reading, a usable one at the second. */
  function SlowStep(s: System, id: nat, now: int): System
    requires Enabled(s, SlowPath(id, now))
  {
    var b := s.callers[id].buffer;
    var (m, d) := Decide(s.m, b, s.clock, now, |s.calls|);
    var judged := if Fresh(s.m, b, s.clock) then s.clock else now;
    var started := m.inflight.Some? && s.m.inflight.None?;
    s.(m := m, clock := now,
       callers := s.callers[id := Decided(b, d, Grant(s.m.token, s.m.expiresAt), judged)],
       calls := if started then s.calls + [RefreshCall(now, Running)] else s.calls)
  }

  function FinishStep(s: System, c: nat, r: Refreshed): System
    requires Enabled(s, Finish(c, r))
  {
    var grant := if r.Granted? then Grant(r.token, r.expiresAt) else Grant([], 0);
    s.(m := Complete(s.m, r, s.clock),
       calls := s.calls[c := s.calls[c].(phase := Stored(End(ErrorOf(r), s.clock, grant)))],
       holder := if ErrorOf(r).None? then Some(c) else s.holder)
  }

  /** A waiter whose call is closed: the call's success, its error, or the token it
      held on to if that has not expired by now. */
  function WakeStep(s: System, id: nat): System
    requires Enabled(s, Wake(id))
  {
    var w := s.callers[id];
    match s.calls[w.call].phase.end.err
    case None => Set(s, id, Reading(w.buffer, w.call))
    case Some(e) =>
      Set(s, id, Returned(w.buffer, if w.stale != [] && s.clock < w.staleExpiry
                                    then Token(w.stale, Cached(w.staleExpiry, s.clock))
                                    else Failed(w.call, e, Grant(w.stale, w.staleExpiry), s.clock)))
  }

  function Next(s: System, step: Step): System
    requires Enabled(s, step)
  {
    match step
    case Tick(now) => s.(clock := now)
    case Begin(id, b) => Set(s, id, Called(b))
    case FastPath(id) =>
      var b := s.callers[id].buffer;
      Set(s, id, if !Fresh(s.m, b, s.clock) then Slow(b)
                 else Returned(b, Token(s.m.token, Cached(s.m.expiresAt, s.clock))))
    case SlowPath(id, now) => SlowStep(s, id, now)
    case Finish(c, r) => FinishStep(s, c, r)
    case Close(c) => s.(calls := s.calls[c := s.calls[c].(phase := Closed(s.calls[c].phase.end))])
    case Wake(id) => WakeStep(s, id)
    case Read(id) =>
      var w := s.callers[id];
      Set(s, id, Returned(w.buffer, Token(s.m.token, FromRefresh(w.call, s.holder.value))))
    case Cancel(id) => Set(s, id, Returned(s.callers[id].buffer, Cancelled))
  }

  ghost predicate IsRun(s: System, steps: seq<Step>)
    decreases |steps|
  {
    steps == [] || (Enabled(s, steps[0]) && IsRun(Next(s, steps[0]), steps[1..]))
  }

  ghost function After(s: System, steps: seq<Step>): System
    requires IsRun(s, steps)
    decreases |steps|
  {
    if steps == [] then s else After(Next(s, steps[0]), steps[1..])
  }
}
