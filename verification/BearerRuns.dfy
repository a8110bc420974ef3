/** What every run of concurrent GetToken callers and refresh calls keeps. */
module BearerRuns {
  import opened Bytes
  import opened BearerToken

  // ---------------------------------------------------------------------------
  // One refresh at a time, paced.

  predicate Ended(c: RefreshCall) { !c.phase.Running? }

  /** The next refresh may start no sooner than a second after a failed one, or half
      the granted lifetime after a successful one. */
  predicate Paced(c: RefreshCall, start: int) {
    Ended(c) &&
    var e := c.phase.end;
    if e.err.Some? then start >= e.at + 1_000_000_000 else Life(e) > 0 ==> 2 * (start - e.at) >= Life(e)
  }

  ghost predicate OneRuns(s: System) {
    && (forall c :: 0 <= c < |s.calls| ==> (s.calls[c].phase.Running? <==> s.m.inflight == Some(c)))
    && (s.m.inflight.Some? ==> s.m.inflight.value == |s.calls| - 1)
  }

  /** The manager remembers how the last refresh ended. */
  ghost predicate LastRemembered(s: System) {
    s.calls != [] && Ended(s.calls[|s.calls| - 1]) ==>
      var e := s.calls[|s.calls| - 1].phase.end;
      && e.at <= s.clock
      && (e.err.Some? ==> e.at + MIN_REFRESH_RETRY <= s.m.nextAttempt <= e.at + MAX_REFRESH_RETRY)
      && (e.err.None? ==> s.m.expiresAt == e.grant.expiresAt && s.m.lifetime == Life(e))
  }

  ghost predicate AllPaced(s: System) {
    forall c :: 0 <= c && c + 1 < |s.calls| ==> Paced(s.calls[c], s.calls[c + 1].startedAt)
  }

  ghost predicate CallsInv(s: System) { OneRuns(s) && LastRemembered(s) && AllPaced(s) }

  /** A refresh starts only when the last one's pause is over. */
  lemma StartIsPaced(s: System, buffer: int, now: int)
    requires CallsInv(s) && s.calls != [] && now >= s.clock
    requires s.m.inflight.None? && Decide(s.m, buffer, s.clock, now, |s.calls|).0.inflight.Some?
    ensures Paced(s.calls[|s.calls| - 1], now)
  {
  }

  lemma SlowKeepsCalls(s: System, id: nat, now: int)
    requires CallsInv(s) && Enabled(s, SlowPath(id, now))
    ensures CallsInv(SlowStep(s, id, now))
  {
    hide Fresh, Usable, Paced;
    var b := s.callers[id].buffer;
    var m := Decide(s.m, b, s.clock, now, |s.calls|).0;
    if m.inflight.Some? && s.m.inflight.None? && s.calls != [] {
      StartIsPaced(s, b, now);
    }
  }

  lemma FinishKeepsCalls(s: System, c: nat, r: Refreshed)
    requires CallsInv(s) && Enabled(s, Finish(c, r))
    ensures CallsInv(FinishStep(s, c, r))
  {
    var next := FinishStep(s, c, r);
    assert c == |s.calls| - 1;
    forall k | 0 <= k && k + 1 < |next.calls|
      ensures Paced(next.calls[k], next.calls[k + 1].startedAt)
    {
      assert Paced(s.calls[k], s.calls[k + 1].startedAt);
    }
  }

  lemma CloseKeepsCalls(s: System, c: nat)
    requires CallsInv(s) && Enabled(s, Close(c))
    ensures CallsInv(Next(s, Close(c)))
  {
    var next := Next(s, Close(c));
    forall k | 0 <= k && k + 1 < |next.calls|
      ensures Paced(next.calls[k], next.calls[k + 1].startedAt)
    {
      assert Paced(s.calls[k], s.calls[k + 1].startedAt);
    }
  }

  lemma StepKeepsCalls(s: System, step: Step)
    requires CallsInv(s) && Enabled(s, step)
    ensures CallsInv(Next(s, step))
  {
    match step {
      case SlowPath(id, now) => SlowKeepsCalls(s, id, now);
      case Finish(c, r) => FinishKeepsCalls(s, c, r);
      case Close(c) => CloseKeepsCalls(s, c);
      case _ =>
    }
  }

  // ---------------------------------------------------------------------------
  // What callers are given.

  /** Call `c` stored a token. */
  predicate Succeeded(s: System, c: nat) {
    c < |s.calls| && Ended(s.calls[c]) && s.calls[c].phase.end.err.None?
  }

  /** What the manager holds: the seed, or what the holder was granted. */
  ghost predicate HolderInv(s: System) {
    && (s.holder.Some? ==> Succeeded(s, s.holder.value))
    && Grant(s.m.token, s.m.expiresAt) == (if s.holder.Some? then s.calls[s.holder.value].phase.end.grant else s.seed)
    && (forall c :: 0 <= c < |s.calls| && Succeeded(s, c) ==> s.holder.Some? && c <= s.holder.value)
    && Reported(s, s.m.lastErr)
  }

  /** This token with this expiry is the seed or was granted by some refresh. */
  ghost predicate Genuine(s: System, g: Grant) {
    g == s.seed || exists c :: 0 <= c < |s.calls| && Succeeded(s, c) && s.calls[c].phase.end.grant == g
  }

  /** The failure of some refresh, if any. */
  ghost predicate Reported(s: System, cause: Option<Text>) {
    cause.Some? ==> exists c :: 0 <= c < |s.calls| && Ended(s.calls[c]) && s.calls[c].phase.end.err == cause
  }

  /** Nothing to hand out: no token, or an expired one. */
  predicate Unusable(g: Grant, at: int) { g.token == [] || g.expiresAt <= at }

  /** A caller's result is justified: a cached token is the seed or a granted one with
      its own expiry, and under a non-positive buffer had not expired when that was
      decided; a token read after a refresh is the one that refresh or a later one was
      granted; a failure is the awaited call's own; and no caller is refused while the
      token held for it could still be used. */
  ghost predicate Justified(s: System, w: Caller) {
    match w
    case Waiting(_, c, stale, expiry) => c < |s.calls| && Genuine(s, Grant(stale, expiry))
    case Reading(_, c) => c < |s.calls| && s.calls[c].phase.Closed? && Succeeded(s, c)
    case Returned(b, Token(t, Cached(e, at))) => Genuine(s, Grant(t, e)) && (b <= 0 ==> at < e)
    case Returned(_, Token(t, FromRefresh(c, h))) =>
      c <= h && Succeeded(s, c) && Succeeded(s, h) && t == s.calls[h].phase.end.grant.token
    case Returned(_, Failed(c, e, held, at)) =>
      && c < |s.calls| && s.calls[c].phase.Closed? && s.calls[c].phase.end.err == Some(e)
      && Genuine(s, held) && Unusable(held, at)
    case Returned(_, Expired(held, at, cause)) => Genuine(s, held) && Unusable(held, at) && Reported(s, cause)
    case _ => true
  }

  ghost predicate ResultsInv(s: System) {
    HolderInv(s) && forall id :: id in s.callers ==> Justified(s, s.callers[id])
  }

  /** Calls only move on: what ended stays ended, with the same end. */
  ghost predicate CallsGrow(s: System, t: System) {
    && |s.calls| <= |t.calls| && t.seed == s.seed
    && forall c :: 0 <= c < |s.calls| && Ended(s.calls[c]) ==>
         && Ended(t.calls[c]) && t.calls[c].phase.end == s.calls[c].phase.end
         && (s.calls[c].phase.Closed? ==> t.calls[c].phase.Closed?)
  }

  lemma JustifiedGrows(s: System, t: System, w: Caller)
    requires CallsGrow(s, t) && Justified(s, w)
    ensures Justified(t, w)
  {
  }

  lemma StepGrows(s: System, step: Step)
    requires CallsInv(s) && Enabled(s, step)
    ensures CallsGrow(s, Next(s, step))
  {
    hide Fresh, Usable;
  }

  lemma FreshIsUnexpired(m: Manager, buffer: int, now: int)
    requires Fresh(m, buffer, now) && buffer <= 0
    ensures now < m.expiresAt
  {
  }

  lemma HeldIsGenuine(s: System, t: System)
    requires HolderInv(s) && CallsGrow(s, t)
    ensures Genuine(t, Grant(s.m.token, s.m.expiresAt)) && Reported(t, s.m.lastErr)
  {
    if s.holder.Some? {
      assert Succeeded(t, s.holder.value);
    }
    ReportedGrows(s, t, s.m.lastErr);
  }

  lemma ReportedGrows(s: System, t: System, cause: Option<Text>)
    requires Reported(s, cause) && CallsGrow(s, t)
    ensures Reported(t, cause)
  {
    if cause.Some? {
      var c :| 0 <= c < |s.calls| && Ended(s.calls[c]) && s.calls[c].phase.end.err == cause;
      assert Ended(t.calls[c]);
    }
  }

  lemma SlowIsJustified(s: System, id: nat, now: int)
    requires CallsInv(s) && HolderInv(s) && Enabled(s, SlowPath(id, now))
    ensures Justified(SlowStep(s, id, now), SlowStep(s, id, now).callers[id])
  {
    hide Fresh, Genuine, HolderInv, LastRemembered, AllPaced, Reported;
    assert Reported(SlowStep(s, id, now), None) by { NothingReported(SlowStep(s, id, now)); }
    StepGrows(s, SlowPath(id, now));
    HeldIsGenuine(s, SlowStep(s, id, now));
    var b := s.callers[id].buffer;
    if Fresh(s.m, b, s.clock) && b <= 0 {
      FreshIsUnexpired(s.m, b, s.clock);
    }
  }

  lemma NothingReported(s: System)
    ensures Reported(s, None)
  {
  }

  lemma StepKeepsReport(s: System, step: Step)
    requires CallsInv(s) && HolderInv(s) && Enabled(s, step)
    ensures Reported(Next(s, step), Next(s, step).m.lastErr)
  {
    hide Fresh, Usable, LastRemembered, AllPaced, CallsGrow;
    StepGrows(s, step);
    ReportedGrows(s, Next(s, step), s.m.lastErr);
    if step.Finish? {
      assert Ended(Next(s, step).calls[step.call]);
    }
  }

  lemma StepKeepsHolder(s: System, step: Step)
    requires CallsInv(s) && HolderInv(s) && Enabled(s, step)
    ensures HolderInv(Next(s, step))
  {
    hide Fresh, Usable, LastRemembered, AllPaced, Reported;
    var t := Next(s, step);
    StepKeepsReport(s, step);
    StepGrows(s, step);
    if s.holder.Some? {
      assert Succeeded(t, s.holder.value);
    }
    forall c | 0 <= c < |t.calls| && Succeeded(t, c)
      ensures t.holder.Some? && c <= t.holder.value
    {
      assert (step.Finish? && c == step.call) || Succeeded(s, c);
    }
  }

  lemma ActorIsJustified(s: System, step: Step, id: nat)
    requires CallsInv(s) && ResultsInv(s) && Enabled(s, step)
    requires id in Next(s, step).callers && (id !in s.callers || Next(s, step).callers[id] != s.callers[id])
    ensures Justified(Next(s, step), Next(s, step).callers[id])
  {
    hide Usable, LastRemembered, AllPaced;
    match step {
      case FastPath(p) =>
        if Fresh(s.m, s.callers[p].buffer, s.clock) && s.callers[p].buffer <= 0 {
          FreshIsUnexpired(s.m, s.callers[p].buffer, s.clock);
        }
      case SlowPath(p, now) => SlowIsJustified(s, p, now);
      case Wake(p) => assert Justified(s, s.callers[p]);
      case Read(p) => assert Justified(s, s.callers[p]);
      case _ =>
    }
  }

  lemma StepKeepsResults(s: System, step: Step)
    requires CallsInv(s) && ResultsInv(s) && Enabled(s, step)
    ensures ResultsInv(Next(s, step))
  {
    hide Next, Enabled, CallsInv, HolderInv, Justified;
    var t := Next(s, step);
    StepGrows(s, step);
    StepKeepsHolder(s, step);
    forall id | id in t.callers
      ensures Justified(t, t.callers[id])
    {
      if id in s.callers && t.callers[id] == s.callers[id] {
        JustifiedGrows(s, t, s.callers[id]);
      } else {
        ActorIsJustified(s, step, id);
      }
    }
  }

  // ---------------------------------------------------------------------------
  // What the locked section decides, in plain arithmetic.

  /** A token needs no refresh while its expiry is further off than the buffer asks for,
      or further off than half the lifetime it was granted with. */
  predicate NotDue(m: Manager, buffer: int, now: int) {
    now < m.expiresAt + buffer || (buffer < 0 && m.lifetime > 0 && now < m.expiresAt - m.lifetime / 2)
  }

  lemma FreshIff(m: Manager, buffer: int, now: int)
    ensures Fresh(m, buffer, now) <==> NotDue(m, buffer, now)
  {
  }

  /** In every state: a token that is not due is served. One that is due starts a
      refresh, exactly when there is a refresher, none is running and its pause is over.
      Otherwise a token that has not expired is served without waiting, and one that has
      makes the caller wait for the running refresh or fail. */
  lemma SlowOutcome(s: System, id: nat, now: int)
    requires Enabled(s, SlowPath(id, now))
    ensures var b, t := s.callers[id].buffer, SlowStep(s, id, now);
            var held := Grant(s.m.token, s.m.expiresAt);
            var w := t.callers[id];
            if NotDue(s.m, b, s.clock) then
              t.calls == s.calls && w == Returned(b, Token(held.token, Cached(held.expiresAt, s.clock)))
            else if s.m.inflight.None? && s.m.hasRefresher && now >= s.m.nextAttempt then
              && t.calls == s.calls + [RefreshCall(now, Running)]
              && w == Waiting(b, |s.calls|, held.token, held.expiresAt)
            else
              && t.calls == s.calls
              && w == if !Unusable(held, now) then Returned(b, Token(held.token, Cached(held.expiresAt, now)))
                      else if s.m.inflight.Some? then Waiting(b, s.m.inflight.value, held.token, held.expiresAt)
                      else Returned(b, Expired(held, now, if s.m.hasRefresher then s.m.lastErr else None))
  {
    hide Fresh;
    FreshIff(s.m, s.callers[id].buffer, s.clock);
  }

  /** In every state: the fast path serves exactly the token that is not due. */
  lemma FastOutcome(s: System, id: nat)
    requires Enabled(s, FastPath(id))
    ensures var b := s.callers[id].buffer;
            Next(s, FastPath(id)).callers[id] ==
            if NotDue(s.m, b, s.clock) then Returned(b, Token(s.m.token, Cached(s.m.expiresAt, s.clock))) else Slow(b)
  {
    hide Fresh;
    FreshIff(s.m, s.callers[id].buffer, s.clock);
  }

  /** A failed refresh keeps the token and allows the next one after half the time the
      token has left, but not before 1 s nor after 30 s. */
  lemma FailurePause(s: System, c: nat, r: Refreshed)
    requires Enabled(s, Finish(c, r)) && (r.Refused? || r.token == [])
    ensures var t := FinishStep(s, c, r);
            var left, pause := s.m.expiresAt - s.clock, t.m.nextAttempt - s.clock;
            && t.m.token == s.m.token && t.m.expiresAt == s.m.expiresAt && t.m.lifetime == s.m.lifetime
            && (r.Refused? ==> t.m.lastErr == Some(r.err))
            && pause == if left < 2_000_000_000 then 1_000_000_000
                        else if left > 60_000_000_000 then 30_000_000_000 else left / 2
  {
  }

  /** A successful refresh replaces token, expiry and lifetime, and leaves no pause and
      no refresh running. */
  lemma SuccessOutcome(s: System, c: nat, token: Text, expiresAt: int)
    requires Enabled(s, Finish(c, Granted(token, expiresAt))) && token != []
    ensures var m := FinishStep(s, c, Granted(token, expiresAt)).m;
            && m.token == token && m.expiresAt == expiresAt && m.lifetime == expiresAt - s.clock
            && m.nextAttempt == 0 && m.lastErr.None? && m.inflight.None?
  {
  }

  // ---------------------------------------------------------------------------
  // Never an empty token.

  ghost predicate NonEmpty(w: Caller) {
    w.Returned? && w.result.Token? ==> w.result.token != []
  }

  /** The token held is not empty, or it is the seed, which no caller with a buffer of
      at most `limit` finds fresh any more. */
  ghost predicate TokensInv(s: System, limit: int) {
    && (s.m.token == [] ==>
          && s.m.expiresAt + limit <= s.clock && s.m.lifetime == 0
          && forall id :: id in s.callers ==> s.callers[id].buffer <= limit)
    && (s.holder.Some? ==> s.m.token != [])
    && (forall id :: id in s.callers ==> NonEmpty(s.callers[id]))
  }

  lemma StepKeepsTokens(s: System, step: Step, limit: int)
    requires TokensInv(s, limit) && Enabled(s, step)
    requires s.m.token == [] && step.Begin? ==> step.buffer <= limit
    ensures TokensInv(Next(s, step), limit)
  {
    if s.m.token == [] && (step.FastPath? || step.SlowPath?) {
      NotFresh(s.m, s.callers[step.id].buffer, s.clock, limit);
    }
  }

  lemma NotFresh(m: Manager, buffer: int, now: int, limit: int)
    requires m.expiresAt + limit <= now && m.lifetime == 0 && buffer <= limit
    ensures !Fresh(m, buffer, now)
  {
  }

  // ---------------------------------------------------------------------------
  // Over every run.

  ghost predicate Inv(s: System) { CallsInv(s) && ResultsInv(s) }

  lemma {:induction false} RunKeeps(s: System, steps: seq<Step>)
    requires Inv(s) && IsRun(s, steps)
    ensures Inv(After(s, steps))
    decreases |steps|
  {
    hide Inv, Next, Enabled;
    if steps == [] {
    } else {
      StepKeeps(s, steps[0]);
      RunKeeps(Next(s, steps[0]), steps[1..]);
    }
  }

  lemma StepKeeps(s: System, step: Step)
    requires Inv(s) && Enabled(s, step)
    ensures Inv(Next(s, step))
  {
    hide CallsInv, ResultsInv, Next;
    StepKeepsCalls(s, step);
    StepKeepsResults(s, step);
  }

  ghost predicate Reachable(s: System, token: Text, expiresAt: int, hasRefresher: bool, clock: int) {
    exists steps :: IsRun(Start(Seeded(token, expiresAt, hasRefresher), clock), steps)
                    && s == After(Start(Seeded(token, expiresAt, hasRefresher), clock), steps)
  }

  lemma ReachableKeeps(s: System, token: Text, expiresAt: int, hasRefresher: bool, clock: int)
    requires Reachable(s, token, expiresAt, hasRefresher, clock)
    ensures Inv(s)
  {
    var start := Start(Seeded(token, expiresAt, hasRefresher), clock);
    var steps :| IsRun(start, steps) && s == After(start, steps);
    RunKeeps(start, steps);
  }

  /** In every run at most one refresh is live, and each starts at least a second
      after a failed one and half the granted lifetime after a successful one. */
  lemma SingleFlightAndPaced(s: System, token: Text, expiresAt: int, hasRefresher: bool, clock: int)
    requires Reachable(s, token, expiresAt, hasRefresher, clock)
    ensures forall c, d :: 0 <= c < d < |s.calls| ==> !(s.calls[c].phase.Running? && s.calls[d].phase.Running?)
    ensures forall c :: 0 <= c && c + 1 < |s.calls| ==> Paced(s.calls[c], s.calls[c + 1].startedAt)
  {
    ReachableKeeps(s, token, expiresAt, hasRefresher, clock);
  }

  /** Thirty seconds after a failed refresh, a caller without a fresh token starts the
      next one. */
  lemma PermittedAfterFailure(s: System, token: Text, expiresAt: int, clock: int, buffer: int, now: int)
    requires Reachable(s, token, expiresAt, true, clock)
    requires s.calls != [] && Ended(s.calls[|s.calls| - 1]) && s.calls[|s.calls| - 1].phase.end.err.Some?
    requires now >= s.clock && now >= s.calls[|s.calls| - 1].phase.end.at + 30_000_000_000
    requires !Fresh(s.m, buffer, s.clock)
    ensures Decide(s.m, buffer, s.clock, now, |s.calls|).0.inflight == Some(|s.calls|)
  {
    ReachableKeeps(s, token, expiresAt, true, clock);
    var start := Start(Seeded(token, expiresAt, true), clock);
    var steps :| IsRun(start, steps) && s == After(start, steps);
    SeedStays(start, steps);
  }

  lemma {:induction false} SeedStays(s: System, steps: seq<Step>)
    requires IsRun(s, steps)
    ensures After(s, steps).m.hasRefresher == s.m.hasRefresher && After(s, steps).seed == s.seed
    decreases |steps|
  {
    if steps == [] {
    } else {
      SeedStays(Next(s, steps[0]), steps[1..]);
    }
  }

  /** Every result handed out is justified, and a waiter on a closed call can return
      with that call's outcome. */
  lemma ResultsJustified(s: System, token: Text, expiresAt: int, hasRefresher: bool, clock: int, id: nat)
    requires Reachable(s, token, expiresAt, hasRefresher, clock) && id in s.callers
    ensures s.seed == Grant(token, expiresAt) && Justified(s, s.callers[id])
    ensures s.callers[id].Waiting? && s.calls[s.callers[id].call].phase.Closed? ==> Enabled(s, Wake(id))
    ensures s.callers[id].Reading? ==> Enabled(s, Read(id))
  {
    ReachableKeeps(s, token, expiresAt, hasRefresher, clock);
    var start := Start(Seeded(token, expiresAt, hasRefresher), clock);
    var steps :| IsRun(start, steps) && s == After(start, steps);
    SeedStays(start, steps);
    assert Justified(s, s.callers[id]);
  }

  /** No call of the run uses a refresh buffer above `limit`. */
  ghost predicate BuffersAtMost(steps: seq<Step>, limit: int) {
    forall k :: 0 <= k < |steps| && steps[k].Begin? ==> steps[k].buffer <= limit
  }

  lemma {:induction false} TokensKept(s: System, steps: seq<Step>, limit: int)
    requires TokensInv(s, limit) && IsRun(s, steps) && BuffersAtMost(steps, limit)
    ensures TokensInv(After(s, steps), limit)
    decreases |steps|
  {
    hide TokensInv, Next, Enabled;
    if steps == [] {
    } else {
      StepKeepsTokens(s, steps[0], limit);
      TokensKept(Next(s, steps[0]), steps[1..], limit);
    }
  }

  /** No caller is given an empty token as a success, if the seed's token is not empty
      or no buffer in use makes the seed fresh. */
  lemma NeverEmpty(seed: Manager, clock: int, steps: seq<Step>, limit: int, id: nat)
    requires seed == Seeded(seed.token, seed.expiresAt, seed.hasRefresher)
    requires seed.token != [] || seed.expiresAt + limit <= clock
    requires IsRun(Start(seed, clock), steps) && BuffersAtMost(steps, limit)
    requires id in After(Start(seed, clock), steps).callers
    ensures NonEmpty(After(Start(seed, clock), steps).callers[id])
  {
    TokensKept(Start(seed, clock), steps, limit);
  }

  /** An empty seed that a caller's buffer makes fresh is handed out. */
  lemma EmptySeedIsServed(expiresAt: int, hasRefresher: bool, clock: int, buffer: int)
    requires clock < expiresAt + buffer
    ensures var start := Start(Seeded([], expiresAt, hasRefresher), clock);
            var steps := [Begin(0, buffer), FastPath(0)];
            && BuffersAtMost(steps, buffer) && IsRun(start, steps)
            && 0 in After(start, steps).callers && !NonEmpty(After(start, steps).callers[0])
  {
    var start := Start(Seeded([], expiresAt, hasRefresher), clock);
    var steps := [Begin(0, buffer), FastPath(0)];
    var one := Next(start, steps[0]);
    assert steps[1..] == [FastPath(0)] && steps[1..][1..] == [];
    assert IsRun(one, steps[1..]);
    assert After(one, steps[1..]) == Next(one, FastPath(0));
  }

  /** With buffers up to `limit`, no run hands out an empty token as a success exactly
      when the seed's token is not empty or its expiry plus `limit` has passed. */
  lemma NeverEmptyIff(token: Text, expiresAt: int, hasRefresher: bool, clock: int, limit: int)
    ensures token != [] || expiresAt + limit <= clock <==>
            forall steps, id: nat ::
              var start := Start(Seeded(token, expiresAt, hasRefresher), clock);
              IsRun(start, steps) && BuffersAtMost(steps, limit) && id in After(start, steps).callers ==>
                NonEmpty(After(start, steps).callers[id])
  {
    hide IsRun, After, BuffersAtMost, NonEmpty, Start;
    var seed := Seeded(token, expiresAt, hasRefresher);
    if token != [] || expiresAt + limit <= clock {
      forall steps, id: nat | IsRun(Start(seed, clock), steps) && BuffersAtMost(steps, limit)
                              && id in After(Start(seed, clock), steps).callers
        ensures NonEmpty(After(Start(seed, clock), steps).callers[id])
      {
        NeverEmpty(seed, clock, steps, limit, id);
      }
    } else {
      EmptySeedIsServed(expiresAt, hasRefresher, clock, limit);
    }
  }
}
