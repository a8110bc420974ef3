/** The handler's reserve-and-complete discipline: over every interleaving of logout
    requests, each token completes at most once. */
module LogoutOnce {
  import opened Bytes
  import opened LogoutReplay

  /** The handler between steps: its cache, the clock, the requests that hold a
      reservation, and the completed tokens with their completion times. */
  datatype Handler = Handler(cache: Cache, clock: int, running: map<Text, Token>, completed: seq<(Token, int)>)

  /** A request presents a token verified at `verifiedAt` and reserves its id at `now`;
      a running request ends, successfully or not. */
  datatype Step = Present(token: Token, verifiedAt: int, now: int) | End(jti: Text, success: bool, now: int)

  /** At most `delay` passes between verification and reservation. */
  ghost predicate Enabled(h: Handler, delay: nat, s: Step) {
    && h.clock <= s.now
    && match s
       case Present(t, v, now) => VerifiedAt(t, v) && v <= now <= v + delay
       case End(jti, _, _) => jti in h.running
  }

  function Take(h: Handler, window: int, s: Step): Handler
    requires s.End? ==> s.jti in h.running
  {
    match s
    case Present(t, _, now) =>
      var (c, ok) := Accept(h.cache, window, t.jti, now);
      Handler(c, now, if ok then h.running[t.jti := t] else h.running, h.completed)
    case End(jti, success, now) =>
      Handler(Finish(h.cache, jti, success, now), now, h.running - {jti},
              if success then h.completed + [(h.running[jti], now)] else h.completed)
  }

  ghost predicate IsRun(h: Handler, window: int, delay: nat, steps: seq<Step>)
    decreases |steps|
  {
    steps == [] || (Enabled(h, delay, steps[0]) && IsRun(Take(h, window, steps[0]), window, delay, steps[1..]))
  }

  ghost function After(h: Handler, window: int, delay: nat, steps: seq<Step>): Handler
    requires IsRun(h, window, delay, steps)
    decreases |steps|
  {
    if steps == [] then h else After(Take(h, window, steps[0]), window, delay, steps[1..])
  }

  function Initial(clock: int): Handler { Handler(EMPTY, clock, map[], []) }

  ghost predicate NoneTwice(completed: seq<(Token, int)>) {
    forall j, k :: 0 <= j < k < |completed| ==> completed[j].0 != completed[k].0
  }

  // ---------------------------------------------------------------------------

  /** A completion at `at` still protects its token's id from a second request. */
  ghost predicate Protected(h: Handler, window: int, jti: Text, at: int) {
    h.clock <= at + window ==>
      jti in h.cache.seen && !h.cache.seen[jti].pending && h.cache.seen[jti].at >= at
  }

  ghost predicate Inv(h: Handler, window: int) {
    && (forall jti :: jti in h.running <==> jti in h.cache.seen && h.cache.seen[jti].pending)
    && (forall jti :: jti in h.running ==>
          h.running[jti].jti == jti && h.clock >= h.running[jti].iat - LOGOUT_TOKEN_SKEW)
    && (forall k :: 0 <= k < |h.completed| ==>
          var (t, at) := h.completed[k];
          && at >= t.iat - LOGOUT_TOKEN_SKEW && at <= h.clock
          && Protected(h, window, t.jti, at)
          && (t.jti in h.running ==> h.running[t.jti] != t))
    && NoneTwice(h.completed)
  }

  lemma PresentKeeps(h: Handler, window: int, delay: nat, s: Step)
    requires Inv(h, window) && s.Present? && Enabled(h, delay, s)
    requires window >= LOGOUT_TOKEN_MAX_AGE + LOGOUT_TOKEN_SKEW + delay
    ensures Inv(Take(h, window, s), window)
  {
    var (c, ok) := Accept(h.cache, window, s.token.jti, s.now);
    var next := Take(h, window, s);
    forall k | 0 <= k < |h.completed|
      ensures var (t, at) := h.completed[k];
              && Protected(next, window, t.jti, at)
              && (t.jti in next.running ==> next.running[t.jti] != t)
    {
      var (t, at) := h.completed[k];
      if s.now <= at + window {
        assert Protected(h, window, t.jti, at);
        assert Held(c.seen, t.jti, s.now - window);
      }
    }
  }

  lemma EndKeeps(h: Handler, window: int, delay: nat, s: Step)
    requires Inv(h, window) && s.End? && Enabled(h, delay, s)
    ensures Inv(Take(h, window, s), window)
  {
    var next := Take(h, window, s);
    var t := h.running[s.jti];
    forall k | 0 <= k < |h.completed|
      ensures h.completed[k].0 != t
      ensures var (u, at) := h.completed[k]; Protected(next, window, u.jti, at)
    {
      var (u, at) := h.completed[k];
      assert Protected(h, window, u.jti, at);
    }
  }

  lemma {:induction false} RunKeeps(h: Handler, window: int, delay: nat, steps: seq<Step>)
    requires Inv(h, window) && IsRun(h, window, delay, steps)
    requires window >= LOGOUT_TOKEN_MAX_AGE + LOGOUT_TOKEN_SKEW + delay
    ensures Inv(After(h, window, delay, steps), window)
    decreases |steps|
  {
    if steps == [] {
    } else {
      if steps[0].Present? {
        PresentKeeps(h, window, delay, steps[0]);
      } else {
        EndKeeps(h, window, delay, steps[0]);
      }
      RunKeeps(Take(h, window, steps[0]), window, delay, steps[1..]);
    }
  }

  /** A window that covers a token's acceptable span and the delay lets no token
      complete twice, however requests interleave. */
  lemma CompletesAtMostOnce(window: int, delay: nat, clock: int, steps: seq<Step>)
    requires window >= LOGOUT_TOKEN_MAX_AGE + LOGOUT_TOKEN_SKEW + delay
    requires IsRun(Initial(clock), window, delay, steps)
    ensures NoneTwice(After(Initial(clock), window, delay, steps).completed)
  {
    RunKeeps(Initial(clock), window, delay, steps);
  }

  /** So a handler whose requests reserve the id at the time they verify, with any
      configured window, completes each token at most once. */
  lemma HandlerCompletesOnce(configured: int, clock: int, steps: seq<Step>)
    requires IsRun(Initial(clock), ReplayWindow(configured), 0, steps)
    ensures NoneTwice(After(Initial(clock), ReplayWindow(configured), 0, steps).completed)
  {
    CompletesAtMostOnce(ReplayWindow(configured), 0, clock, steps);
  }

  /** A shorter window does not: a token presented as early as it can be, and verified
      again as late as it can be but reserved after the delay, completes twice. */
  lemma DelayedReplay(window: int, delay: nat) returns (steps: seq<Step>)
    requires 0 <= window < LOGOUT_TOKEN_MAX_AGE + LOGOUT_TOKEN_SKEW + delay
    ensures IsRun(Initial(-LOGOUT_TOKEN_SKEW), window, delay, steps)
    ensures !NoneTwice(After(Initial(-LOGOUT_TOKEN_SKEW), window, delay, steps).completed)
  {
    var t := Token([1], 0, None, None);
    var early, late := -LOGOUT_TOKEN_SKEW, LOGOUT_TOKEN_MAX_AGE + delay;
    var h0 := Initial(early);
    var s1, s2 := Present(t, early, early), End(t.jti, true, early);
    var s3, s4 := Present(t, LOGOUT_TOKEN_MAX_AGE, late), End(t.jti, true, late);
    var h1 := Take(h0, window, s1);
    assert h1.running == map[t.jti := t];
    var h2 := Take(h1, window, s2);
    assert h2.cache.seen[t.jti] == Entry(early, false) && h2.completed == [(t, early)];
    assert Accept(h2.cache, window, t.jti, late).1;
    var h3 := Take(h2, window, s3);
    var h4 := Take(h3, window, s4);
    assert h4.completed == [(t, early), (t, late)];
    steps := [s1, s2, s3, s4];
    RunStep(h3, window, delay, s4, []);
    RunStep(h2, window, delay, s3, [s4]);
    RunStep(h1, window, delay, s2, [s3, s4]);
    RunStep(h0, window, delay, s1, [s2, s3, s4]);
    assert steps == [s1] + [s2, s3, s4] && [s2, s3, s4] == [s2] + [s3, s4];
    assert [s3, s4] == [s3] + [s4] && [s4] == [s4] + [];
    assert h4.completed[0].0 == h4.completed[1].0;
  }

  lemma RunStep(h: Handler, window: int, delay: nat, s: Step, rest: seq<Step>)
    requires Enabled(h, delay, s) && IsRun(Take(h, window, s), window, delay, rest)
    ensures IsRun(h, window, delay, [s] + rest)
    ensures After(h, window, delay, [s] + rest) == After(Take(h, window, s), window, delay, rest)
  {
    assert ([s] + rest)[1..] == rest;
  }

  /** The window protects every run exactly when it covers the acceptable span and the
      delay. */
  lemma OnceIffWindowCovers(window: int, delay: nat)
    requires window >= 0
    ensures window >= 330_000_000_000 + delay <==>
            forall clock: int, steps :: IsRun(Initial(clock), window, delay, steps) ==>
              NoneTwice(After(Initial(clock), window, delay, steps).completed)
  {
    hide IsRun, After, NoneTwice;
    if window >= LOGOUT_TOKEN_MAX_AGE + LOGOUT_TOKEN_SKEW + delay {
      forall clock: int, steps | IsRun(Initial(clock), window, delay, steps)
        ensures NoneTwice(After(Initial(clock), window, delay, steps).completed)
      {
        CompletesAtMostOnce(window, delay, clock, steps);
      }
    } else {
      var steps := DelayedReplay(window, delay);
    }
  }
}
