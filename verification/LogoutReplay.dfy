/** Replay protection for back-channel logout tokens: the acceptance window of a
    token (OpenID Connect Back-Channel Logout 1.0, section 2.6) and the lazily swept
    cache of token ids. Times are nanoseconds. */
module LogoutReplay {
  import opened Bytes

  const LOGOUT_TOKEN_MAX_AGE: int := 300 * SECOND
  const LOGOUT_TOKEN_SKEW: int := 30 * SECOND
  const JTI_SWEEP_INTERVAL: int := 60 * SECOND

  /** The claims that decide when a logout token is acceptable. */
  datatype Token = Token(jti: Text, iat: int, exp: Option<int>, nbf: Option<int>)

  /** The time checks of VerifyLogoutToken, and that the token has an id. */
  predicate VerifiedAt(t: Token, now: int) {
    && t.jti != []
    && !(t.iat > now + LOGOUT_TOKEN_SKEW || now - t.iat > LOGOUT_TOKEN_MAX_AGE)
    && (t.exp.Some? ==> t.exp.value > now - LOGOUT_TOKEN_SKEW)
    && (t.nbf.Some? ==> !(t.nbf.value > now + LOGOUT_TOKEN_SKEW))
  }

  /** When the token becomes acceptable, and the last instant it still is. */
  function Earliest(t: Token): int {
    var from := if t.nbf.Some? && t.nbf.value > t.iat then t.nbf.value else t.iat;
    from - 30_000_000_000
  }

  function Latest(t: Token): int {
    var aged := t.iat + 300_000_000_000;
    if t.exp.Some? && t.exp.value + 30_000_000_000 - 1 < aged then t.exp.value + 30_000_000_000 - 1 else aged
  }

  /** A token with an id is acceptable in one interval, which every replay window spans. */
  lemma AcceptableSpan(t: Token, now: int, configured: int)
    ensures VerifiedAt(t, now) <==> t.jti != [] && Earliest(t) <= now <= Latest(t)
    ensures Latest(t) - Earliest(t) <= ReplayWindow(configured)
  {
  }

  /** The replay window a handler uses: configured, but never shorter than a token
      stays acceptable. */
  function ReplayWindow(configured: int): (w: int)
    ensures w >= 330_000_000_000 && w >= configured && (w == 330_000_000_000 || w == configured)
  {
    if configured < LOGOUT_TOKEN_MAX_AGE + LOGOUT_TOKEN_SKEW then LOGOUT_TOKEN_MAX_AGE + LOGOUT_TOKEN_SKEW
    else configured
  }

  // ---------------------------------------------------------------------------
  // The cache.

  datatype Entry = Entry(at: int, pending: bool)

  datatype Cache = Cache(seen: map<Text, Entry>, lastSweep: Option<int>)

  const EMPTY: Cache := Cache(map[], None)

  predicate Expired(e: Entry, cutoff: int) { !e.pending && e.at < cutoff }

  predicate SweepDue(c: Cache, now: int) {
    c.lastSweep.None? || now - c.lastSweep.value >= JTI_SWEEP_INTERVAL
  }

  function Swept(seen: map<Text, Entry>, cutoff: int): map<Text, Entry> {
    map k | k in seen && !Expired(seen[k], cutoff) :: seen[k]
  }

  function Clean(c: Cache, window: int, now: int): Cache {
    if SweepDue(c, now) then Cache(Swept(c.seen, now - window), Some(now)) else c
  }

  /** The id is held by a request that is running, or by one that completed within
      the window. */
  predicate Held(seen: map<Text, Entry>, jti: Text, cutoff: int) {
    jti in seen && (seen[jti].pending || !(seen[jti].at < cutoff))
  }

  function Accept(c: Cache, window: int, jti: Text, now: int): (Cache, bool) {
    var d := Clean(c, window, now);
    if Held(d.seen, jti, now - window) then (d, false)
    else (d.(seen := d.seen[jti := Entry(now, true)]), true)
  }

  function Finish(c: Cache, jti: Text, success: bool, now: int): Cache {
    if success then c.(seen := c.seen[jti := Entry(now, false)]) else c.(seen := c.seen - {jti})
  }

  class LogoutJtiCache {
    var seen: map<Text, Entry>
    const window: int
    var lastSweep: Option<int>

    function View(): Cache
      reads this
    {
      Cache(seen, lastSweep)
    }

    constructor (window: int)
      ensures View() == EMPTY && this.window == window
    {
      seen, lastSweep := map[], None;
      this.window := window;
    }

    method AcceptJti(jti: Text, now: int) returns (ok: bool)
      modifies this
      ensures (View(), ok) == Accept(old(View()), window, jti, now)
    {
      var cutoff := now - window;
      if lastSweep.None? || now - lastSweep.value >= JTI_SWEEP_INTERVAL {
        lastSweep := Some(now);
        Sweep(cutoff);
      }
      if jti in seen && (seen[jti].pending || !(seen[jti].at < cutoff)) {
        return false;
      }
      seen := seen[jti := Entry(now, true)];
      return true;
    }

    /** Visits every entry in some order and drops the expired ones. */
    method Sweep(cutoff: int)
      modifies `seen
      ensures seen == Swept(old(seen), cutoff)
    {
      var left := seen.Keys;
      while left != {}
        invariant left <= old(seen).Keys
        invariant forall k :: k in seen <==> k in old(seen) && (k in left || !Expired(old(seen)[k], cutoff))
        invariant forall k :: k in seen ==> seen[k] == old(seen)[k]
        decreases left
      {
        var k :| k in left;
        if !seen[k].pending && seen[k].at < cutoff {
          seen := seen - {k};
        }
        left := left - {k};
      }
    }

    method FinishJti(jti: Text, success: bool, now: int)
      modifies `seen
      ensures View() == Finish(old(View()), jti, success, now)
    {
      if success {
        seen := seen[jti := Entry(now, false)];
      } else {
        seen := seen - {jti};
      }
    }
  }

  // ---------------------------------------------------------------------------
  // Sweeping lazily answers as a full history would.

  /** What happened to the cache, in time order. */
  datatype Op =
    | Accepted(jti: Text, at: int)
    | Rejected(jti: Text, at: int)
    | Finished(jti: Text, success: bool, at: int)

  ghost function Replay(window: int, ops: seq<Op>): Cache {
    if ops == [] then EMPTY
    else
      var c := Replay(window, ops[..|ops| - 1]);
      match ops[|ops| - 1]
      case Finished(jti, success, at) => Finish(c, jti, success, at)
      case Accepted(jti, at) => Accept(c, window, jti, at).0
      case Rejected(jti, at) => Accept(c, window, jti, at).0
  }

  /** The times do not go back, and every recorded answer is the cache's. */
  ghost predicate Recorded(window: int, ops: seq<Op>) {
    ops == [] ||
    var front, op := ops[..|ops| - 1], ops[|ops| - 1];
    && Recorded(window, front)
    && (front != [] ==> front[|front| - 1].at <= op.at)
    && (op.Accepted? ==> Accept(Replay(window, front), window, op.jti, op.at).1)
    && (op.Rejected? ==> !Accept(Replay(window, front), window, op.jti, op.at).1)
  }

  /** The full-history answer: the last thing that happened to the id was that a
      request took it, or that one completed within the window. */
  ghost predicate Taken(ops: seq<Op>, jti: Text, cutoff: int) {
    ops != [] &&
    var front, op := ops[..|ops| - 1], ops[|ops| - 1];
    if op.jti != jti || op.Rejected? then Taken(front, jti, cutoff)
    else op.Accepted? || (op.success && !(op.at < cutoff))
  }

  lemma {:induction false} TakenNarrows(ops: seq<Op>, jti: Text, cutoff: int, later: int)
    requires cutoff <= later && Taken(ops, jti, later)
    ensures Taken(ops, jti, cutoff)
  {
    var op := ops[|ops| - 1];
    if op.jti != jti || op.Rejected? {
      TakenNarrows(ops[..|ops| - 1], jti, cutoff, later);
    }
  }

  ghost function Clock(ops: seq<Op>): int
    requires ops != []
  {
    ops[|ops| - 1].at
  }

  /** From its last operation on, the lazily swept cache holds an id exactly when the
      whole history says it is taken. */
  lemma {:induction false} LazySweepIsInvisible(window: int, ops: seq<Op>, jti: Text, cutoff: int)
    requires Recorded(window, ops) && (ops != [] ==> Clock(ops) - window <= cutoff)
    ensures Held(Replay(window, ops).seen, jti, cutoff) <==> Taken(ops, jti, cutoff)
  {
    if ops == [] {
    } else {
      var front, op := ops[..|ops| - 1], ops[|ops| - 1];
      LazySweepIsInvisible(window, front, jti, cutoff);
      if !op.Finished? {
        LazySweepIsInvisible(window, front, jti, op.at - window);
        if Taken(front, jti, cutoff) {
          TakenNarrows(front, jti, op.at - window, cutoff);
        }
      }
    }
  }

  /** So every accept answers from the history alone. */
  lemma AcceptAnswers(window: int, ops: seq<Op>, jti: Text, now: int)
    requires Recorded(window, ops) && (ops != [] ==> Clock(ops) <= now)
    ensures Accept(Replay(window, ops), window, jti, now).1 <==> !Taken(ops, jti, now - window)
  {
    LazySweepIsInvisible(window, ops, jti, now - window);
  }

  /** A minute after the last sweep, an accept leaves no id that is neither taken nor
      completed within the window, but perhaps its own; before that it drops nothing. */
  lemma AcceptSweeps(c: Cache, window: int, jti: Text, now: int)
    ensures var d := Accept(c, window, jti, now).0;
            if c.lastSweep.None? || now >= c.lastSweep.value + 60_000_000_000 then
              && d.lastSweep == Some(now)
              && (forall k :: k in d.seen ==> d.seen[k].pending || d.seen[k].at >= now - window)
            else d.lastSweep == c.lastSweep && forall k :: k in c.seen ==> k in d.seen
  {
  }
}
