/** What callers of EnsureFreshTokens are given: tokens that were fresh at the time,
    or what the issuer granted to them. */
module TokenServed {
  import opened Bytes
  import opened TokenCache
  import opened TokenCacheRuns
  import opened TokenReuse

  /** What is kept of a grant: its access token and expiration, and the refresh and id
      tokens it was asked with where it has none. */
  predicate KeptOf(t: Tokens, g: Grant) {
    && t.access == g.reply.access && t.expiration == g.reply.expiration
    && t.refresh == (if g.reply.refresh != "" then g.reply.refresh else g.asked.refresh)
    && t.idToken == (if g.reply.idToken != "" then g.reply.idToken else g.asked.idToken)
  }

  /** The process holds or was given what its own exchange granted; a token served from
      the cache had `skew` left at the clock reading that decided it. */
  ghost predicate Current(s: System, p: nat, w: Process) {
    match w
    case Holding(_, _, t) => p in s.grants && KeptOf(t, s.grants[p])
    case Served(_, t, Refreshed) => p in s.grants && KeptOf(t, s.grants[p])
    case Served(_, t, Reloaded(at, skew)) => t.expiration >= at + skew
    case Served(_, t, Unlocked(_, _, at, skew)) => t.expiration >= at + skew
    case _ => true
  }

  ghost predicate AllCurrent(s: System) { forall p :: p in s.procs ==> Current(s, p, s.procs[p]) }

  lemma StepKeepsCurrent(s: System, step: Step)
    requires AllCurrent(s) && Enabled(s, step)
    ensures AllCurrent(Next(s, step))
  {
    hide Matches, Issue, Issuable;
    var t := Next(s, step);
    forall p | p in t.procs
      ensures Current(t, p, t.procs[p])
    {
      assert p in s.procs ==> Current(s, p, s.procs[p]);
    }
  }

  lemma {:induction false} RunKeepsCurrent(s: System, steps: seq<Step>)
    requires AllCurrent(s) && IsRun(s, steps)
    ensures AllCurrent(After(s, steps))
    decreases |steps|
  {
    hide AllCurrent, Enabled, Next;
    if steps == [] {
    } else {
      StepKeepsCurrent(s, steps[0]);
      RunKeepsCurrent(Next(s, steps[0]), steps[1..]);
    }
  }

  /** In every run, a caller served after a refresh has what its own exchange granted,
      and any other had its margin at the clock reading that decided. */
  lemma ServedCurrent(files: Files, issuedBy: map<string, Config>, steps: seq<Step>, p: nat)
    requires IsRun(Start(files, issuedBy), steps) && p in After(Start(files, issuedBy), steps).procs
    ensures var s := After(Start(files, issuedBy), steps); Current(s, p, s.procs[p])
  {
    hide IsRun, After, Current;
    RunKeepsCurrent(Start(files, issuedBy), steps);
  }

  /** What a caller is given after a refresh is what tokens.json then holds, bound to
      the caller's configuration. */
  lemma SavedIsServed(s: System, p: nat)
    requires Enabled(s, Save(p))
    ensures var t := Next(s, Save(p));
            && t.procs[p].Served?
            && t.files == s.files.(tokens := Holds(Cached(t.procs[p].tokens, Some(t.procs[p].cfg))))
  {
  }

  /** A caller whose own tokens have the margin left is served them by the unlocked
      load, whoever holds the lock. */
  lemma FreshIsServed(s: System, p: nat, cfg: Config, skew: int, now: int)
    requires p !in s.procs && Own(s.files, cfg) && s.files.tokens.value.tokens.expiration >= now + skew
    ensures var run := [Peek(p, cfg, skew), Check(p, now)];
            && IsRun(s, run) && p in After(s, run).procs
            && var w := After(s, run).procs[p]; w.Served? && w.tokens == s.files.tokens.value.tokens
  {
    var s1 := Next(s, Peek(p, cfg, skew));
    RunCons(s1, Check(p, now), []);
    RunCons(s, Peek(p, cfg, skew), [Check(p, now)]);
  }

  /** A caller that waited for the lock while another refreshed is served the new
      tokens and presents nothing. */
  lemma RefreshedWhileWaiting(s: System, p: nat, now: int)
    requires p in s.procs && s.procs[p].Wanting? && s.lock.None? && Own(s.files, s.procs[p].cfg)
    requires s.files.tokens.value.tokens.expiration >= now + s.procs[p].skew
    ensures var run := [TakeLock(p), Reload(p, now)];
            && IsRun(s, run) && p in After(s, run).procs && After(s, run).sent == s.sent && After(s, run).lock.None?
            && var w := After(s, run).procs[p]; w.Served? && w.tokens == s.files.tokens.value.tokens
  {
    var s1 := Next(s, TakeLock(p));
    RunCons(s1, Reload(p, now), []);
    RunCons(s, TakeLock(p), [Reload(p, now)]);
  }
}
