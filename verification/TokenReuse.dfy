/** What every run over the shared SSO cache keeps: no rotated refresh token is sent
    again, tokens go to their own issuer, and a logout is final. */
module TokenReuse {
  import opened Bytes
  import opened TokenCache
  import opened TokenCacheRuns

  // ---------------------------------------------------------------------------
  // Rotated refresh tokens.

  /** Rotated only if the replacement was lost. */
  ghost predicate Excused(s: System, r: string) { r in s.rotated ==> r in s.lost }

  ghost predicate Pending(w: Process) { (w.Signed? || w.Writing?) && w.tokens.refresh != "" }

  /** tokens.json holds no rotated token, unless the lock holder is about to replace it. */
  ghost predicate FileExcused(s: System) {
    s.files.tokens.Holds? ==>
      var r := s.files.tokens.value.tokens.refresh;
      && r in s.published
      && (Excused(s, r) ||
          (s.lock.Some? && s.lock.value in s.procs &&
           var w := s.procs[s.lock.value]; w.Holding? && w.presented == r && w.tokens.refresh != r))
  }

  ghost predicate ProcExcused(s: System, w: Process) {
    && (w.Presenting? ==> w.cached.tokens.refresh in s.published && Excused(s, w.cached.tokens.refresh))
    && (w.Holding? ==> w.tokens.refresh in s.published && Excused(s, w.tokens.refresh))
    && (Pending(w) ==> w.tokens.refresh !in s.published && w.tokens.refresh in s.issuedBy)
  }

  ghost predicate Accounted(s: System) {
    && "" !in s.rotated && s.rotated <= s.published
    && (forall r :: r in s.published && r != "" ==> r in s.issuedBy)
  }

  ghost predicate DistinctPending(s: System) {
    forall p, q :: p in s.procs && q in s.procs && p != q && Pending(s.procs[p]) && Pending(s.procs[q]) ==>
      s.procs[p].tokens.refresh != s.procs[q].tokens.refresh
  }

  ghost predicate SentExcused(s: System) {
    forall k :: 0 <= k < |s.sent| && s.sent[k].rotated ==> s.sent[k].token in s.lost
  }

  ghost predicate RotationInv(s: System) {
    && Accounted(s) && FileExcused(s) && DistinctPending(s) && SentExcused(s)
    && (forall p :: p in s.procs ==> ProcExcused(s, s.procs[p]))
  }

  ghost predicate Inv(s: System) { LockInv(s) && OriginInv(s) && RotationInv(s) }

  /** Only the lock holder is past its reload. */
  lemma OthersWait(s: System, p: nat, q: nat)
    requires LockInv(s) && p in s.procs && q in s.procs && p != q && HoldsLock(s.procs[p])
    ensures !HoldsLock(s.procs[q])
  {
  }

  lemma GrantKeepsRotation(s: System, p: nat, reply: Tokens)
    requires Inv(s) && Enabled(s, Exchange(p, Granted(reply)))
    ensures RotationInv(Next(s, Exchange(p, Granted(reply))))
  {
    hide OriginInv, LockInv, Belongs;
    var w, t := s.procs[p], Next(s, Exchange(p, Granted(reply)));
    var r := w.cached.tokens.refresh;
    GrantFacts(s, p, reply);
    forall q | q in t.procs
      ensures ProcExcused(t, t.procs[q])
    {
      assert q in s.procs && ProcExcused(s, s.procs[q]);
      if q != p {
        OthersWait(s, p, q);
      }
    }
  }

  /** What a granted exchange does to the sets the invariant speaks of. */
  lemma GrantFacts(s: System, p: nat, reply: Tokens)
    requires Inv(s) && Enabled(s, Exchange(p, Granted(reply)))
    ensures var t := Next(s, Exchange(p, Granted(reply)));
            var r := s.procs[p].cached.tokens.refresh;
            var kept := t.procs[p].tokens.refresh;
            && s.lock == Some(p) && r != "" && r in s.published
            && (kept == r || (kept !in s.published && kept !in s.issuedBy && kept != ""))
            && kept in t.issuedBy
            && (forall k :: k in s.issuedBy ==> k in t.issuedBy)
  {
    hide DistinctPending, SentExcused, FileExcused;
    assert ProcExcused(s, s.procs[p]) && ProcBelongs(s, s.procs[p]);
  }

  lemma UnansweredKeepsRotation(s: System, p: nat, a: Answer)
    requires Inv(s) && Enabled(s, Exchange(p, a)) && !a.Granted?
    ensures RotationInv(Next(s, Exchange(p, a)))
  {
    hide LockInv, Belongs;
    var t := Next(s, Exchange(p, a));
    assert ProcExcused(s, s.procs[p]) && ProcBelongs(s, s.procs[p]);
    assert s.lock == Some(p) by { HolderIs(s, p); }
    forall q | q in t.procs
      ensures ProcExcused(t, t.procs[q])
    {
      assert q in s.procs && ProcExcused(s, s.procs[q]);
    }
  }

  lemma HolderIs(s: System, p: nat)
    requires LockInv(s) && p in s.procs && HoldsLock(s.procs[p])
    ensures s.lock == Some(p)
  {
  }

  lemma WriteKeepsRotation(s: System, step: Step)
    requires Inv(s) && Enabled(s, step) && (step.Save? || step.WriteTokens? || step.Stop?)
    ensures RotationInv(Next(s, step))
  {
    hide LockInv, OriginInv;
    var p, t := step.p, Next(s, step);
    assert ProcExcused(s, s.procs[p]);
    if HoldsLock(s.procs[p]) {
      HolderIs(s, p);
    }
    forall q | q in t.procs
      ensures ProcExcused(t, t.procs[q])
    {
      assert q in s.procs && ProcExcused(s, s.procs[q]);
    }
  }

  lemma SignInKeepsRotation(s: System, p: nat, cfg: Config, tokens: Tokens)
    requires Inv(s) && Enabled(s, SignIn(p, cfg, tokens))
    ensures RotationInv(Next(s, SignIn(p, cfg, tokens)))
  {
    hide LockInv, OriginInv;
    var t := Next(s, SignIn(p, cfg, tokens));
    assert forall k :: k in s.issuedBy ==> k in t.issuedBy;
    if s.lock.Some? {
      assert s.lock.value in s.procs by { HolderExists(s); }
    }
    forall q | q in t.procs
      ensures ProcExcused(t, t.procs[q])
    {
      assert q in s.procs ==> ProcExcused(s, s.procs[q]);
    }
    assert DistinctPending(t) by {
      assert forall q :: q in s.procs && Pending(s.procs[q]) ==> ProcExcused(s, s.procs[q]);
    }
  }

  lemma HolderExists(s: System)
    requires LockInv(s) && s.lock.Some?
    ensures s.lock.value in s.procs && HoldsLock(s.procs[s.lock.value])
  {
  }

  lemma LoadKeepsRotation(s: System, step: Step)
    requires Inv(s) && Enabled(s, step) && (step.Check? || step.Reload?)
    ensures RotationInv(Next(s, step))
  {
    hide OriginInv, Matches, FreshFor;
    var t := Next(s, step);
    forall q | q in t.procs
      ensures ProcExcused(t, t.procs[q])
    {
      assert q in s.procs && ProcExcused(s, s.procs[q]);
    }
  }

  lemma QuietKeepsRotation(s: System, step: Step)
    requires Inv(s) && Enabled(s, step) && (step.Peek? || step.TakeLock? || step.WriteConfig? || step.Logout?)
    ensures RotationInv(Next(s, step))
  {
    hide OriginInv;
    var t := Next(s, step);
    forall q | q in t.procs
      ensures ProcExcused(t, t.procs[q])
    {
      assert q in s.procs ==> ProcExcused(s, s.procs[q]);
    }
  }

  lemma StepKeeps(s: System, step: Step)
    requires Inv(s) && Enabled(s, step)
    ensures Inv(Next(s, step))
  {
    hide LockInv, OriginInv, RotationInv, Enabled, Next;
    StepKeepsLock(s, step);
    StepKeepsOrigin(s, step);
    match step {
      case Exchange(p, Granted(reply)) => GrantKeepsRotation(s, p, reply);
      case Exchange(p, a) => UnansweredKeepsRotation(s, p, a);
      case SignIn(p, cfg, tokens) => SignInKeepsRotation(s, p, cfg, tokens);
      case Save(_) => WriteKeepsRotation(s, step);
      case WriteTokens(_) => WriteKeepsRotation(s, step);
      case Stop(_) => WriteKeepsRotation(s, step);
      case Check(_, _) => LoadKeepsRotation(s, step);
      case Reload(_, _) => LoadKeepsRotation(s, step);
      case _ => QuietKeepsRotation(s, step);
    }
  }

  // ---------------------------------------------------------------------------
  // Over every run.

  ghost predicate IsRun(s: System, steps: seq<Step>)
    decreases |steps|
  {
    steps == [] || (Enabled(s, steps[0]) && IsRun(Next(s, steps[0]), steps[1..]))
  }

  ghost function After(s: System, steps: seq<Step>): System
    requires IsRun(s, steps)
    decreases |steps|
  {
    if steps == [] then s else After(Next(s, steps[0]), steps[1..])
  }

  lemma {:induction false} RunKeeps(s: System, steps: seq<Step>)
    requires Inv(s) && IsRun(s, steps)
    ensures Inv(After(s, steps))
    decreases |steps|
  {
    hide Inv, Enabled, Next;
    if steps == [] {
    } else {
      StepKeeps(s, steps[0]);
      RunKeeps(Next(s, steps[0]), steps[1..]);
    }
  }

  /** The files a run may start from: bound tokens came from the issuer they are bound
      to, tokens never bound from the one config.json names. */
  ghost predicate StartOk(files: Files, issuedBy: map<string, Config>) {
    files.tokens.Holds? ==>
      && FileBelongs(Start(files, issuedBy), files.tokens.value, files.config)
      && IssuedSome(issuedBy, files.tokens.value.tokens.refresh)
  }

  ghost predicate IssuedSome(issuedBy: map<string, Config>, token: string) { token != "" ==> token in issuedBy }

  lemma StartKeeps(files: Files, issuedBy: map<string, Config>)
    requires StartOk(files, issuedBy)
    ensures Inv(Start(files, issuedBy))
  {
  }

  /** In every run, a refresh token that its issuer has rotated is sent again only if
      the answer that replaced it was lost before it reached tokens.json. */
  lemma RotatedNotResent(files: Files, issuedBy: map<string, Config>, steps: seq<Step>, k: nat)
    requires StartOk(files, issuedBy) && IsRun(Start(files, issuedBy), steps)
    requires k < |After(Start(files, issuedBy), steps).sent|
    ensures var s := After(Start(files, issuedBy), steps); s.sent[k].rotated ==> s.sent[k].token in s.lost
  {
    hide Start, StartOk, IsRun, After, Accounted, FileExcused, DistinctPending, LockInv, OriginInv;
    StartKeeps(files, issuedBy);
    RunKeeps(Start(files, issuedBy), steps);
  }

  /** In every run, each refresh token sent was issued by the issuer, and to the client,
      that it is sent to, however logins with different configurations interleave and
      wherever they stop. */
  lemma SentToItsIssuer(files: Files, issuedBy: map<string, Config>, steps: seq<Step>, k: nat)
    requires StartOk(files, issuedBy) && IsRun(Start(files, issuedBy), steps)
    requires k < |After(Start(files, issuedBy), steps).sent|
    ensures var s := After(Start(files, issuedBy), steps);
            s.sent[k].token in s.issuedBy && s.issuedBy[s.sent[k].token] == s.sent[k].to
  {
    hide Start, StartOk, IsRun, After, RotationInv, LockInv, ProcBelongs, FileBelongs;
    StartKeeps(files, issuedBy);
    RunKeeps(Start(files, issuedBy), steps);
  }

  lemma {:induction false} RunConcat(s: System, a: seq<Step>, b: seq<Step>)
    requires IsRun(s, a) && IsRun(After(s, a), b)
    ensures IsRun(s, a + b) && After(s, a + b) == After(After(s, a), b)
    decreases |a|
  {
    hide Enabled, Next;
    if a == [] {
      assert a + b == b;
    } else {
      RunConcat(Next(s, a[0]), a[1..], b);
      assert (a + b)[1..] == a[1..] + b;
    }
  }

  lemma RunCons(s: System, step: Step, steps: seq<Step>)
    requires Enabled(s, step) && IsRun(Next(s, step), steps)
    ensures IsRun(s, [step] + steps) && After(s, [step] + steps) == After(Next(s, step), steps)
  {
    assert ([step] + steps)[1..] == steps;
  }

  lemma RunOfFour(s: System, a: Step, b: Step, c: Step, d: Step)
    requires Enabled(s, a) && Enabled(Next(s, a), b) && Enabled(Next(Next(s, a), b), c)
    requires Enabled(Next(Next(Next(s, a), b), c), d)
    ensures IsRun(s, [a, b, c, d]) && After(s, [a, b, c, d]) == Next(Next(Next(Next(s, a), b), c), d)
  {
    hide Enabled, Next;
    RunCons(Next(Next(Next(s, a), b), c), d, []);
    RunCons(Next(Next(s, a), b), c, [d]);
    RunCons(Next(s, a), b, [c, d]);
    RunCons(s, a, [b, c, d]);
  }

  // ---------------------------------------------------------------------------
  // A lost rotation.

  /** One process taking the refresh path up to presenting the refresh token. */
  function Refreshing(p: nat, cfg: Config, skew: int, now: int): seq<Step> {
    [Peek(p, cfg, skew), Check(p, now), TakeLock(p), Reload(p, now)]
  }

  /** tokens.json is bound to `cfg`, or was never bound and config.json names `cfg`. */
  predicate Own(files: Files, cfg: Config) {
    && files.tokens.Holds?
    && (files.tokens.value.bound == Some(cfg) ||
        (files.tokens.value.bound.None? && files.config == Holds(cfg) && cfg.issuer != "" && cfg.clientID != ""))
  }

  /** It also has less than `skew` left, and can be refreshed. */
  predicate Due(files: Files, cfg: Config, skew: int, now: int) {
    && Own(files, cfg)
    && files.tokens.value.tokens.expiration < now + skew && files.tokens.value.tokens.refresh != ""
  }

  lemma RefreshPresents(s: System, p: nat, cfg: Config, skew: int, now: int)
    requires s.lock.None? && p !in s.procs && Due(s.files, cfg, skew, now)
    ensures var run := Refreshing(p, cfg, skew, now);
            && IsRun(s, run)
            && After(s, run) == s.(procs := s.procs[p := Presenting(cfg, s.files.tokens.value)], lock := Some(p))
  {
    hide IsRun, After;
    var s1 := Next(s, Peek(p, cfg, skew));
    var s2 := Next(s1, Check(p, now));
    var s3 := Next(s2, TakeLock(p));
    var s4 := Next(s3, Reload(p, now));
    RunOfFour(s, Peek(p, cfg, skew), Check(p, now), TakeLock(p), Reload(p, now));
    assert s4.procs == s.procs[p := Presenting(cfg, s.files.tokens.value)];
  }

  /** The two ways to lose a rotation: the answer never arrives, or it arrives and the
      process stops before saving it. */
  function Losing(p: nat, answer: Answer): seq<Step> {
    if answer.Granted? then [Exchange(p, answer), Stop(p)] else [Exchange(p, answer)]
  }

  predicate Rotates(answer: Answer, r: string) {
    answer.Dropped? || (answer.Granted? && answer.reply.refresh != "" && answer.reply.refresh != r)
  }

  lemma LosingLeaves(s: System, p: nat, answer: Answer)
    requires p in s.procs && s.procs[p].Presenting? && s.lock == Some(p)
    requires var r := s.procs[p].cached.tokens.refresh;
             AnswerOk(s, s.procs[p].cfg, r, answer) && Rotates(answer, r)
    ensures IsRun(s, Losing(p, answer))
    ensures var r, t := s.procs[p].cached.tokens.refresh, After(s, Losing(p, answer));
            && t.files == s.files && t.lock.None? && r in t.rotated
            && t.procs == s.procs[p := Stopped]
            && t.sent == s.sent + [Sent(r, s.procs[p].cfg, r in s.rotated)]
  {
    hide Issue, Issuable;
    var s1 := Next(s, Exchange(p, answer));
    if answer.Granted? {
      var s2 := Next(s1, Stop(p));
      RunCons(s1, Stop(p), []);
      RunCons(s, Exchange(p, answer), [Stop(p)]);
      assert s2.procs == s.procs[p := Stopped];
    } else {
      RunCons(s, Exchange(p, answer), []);
    }
  }

  /** From every start whose tokens.json is due: if the first refresh loses its
      rotation, either way, the second presents the same token again. */
  lemma LostRotationIsResent(files: Files, issuedBy: map<string, Config>, cfg: Config, skew: int, now: int,
                             answer: Answer)
    requires Due(files, cfg, skew, now)
    requires var r := files.tokens.value.tokens.refresh;
             AnswerOk(Start(files, issuedBy), cfg, r, answer) && Rotates(answer, r)
    ensures var r := files.tokens.value.tokens.refresh;
            var run := Refreshing(0, cfg, skew, now) + Losing(0, answer)
                       + (Refreshing(1, cfg, skew, now) + [Exchange(1, Refused)]);
            && IsRun(Start(files, issuedBy), run)
            && After(Start(files, issuedBy), run).sent == [Sent(r, cfg, false), Sent(r, cfg, true)]
  {
    hide IsRun, After, Due, Refreshing, Losing, Rotates, Issuable;
    var s := Start(files, issuedBy);
    RefreshPresents(s, 0, cfg, skew, now);
    var s1 := After(s, Refreshing(0, cfg, skew, now));
    LosingLeaves(s1, 0, answer);
    var s2 := After(s1, Losing(0, answer));
    RunConcat(s, Refreshing(0, cfg, skew, now), Losing(0, answer));
    RefreshPresents(s2, 1, cfg, skew, now);
    var s3 := After(s2, Refreshing(1, cfg, skew, now));
    Refuses(s3, 1);
    RunConcat(s2, Refreshing(1, cfg, skew, now), [Exchange(1, Refused)]);
    RunConcat(s, Refreshing(0, cfg, skew, now) + Losing(0, answer),
              Refreshing(1, cfg, skew, now) + [Exchange(1, Refused)]);
  }

  lemma Refuses(s: System, p: nat)
    requires p in s.procs && s.procs[p].Presenting?
    ensures IsRun(s, [Exchange(p, Refused)])
    ensures var w := s.procs[p];
            var r := w.cached.tokens.refresh;
            After(s, [Exchange(p, Refused)]).sent == s.sent + [Sent(r, w.cfg, r in s.rotated)]
  {
    RunCons(s, Exchange(p, Refused), []);
  }

  // ---------------------------------------------------------------------------
  // Whose tokens a caller is given.

  /** No token at all. */
  predicate Blank(t: Tokens) { t.access == "" && t.refresh == "" && t.idToken == "" }

  /** The content of tokens.json names its issuer and client, or holds no token. */
  predicate Named(cached: Cached) { cached.bound.Some? || Blank(cached.tokens) }

  predicate NamedOrMissing(files: Files) { files.tokens.Holds? ==> Named(files.tokens.value) }

  ghost predicate NamedInv(s: System) {
    && NamedOrMissing(s.files)
    && (forall p :: p in s.procs && s.procs[p].Peeked? ==> Named(s.procs[p].cached))
    && (forall p :: p in s.procs && s.procs[p].Served? && s.procs[p].via.Unlocked? ==>
          s.procs[p].via.bound.Some? || Blank(s.procs[p].tokens))
  }

  lemma StepKeepsNamed(s: System, step: Step)
    requires NamedInv(s) && Enabled(s, step)
    ensures NamedInv(Next(s, step))
  {
    hide Matches, FreshFor, Issue, Issuable, Merge, Decide, Blank;
  }

  lemma {:induction false} RunKeepsNamed(s: System, steps: seq<Step>)
    requires NamedInv(s) && IsRun(s, steps)
    ensures NamedInv(After(s, steps))
    decreases |steps|
  {
    hide NamedInv, Enabled, Next;
    if steps == [] {
    } else {
      StepKeepsNamed(s, steps[0]);
      RunKeepsNamed(Next(s, steps[0]), steps[1..]);
    }
  }

  /** The caller `p` was given tokens, all of its own issuer and client. */
  ghost predicate ServedOwn(s: System, p: nat) {
    p in s.procs && s.procs[p].Served? ==> Belongs(s.issuedBy, s.procs[p].tokens, s.procs[p].cfg)
  }

  /** If tokens.json names its issuer at the start, every caller in every run is given
      only tokens of its own issuer and client. */
  lemma NamedServesOwn(files: Files, issuedBy: map<string, Config>, steps: seq<Step>, p: nat)
    requires StartOk(files, issuedBy) && NamedOrMissing(files) && IsRun(Start(files, issuedBy), steps)
    ensures ServedOwn(After(Start(files, issuedBy), steps), p)
  {
    hide IsRun, After, RotationInv, LockInv, SentOk, FileBelongs, StartOk;
    StartKeeps(files, issuedBy);
    RunKeeps(Start(files, issuedBy), steps);
    RunKeepsNamed(Start(files, issuedBy), steps);
    var s := After(Start(files, issuedBy), steps);
    assert p in s.procs ==> ProcBelongs(s, s.procs[p]);
  }

  ghost function LongestOf(used: set<string>): (n: nat)
    ensures forall x :: x in used ==> |x| <= n
  {
    if used == {} then 0
    else
      var x :| x in used;
      var n := LongestOf(used - {x});
      assert used == (used - {x}) + {x};
      if |x| > n then |x| else n
  }

  /** There is always a token string nobody has used. */
  lemma NewString(used: set<string>) returns (x: string)
    ensures x != "" && x !in used
  {
    x := seq(LongestOf(used) + 1, _ => 'a');
  }

  /** A login from the answer of its flow to its last write. */
  function LoggingIn(q: nat, b: Config, u: Tokens): seq<Step> {
    [SignIn(q, b, u), TakeLock(q), WriteTokens(q), WriteConfig(q)]
  }

  /** A login that runs to its end leaves its tokens, bound to its configuration, in
      tokens.json, and the configuration in config.json. */
  lemma LoginWrites(s: System, q: nat, b: Config, u: Tokens)
    requires s.lock.None? && q !in s.procs && Complete(b) && Issuable(s.issuedBy, u, b, "")
    ensures IsRun(s, LoggingIn(q, b, u))
    ensures After(s, LoggingIn(q, b, u)) ==
            s.(files := Files(Holds(Cached(u, Some(b))), Holds(b)), procs := s.procs[q := LoggedIn(b)],
               issuedBy := Issue(s.issuedBy, u, b), published := s.published + {u.refresh})
  {
    hide Issue, Issuable, IsRun, After;
    var s1 := Next(s, SignIn(q, b, u));
    var s2 := Next(s1, TakeLock(q));
    var s3 := Next(s2, WriteTokens(q));
    var s4 := Next(s3, WriteConfig(q));
    RunOfFour(s, SignIn(q, b, u), TakeLock(q), WriteTokens(q), WriteConfig(q));
    assert s4.procs == s.procs[q := LoggedIn(b)];
  }

  /** A login between the two reads of another caller's unlocked load. */
  function Racing(b: Config, u: Tokens, now: int): seq<Step> {
    [Peek(0, b, 0)] + (LoggingIn(1, b, u) + [Check(0, now)])
  }

  lemma UnboundReadRaces(files: Files, issuedBy: map<string, Config>, t: Tokens, b: Config, u: Tokens)
    requires files.tokens == Holds(Cached(t, None)) && Complete(b) && Issuable(issuedBy, u, b, "")
    ensures var s, run := Start(files, issuedBy), Racing(b, u, t.expiration);
            && IsRun(s, run) && 0 in After(s, run).procs
            && After(s, run).procs[0] == Served(b, t, Unlocked(None, files.config, t.expiration, 0))
            && After(s, run).issuedBy == Issue(issuedBy, u, b)
  {
    hide Issue, Issuable, IsRun, After, LoggingIn;
    var s, check := Start(files, issuedBy), Check(0, t.expiration);
    var s1 := Next(s, Peek(0, b, 0));
    LoginWrites(s1, 1, b, u);
    var s2 := After(s1, LoggingIn(1, b, u));
    assert s2.procs[0] == Peeked(b, 0, Cached(t, None), files.config);
    RunNone(Next(s2, check));
    RunCons(s2, check, []);
    assert [check] + [] == [check];
    RunConcat(s1, LoggingIn(1, b, u), [check]);
    RunCons(s, Peek(0, b, 0), LoggingIn(1, b, u) + [check]);
  }

  lemma RunNone(s: System)
    ensures IsRun(s, []) && After(s, []) == s
  {
  }

  /** If it does not, whatever config.json says, a login by another configuration
      between the two reads of the unlocked load makes a caller take them for its own. */
  lemma UnnamedServesForeign(files: Files, issuedBy: map<string, Config>) returns (steps: seq<Step>)
    requires files.tokens.Holds? && !Named(files.tokens.value)
    ensures IsRun(Start(files, issuedBy), steps) && !ServedOwn(After(Start(files, issuedBy), steps), 0)
  {
    hide IsRun, After, Racing;
    var t := files.tokens.value.tokens;
    var x := if t.access != "" then t.access else if t.refresh != "" then t.refresh else t.idToken;
    var b := if x in issuedBy && issuedBy[x] == Config("i", "c") then Config("i", "d") else Config("i", "c");
    var y := NewString(issuedBy.Keys + {x});
    var u := Tokens(y, "", "", 0);
    UnboundReadRaces(files, issuedBy, t, b, u);
    steps := Racing(b, u, t.expiration);
    assert !IssuedTo(Issue(issuedBy, u, b), x, b);
  }

  /** In every run every caller is given only tokens of its own issuer and client,
      exactly when tokens.json is missing, bound or blank at the start. */
  lemma ServedBelongIff(files: Files, issuedBy: map<string, Config>)
    requires StartOk(files, issuedBy)
    ensures NamedOrMissing(files) <==>
            forall steps, p: nat :: IsRun(Start(files, issuedBy), steps) ==>
              ServedOwn(After(Start(files, issuedBy), steps), p)
  {
    hide IsRun, After, StartOk, Start, ServedOwn, Named;
    if NamedOrMissing(files) {
      forall steps, p: nat | IsRun(Start(files, issuedBy), steps)
        ensures ServedOwn(After(Start(files, issuedBy), steps), p)
      {
        NamedServesOwn(files, issuedBy, steps, p);
      }
    } else {
      var steps := UnnamedServesForeign(files, issuedBy);
    }
  }

  // ---------------------------------------------------------------------------
  // Logout.

  predicate PastReload(w: Process) { w.Presenting? || w.Holding? }

  /** No login writes its tokens in this run. */
  predicate NoLogin(steps: seq<Step>) { forall k :: 0 <= k < |steps| ==> !steps[k].WriteTokens? }

  /** Without a login, tokens.json never comes back. */
  ghost predicate StaysOut(s: System) {
    forall steps :: IsRun(s, steps) && NoLogin(steps) ==> After(s, steps).files.tokens.Missing?
  }

  ghost predicate NoneReturning(s: System) {
    s.files.tokens.Missing? && forall p :: p in s.procs ==> !PastReload(s.procs[p])
  }

  lemma {:induction false} OutStaysOut(s: System, steps: seq<Step>)
    requires NoneReturning(s) && IsRun(s, steps) && NoLogin(steps)
    ensures NoneReturning(After(s, steps))
    decreases |steps|
  {
    hide Enabled, Next;
    if steps == [] {
    } else {
      StepStaysOut(s, steps[0]);
      assert NoLogin(steps[1..]);
      OutStaysOut(Next(s, steps[0]), steps[1..]);
    }
  }

  lemma StepStaysOut(s: System, step: Step)
    requires NoneReturning(s) && Enabled(s, step) && !step.WriteTokens?
    ensures NoneReturning(Next(s, step))
  {
    hide Matches, FreshFor, Issue, Issuable, Merge;
  }

  /** A refresh past its reload can bring tokens.json back. */
  lemma RefreshBringsBack(s: System, p: nat) returns (steps: seq<Step>)
    requires Inv(s) && p in s.procs && PastReload(s.procs[p])
    ensures IsRun(s, steps) && NoLogin(steps) && After(s, steps).files.tokens.Holds?
  {
    hide LockInv, RotationInv;
    var w := s.procs[p];
    if w.Holding? {
      steps := [Save(p)];
      RunCons(s, Save(p), []);
    } else {
      var x := NewString(s.issuedBy.Keys);
      var answer := Granted(Tokens(x, "", "", 0));
      var s1 := Next(s, Exchange(p, answer));
      RunCons(s1, Save(p), []);
      steps := [Exchange(p, answer)] + [Save(p)];
      RunCons(s, Exchange(p, answer), [Save(p)]);
    }
  }

  /** Removing tokens.json is final, until the next login, exactly when no refresh has
      already reloaded it. */
  lemma LogoutIsFinalIff(s: System, locked: bool)
    requires Inv(s) && Enabled(s, Logout(locked))
    ensures StaysOut(Next(s, Logout(locked))) <==> forall p :: p in s.procs ==> !PastReload(s.procs[p])
  {
    hide Inv;
    var t := Next(s, Logout(locked));
    if p :| p in s.procs && PastReload(s.procs[p]) {
      StepKeeps(s, Logout(locked));
      var steps := RefreshBringsBack(t, p);
      assert !StaysOut(t);
    } else {
      forall steps | IsRun(t, steps) && NoLogin(steps)
        ensures After(t, steps).files.tokens.Missing?
      {
        OutStaysOut(t, steps);
      }
    }
  }

  /** In every run, a Logout that holds the lock is not undone by any refresh. */
  lemma LockedLogoutIsFinal(files: Files, issuedBy: map<string, Config>, steps: seq<Step>)
    requires StartOk(files, issuedBy) && IsRun(Start(files, issuedBy), steps)
    requires Enabled(After(Start(files, issuedBy), steps), Logout(true))
    ensures StaysOut(Next(After(Start(files, issuedBy), steps), Logout(true)))
  {
    hide Start, StartOk, IsRun, After, RotationInv, OriginInv, StaysOut, Next;
    StartKeeps(files, issuedBy);
    RunKeeps(Start(files, issuedBy), steps);
    LogoutIsFinalIff(After(Start(files, issuedBy), steps), true);
  }
}
