/** Any number of processes sharing the SSO cache: refreshes, logins and logouts in
    every interleaving, with crashes, failed writes and lost answers. */
module TokenCacheRuns {
  import opened Bytes
  import opened TokenCache

  /** How a served token was obtained: by the unlocked first load, with the binding and
      the config.json there were when tokens.json was read; by the load under the lock; or
      from the issuer. `at` is the clock reading that found it fresh for `skew`. */
  datatype Via =
    | Unlocked(bound: Option<Config>, configThen: File<Config>, at: int, skew: int)
    | Reloaded(at: int, skew: int)
    | Refreshed

  /** What the issuer answered to a refresh, and the tokens it was asked with. */
  datatype Grant = Grant(asked: Tokens, reply: Tokens)

  /** A process. EnsureFreshTokens: read tokens.json unlocked, check it, wait for the
      lock, reload, present the refresh token, hold the answer, save it. Login: signed in
      with an issuer, then under the lock write tokens.json and config.json. */
  datatype Process =
    | Peeked(cfg: Config, skew: int, cached: Cached, configThen: File<Config>)
    | Wanting(cfg: Config, skew: int)
    | Locked(cfg: Config, skew: int)
    | Presenting(cfg: Config, cached: Cached)
    | Holding(cfg: Config, presented: string, tokens: Tokens)
    | Signed(cfg: Config, tokens: Tokens)
    | Writing(cfg: Config, tokens: Tokens)
    | HalfWritten(cfg: Config)
    | Served(cfg: Config, tokens: Tokens, via: Via)
    | LoggedIn(cfg: Config)
    | Stopped

  /** A refresh token sent to an issuer, and whether it had been rotated away by then. */
  datatype Sent = Sent(token: string, to: Config, rotated: bool)

  /** `issuedBy` says who issued a token and to which client. `rotated` holds the refresh
      tokens their issuer has replaced, and `lost` those whose replacement never reached
      tokens.json. `published` holds the refresh tokens that were ever in tokens.json or
      in the answer to a refresh. */
  datatype System = System(files: Files, lock: Option<nat>, procs: map<nat, Process>,
                           issuedBy: map<string, Config>, rotated: set<string>, lost: set<string>,
                           published: set<string>, sent: seq<Sent>, grants: map<nat, Grant>)

  /** The issuer's side of a refresh. An answer that never arrives may have rotated. */
  datatype Answer = Granted(reply: Tokens) | Refused | Dropped(next: string)

  datatype Step =
    | Peek(p: nat, cfg: Config, skew: int)
    | Check(p: nat, now: int)
    | TakeLock(p: nat)
    | Reload(p: nat, now: int)
    | Exchange(p: nat, answer: Answer)
    | Save(p: nat)
    | SignIn(p: nat, cfg: Config, tokens: Tokens)
    | WriteTokens(p: nat)
    | WriteConfig(p: nat)
    | Stop(p: nat)
    | Logout(locked: bool)

  function Start(files: Files, issuedBy: map<string, Config>): System {
    var here := if files.tokens.Holds? then {files.tokens.value.tokens.refresh} else {};
    System(files, None, map[], issuedBy, {}, {}, here, [], map[])
  }

  predicate HoldsLock(w: Process) {
    w.Locked? || w.Presenting? || w.Holding? || w.Writing? || w.HalfWritten?
  }

  predicate Ended(w: Process) { w.Served? || w.LoggedIn? || w.Stopped? }

  // ---------------------------------------------------------------------------
  // The issuers.

  /** `cfg`'s issuer issued this string, if it is one. */
  ghost predicate IssuedTo(issuedBy: map<string, Config>, token: string, cfg: Config) {
    token != "" ==> token in issuedBy && issuedBy[token] == cfg
  }

  ghost predicate Belongs(issuedBy: map<string, Config>, t: Tokens, cfg: Config) {
    IssuedTo(issuedBy, t.access, cfg) && IssuedTo(issuedBy, t.refresh, cfg) && IssuedTo(issuedBy, t.idToken, cfg)
  }

  predicate Unclaimed(issuedBy: map<string, Config>, token: string, cfg: Config) {
    token != "" && token in issuedBy ==> issuedBy[token] == cfg
  }

  /** No two issuers hand out the same string, an answer holds an access token, and a
      refresh token is new unless it is the presented one. */
  predicate Issuable(issuedBy: map<string, Config>, t: Tokens, cfg: Config, presented: string) {
    && t.access != ""
    && Unclaimed(issuedBy, t.access, cfg) && Unclaimed(issuedBy, t.refresh, cfg) && Unclaimed(issuedBy, t.idToken, cfg)
    && (t.refresh == "" || t.refresh == presented || t.refresh !in issuedBy)
  }

  function IssueOne(issuedBy: map<string, Config>, token: string, cfg: Config): map<string, Config> {
    if token == "" then issuedBy else issuedBy[token := cfg]
  }

  function Issue(issuedBy: map<string, Config>, t: Tokens, cfg: Config): map<string, Config> {
    IssueOne(IssueOne(IssueOne(issuedBy, t.access, cfg), t.refresh, cfg), t.idToken, cfg)
  }

  // ---------------------------------------------------------------------------
  // The steps.

  predicate AnswerOk(s: System, cfg: Config, presented: string, a: Answer) {
    match a
    case Granted(reply) => Issuable(s.issuedBy, reply, cfg, presented)
    case Refused => true
    case Dropped(next) => next != "" && next !in s.issuedBy
  }

  predicate Enabled(s: System, step: Step) {
    match step
    case Peek(p, _, _) => p !in s.procs
    case Check(p, _) => p in s.procs && s.procs[p].Peeked?
    case TakeLock(p) => p in s.procs && (s.procs[p].Wanting? || s.procs[p].Signed?) && s.lock.None?
    case Reload(p, _) => p in s.procs && s.procs[p].Locked?
    case Exchange(p, a) =>
      && p in s.procs && s.procs[p].Presenting?
      && AnswerOk(s, s.procs[p].cfg, s.procs[p].cached.tokens.refresh, a)
    case Save(p) => p in s.procs && s.procs[p].Holding?
    case SignIn(p, cfg, t) => p !in s.procs && Complete(cfg) && Issuable(s.issuedBy, t, cfg, "")
    case WriteTokens(p) => p in s.procs && s.procs[p].Writing?
    case WriteConfig(p) => p in s.procs && s.procs[p].HalfWritten?
    case Stop(p) => p in s.procs && !Ended(s.procs[p])
    case Logout(locked) => locked ==> s.lock.None?
  }

  function Become(s: System, p: nat, w: Process): System { s.(procs := s.procs[p := w]) }

  /** Return from the function that held the lock. */
  function Leave(s: System, p: nat, w: Process): System { Become(s, p, w).(lock := None) }

  function PeekStep(s: System, p: nat, cfg: Config, skew: int): System {
    Become(s, p, if !s.files.tokens.Holds? then Stopped else Peeked(cfg, skew, s.files.tokens.value, s.files.config))
  }

  function CheckStep(s: System, p: nat, now: int): System
    requires Enabled(s, Check(p, now))
  {
    var w := s.procs[p];
    Become(s, p,
           if !Matches(w.cached, s.files.config, w.cfg) then Stopped
           else if FreshFor(w.cached.tokens, w.skew, now) then
             Served(w.cfg, w.cached.tokens, Unlocked(w.cached.bound, w.configThen, now, w.skew))
           else Wanting(w.cfg, w.skew))
  }

  function LockStep(s: System, p: nat): System
    requires Enabled(s, TakeLock(p))
  {
    var w := s.procs[p];
    Become(s, p, if w.Wanting? then Locked(w.cfg, w.skew) else Writing(w.cfg, w.tokens)).(lock := Some(p))
  }

  function ReloadStep(s: System, p: nat, now: int): System
    requires Enabled(s, Reload(p, now))
  {
    var w := s.procs[p];
    match Decide(s.files, w.cfg, w.skew, now)
    case Fail(_) => Leave(s, p, Stopped)
    case Serve(t) => Leave(s, p, Served(w.cfg, t, Reloaded(now, w.skew)))
    case Present(cached) => Become(s, p, Presenting(w.cfg, cached))
  }

  function ExchangeStep(s: System, p: nat, a: Answer): System
    requires Enabled(s, Exchange(p, a))
  {
    var w := s.procs[p];
    var r := w.cached.tokens.refresh;
    var s1 := s.(sent := s.sent + [Sent(r, w.cfg, r in s.rotated)]);
    match a
    case Granted(reply) =>
      var kept := Merge(w.cached.tokens, reply);
      Become(s1, p, Holding(w.cfg, r, kept)).(
        grants := s.grants[p := Grant(w.cached.tokens, reply)],
        issuedBy := Issue(s.issuedBy, reply, w.cfg), published := s.published + {kept.refresh},
        rotated := if kept.refresh != r then s.rotated + {r} else s.rotated)
    case Refused => Leave(s1, p, Stopped)
    case Dropped(next) =>
      Leave(s1, p, Stopped).(issuedBy := s.issuedBy[next := w.cfg], rotated := s.rotated + {r}, lost := s.lost + {r})
  }

  function SaveStep(s: System, p: nat): System
    requires Enabled(s, Save(p))
  {
    var w := s.procs[p];
    Leave(s, p, Served(w.cfg, w.tokens, Refreshed)).(files := s.files.(tokens := Holds(Cached(w.tokens, Some(w.cfg)))))
  }

  function SignInStep(s: System, p: nat, cfg: Config, t: Tokens): System {
    Become(s, p, Signed(cfg, t)).(issuedBy := Issue(s.issuedBy, t, cfg))
  }

  function WriteTokensStep(s: System, p: nat): System
    requires Enabled(s, WriteTokens(p))
  {
    var w := s.procs[p];
    Become(s, p, HalfWritten(w.cfg)).(
      files := s.files.(tokens := Holds(Cached(w.tokens, Some(w.cfg)))), published := s.published + {w.tokens.refresh})
  }

  function WriteConfigStep(s: System, p: nat): System
    requires Enabled(s, WriteConfig(p))
  {
    var w := s.procs[p];
    Leave(s, p, LoggedIn(w.cfg)).(files := s.files.(config := Holds(w.cfg)))
  }

  /** A process ends early: a crash, a failed write, a lock not obtained. The operating
      system releases its lock. A rotation it had not saved is lost. */
  function StopStep(s: System, p: nat): System
    requires Enabled(s, Stop(p))
  {
    var w := s.procs[p];
    var t := if HoldsLock(w) then Leave(s, p, Stopped) else Become(s, p, Stopped);
    if w.Holding? && w.tokens.refresh != w.presented then t.(lost := s.lost + {w.presented}) else t
  }

  function Next(s: System, step: Step): System
    requires Enabled(s, step)
  {
    match step
    case Peek(p, cfg, skew) => PeekStep(s, p, cfg, skew)
    case Check(p, now) => CheckStep(s, p, now)
    case TakeLock(p) => LockStep(s, p)
    case Reload(p, now) => ReloadStep(s, p, now)
    case Exchange(p, a) => ExchangeStep(s, p, a)
    case Save(p) => SaveStep(s, p)
    case SignIn(p, cfg, t) => SignInStep(s, p, cfg, t)
    case WriteTokens(p) => WriteTokensStep(s, p)
    case WriteConfig(p) => WriteConfigStep(s, p)
    case Stop(p) => StopStep(s, p)
    case Logout(_) => s.(files := s.files.(tokens := Missing))
  }

  // ---------------------------------------------------------------------------
  // Mutual exclusion.

  ghost predicate LockInv(s: System) {
    && (forall p :: p in s.procs && HoldsLock(s.procs[p]) ==> s.lock == Some(p))
    && (s.lock.Some? ==> s.lock.value in s.procs && HoldsLock(s.procs[s.lock.value]))
  }

  lemma StepKeepsLock(s: System, step: Step)
    requires LockInv(s) && Enabled(s, step)
    ensures LockInv(Next(s, step))
  {
    hide Issue, Issuable, Matches, Merge, FreshFor, Decide;
  }

  // ---------------------------------------------------------------------------
  // Whose tokens they are.

  ghost predicate FileBelongs(s: System, cached: Cached, config: File<Config>) {
    match cached.bound
    case Some(c) => Belongs(s.issuedBy, cached.tokens, c)
    case None => config.Holds? ==> Belongs(s.issuedBy, cached.tokens, config.value)
  }

  ghost predicate ProcBelongs(s: System, w: Process) {
    match w
    case Peeked(_, _, cached, was) => FileBelongs(s, cached, was)
    case Presenting(cfg, cached) => cached.tokens.refresh != "" && Belongs(s.issuedBy, cached.tokens, cfg)
    case Holding(cfg, r, t) => Belongs(s.issuedBy, t, cfg)
    case Signed(cfg, t) => Belongs(s.issuedBy, t, cfg)
    case Writing(cfg, t) => Belongs(s.issuedBy, t, cfg)
    case HalfWritten(_) => s.files.tokens.Holds? ==> s.files.tokens.value.bound.Some?
    case Served(cfg, t, Reloaded(_, _)) => Belongs(s.issuedBy, t, cfg)
    case Served(cfg, t, Refreshed) => Belongs(s.issuedBy, t, cfg)
    case Served(cfg, t, Unlocked(bound, was, _, _)) =>
      if bound.Some? then Belongs(s.issuedBy, t, cfg) else was.Holds? ==> Belongs(s.issuedBy, t, was.value)
    case _ => true
  }

  ghost predicate SentOk(s: System) {
    forall k :: 0 <= k < |s.sent| ==> s.sent[k].token != "" && IssuedTo(s.issuedBy, s.sent[k].token, s.sent[k].to)
  }

  ghost predicate OriginInv(s: System) {
    && (s.files.tokens.Holds? ==> FileBelongs(s, s.files.tokens.value, s.files.config))
    && (forall p :: p in s.procs ==> ProcBelongs(s, s.procs[p]))
    && SentOk(s)
  }

  ghost predicate Grows(a: map<string, Config>, b: map<string, Config>) {
    forall token :: token in a && token != "" ==> token in b && b[token] == a[token]
  }

  lemma IssueGrows(issuedBy: map<string, Config>, t: Tokens, cfg: Config, presented: string)
    requires Issuable(issuedBy, t, cfg, presented)
    ensures Grows(issuedBy, Issue(issuedBy, t, cfg)) && Belongs(Issue(issuedBy, t, cfg), t, cfg)
  {
  }

  lemma StepGrows(s: System, step: Step)
    requires Enabled(s, step)
    ensures Grows(s.issuedBy, Next(s, step).issuedBy)
  {
    hide Issue, Issuable, Matches, Merge, FreshFor, Decide;
    match step {
      case Exchange(p, Granted(reply)) =>
        IssueGrows(s.issuedBy, reply, s.procs[p].cfg, s.procs[p].cached.tokens.refresh);
      case SignIn(p, cfg, t) => IssueGrows(s.issuedBy, t, cfg, "");
      case _ =>
    }
  }

  /** An unbound tokens.json is never written: it is only the one there was. */
  ghost predicate OnlyBoundWritten(s: System, t: System) {
    t.files.tokens.Holds? && t.files.tokens.value.bound.None? ==> t.files.tokens == s.files.tokens
  }

  lemma FileCarries(s: System, t: System, cached: Cached, config: File<Config>)
    requires Grows(s.issuedBy, t.issuedBy) && FileBelongs(s, cached, config)
    ensures FileBelongs(t, cached, config)
  {
  }

  lemma ProcCarries(s: System, t: System, w: Process)
    requires Grows(s.issuedBy, t.issuedBy) && OnlyBoundWritten(s, t) && ProcBelongs(s, w)
    ensures ProcBelongs(t, w)
  {
  }

  lemma MergeBelongs(issuedBy: map<string, Config>, before: Tokens, reply: Tokens, cfg: Config)
    requires Belongs(issuedBy, before, cfg) && Belongs(issuedBy, reply, cfg)
    ensures Belongs(issuedBy, Merge(before, reply), cfg)
  {
  }

  lemma BelongsGrows(a: map<string, Config>, b: map<string, Config>, t: Tokens, cfg: Config)
    requires Grows(a, b) && Belongs(a, t, cfg)
    ensures Belongs(b, t, cfg)
  {
  }

  lemma GrantedBelongs(s: System, p: nat, reply: Tokens)
    requires OriginInv(s) && Enabled(s, Exchange(p, Granted(reply)))
    ensures var t := Next(s, Exchange(p, Granted(reply))); ProcBelongs(t, t.procs[p])
  {
    hide Issue, Issuable, Belongs, Merge;
    var w := s.procs[p];
    assert ProcBelongs(s, w);
    var now := Issue(s.issuedBy, reply, w.cfg);
    IssueGrows(s.issuedBy, reply, w.cfg, w.cached.tokens.refresh);
    BelongsGrows(s.issuedBy, now, w.cached.tokens, w.cfg);
    MergeBelongs(now, w.cached.tokens, reply, w.cfg);
  }

  lemma LoadTouchesOnly(s: System, step: Step)
    requires Enabled(s, step) && (step.Check? || step.Reload?)
    ensures var t := Next(s, step);
            && t == s.(procs := t.procs, lock := t.lock)
            && step.p in t.procs && t.procs == s.procs[step.p := t.procs[step.p]]
  {
  }

  lemma LoadedBelongs(s: System, p: nat, now: int)
    requires OriginInv(s)
    ensures Enabled(s, Check(p, now)) ==> ProcBelongs(s, CheckStep(s, p, now).procs[p])
    ensures Enabled(s, Reload(p, now)) ==> ProcBelongs(s, ReloadStep(s, p, now).procs[p])
  {
    hide Belongs, FreshFor, SentOk;
    assert p in s.procs ==> ProcBelongs(s, s.procs[p]);
  }

  /** The process that takes a step still holds only tokens of its own issuer/client. */
  lemma ActorBelongs(s: System, step: Step, p: nat)
    requires OriginInv(s) && Enabled(s, step)
    requires p in Next(s, step).procs && (p !in s.procs || Next(s, step).procs[p] != s.procs[p])
    ensures ProcBelongs(Next(s, step), Next(s, step).procs[p])
  {
    hide Issue, Issuable, Belongs, Merge, FreshFor, IssueOne, SentOk, CheckStep, ReloadStep;
    assert p in s.procs ==> ProcBelongs(s, s.procs[p]);
    match step {
      case Check(q, now) => LoadedBelongs(s, q, now); LoadTouchesOnly(s, step);
      case Reload(q, now) => LoadedBelongs(s, q, now); LoadTouchesOnly(s, step);
      case Exchange(_, Granted(reply)) => GrantedBelongs(s, p, reply);
      case SignIn(_, cfg, t) => IssueGrows(s.issuedBy, t, cfg, "");
      case _ =>
    }
  }

  lemma StepKeepsFile(s: System, step: Step)
    requires OriginInv(s) && Enabled(s, step)
    ensures var t := Next(s, step);
            OnlyBoundWritten(s, t) && (t.files.tokens.Holds? ==> FileBelongs(t, t.files.tokens.value, t.files.config))
  {
    hide Issue, Issuable, Belongs, Merge, FreshFor, IssueOne, SentOk, Decide, Grows;
    var t := Next(s, step);
    StepGrows(s, step);
    if s.files.tokens.Holds? {
      FileCarries(s, t, s.files.tokens.value, s.files.config);
    }
    match step {
      case Save(p) => assert ProcBelongs(s, s.procs[p]);
      case WriteTokens(p) => assert ProcBelongs(s, s.procs[p]);
      case WriteConfig(p) => assert ProcBelongs(s, s.procs[p]);
      case _ =>
    }
  }

  lemma StepKeepsSent(s: System, step: Step)
    requires OriginInv(s) && Enabled(s, step)
    ensures SentOk(Next(s, step))
  {
    hide Issue, Issuable, Matches, Merge, FreshFor, IssueOne, Decide;
    StepGrows(s, step);
    if step.Exchange? {
      assert ProcBelongs(s, s.procs[step.p]);
    }
  }

  lemma StepKeepsOrigin(s: System, step: Step)
    requires OriginInv(s) && Enabled(s, step)
    ensures OriginInv(Next(s, step))
  {
    hide Enabled, Next, ProcBelongs, FileBelongs, SentOk, Grows, OnlyBoundWritten;
    var t := Next(s, step);
    StepGrows(s, step);
    StepKeepsFile(s, step);
    StepKeepsSent(s, step);
    forall p | p in t.procs
      ensures ProcBelongs(t, t.procs[p])
    {
      if p in s.procs && t.procs[p] == s.procs[p] {
        ProcCarries(s, t, s.procs[p]);
      } else {
        ActorBelongs(s, step, p);
      }
    }
  }
}
