/** Sliding session expiry with an absolute cap, over whole request histories. */
module SessionExpiry {
  import opened Bytes

  const HOUR: int := 3600 * SECOND
  const DEFAULT_SESSION_TTL: int := 8 * HOUR

  /** The lifetimes of a manager, as New leaves them; times are nanoseconds. */
  datatype Config = Config(ttl: int, idle: int)

  function NewConfig(ttl: int, idle: int): (cfg: Config)
    ensures cfg.idle == idle && cfg.ttl == if ttl > 0 then ttl else 28_800_000_000_000
  {
    Config(if ttl <= 0 then DEFAULT_SESSION_TTL else ttl, idle)
  }

  /** The expiry fields of a session cookie; an absolute expiry of None is Go's zero time. */
  datatype Session = Session(expiry: int, absoluteExpiry: Option<int>)

  function NewSession(cfg: Config, now: int): Session {
    var absolute := now + cfg.ttl;
    Session(if cfg.idle > 0 && cfg.idle < cfg.ttl then now + cfg.idle else absolute, Some(absolute))
  }

  /** readSession accepts the cookie. */
  predicate Live(s: Session, now: int) { !(now > s.expiry) }

  /** The session after maybeExtendIdle, when re-sealing succeeds. */
  function Extended(cfg: Config, s: Session, now: int): Session {
    if cfg.idle <= 0 || s.expiry - now > cfg.idle / 2 then s
    else
      var target := now + cfg.idle;
      var cap := s.absoluteExpiry;
      var capped := if cap.Some? && target > cap.value then cap.value else target;
      if !(capped > s.expiry) then s else s.(expiry := capped)
  }

  /** When a request reads its session, and when it considers extending it. */
  datatype Clock = Clock(read: int, extend: int)

  /** One gated request: None when the cookie is dead or the session is refused
      (revoked, or not in the required group); otherwise the session it leaves. */
  function Gate(cfg: Config, cookie: Session, now: Clock, admitted: bool, resealed: bool): Option<Session> {
    if !Live(cookie, now.read) || !admitted then None
    else Some(if resealed then Extended(cfg, cookie, now.extend) else cookie)
  }

  // ---------------------------------------------------------------------------
  // Any cookie issued earlier may come back at any time.

  datatype Request = Request(cookie: Session, now: Clock, admitted: bool, resealed: bool)

  /** The cookies issued to the client of one login. */
  ghost function Issued(cfg: Config, login: int, rs: seq<Request>): set<Session> {
    if rs == [] then {NewSession(cfg, login)}
    else
      var r := rs[|rs| - 1];
      var before := Issued(cfg, login, rs[..|rs| - 1]);
      match Gate(cfg, r.cookie, r.now, r.admitted, r.resealed)
      case Some(s) => before + {s}
      case None => before
  }

  /** Requests present cookies that were issued before them. */
  ghost predicate Genuine(cfg: Config, login: int, rs: seq<Request>) {
    forall k :: 0 <= k < |rs| ==> rs[k].cookie in Issued(cfg, login, rs[..k])
  }

  /** No cookie ever issued outlives login plus the session lifetime. */
  lemma {:induction false} NeverPastCap(cfg: Config, login: int, rs: seq<Request>)
    requires Genuine(cfg, login, rs)
    ensures forall s :: s in Issued(cfg, login, rs) ==>
              s.expiry <= login + cfg.ttl && s.absoluteExpiry == Some(login + cfg.ttl)
  {
    if rs == [] {
    } else {
      var front, r := rs[..|rs| - 1], rs[|rs| - 1];
      assert Genuine(cfg, login, front) by {
        forall k | 0 <= k < |front|
          ensures front[k].cookie in Issued(cfg, login, front[..k])
        {
          assert front[..k] == rs[..k];
        }
      }
      NeverPastCap(cfg, login, front);
      assert r.cookie in Issued(cfg, login, rs[..|rs| - 1]);
    }
  }

  // ---------------------------------------------------------------------------
  // A client that always presents its latest cookie.

  datatype Visit = Visit(now: Clock, resealed: bool)

  /** The client's session after its visits; None once one of them found it dead. */
  ghost function After(cfg: Config, login: int, vs: seq<Visit>): Option<Session> {
    if vs == [] then Some(NewSession(cfg, login))
    else
      match After(cfg, login, vs[..|vs| - 1])
      case None => None
      case Some(s) => Gate(cfg, s, vs[|vs| - 1].now, true, vs[|vs| - 1].resealed)
  }

  /** The login, or the end of the last visit before the k-th. */
  ghost function Previous(login: int, vs: seq<Visit>, k: nat): int
    requires k <= |vs|
  {
    if k == 0 then login else vs[k - 1].now.extend
  }

  ghost predicate InOrder(login: int, vs: seq<Visit>) {
    forall k :: 0 <= k < |vs| ==> Previous(login, vs, k) <= vs[k].now.read <= vs[k].now.extend
  }

  lemma FrontInOrder(login: int, vs: seq<Visit>)
    requires vs != [] && InOrder(login, vs)
    ensures InOrder(login, vs[..|vs| - 1])
    ensures Previous(login, vs, |vs| - 1) <= vs[|vs| - 1].now.read <= vs[|vs| - 1].now.extend
    ensures forall k :: 0 <= k < |vs| ==> Previous(login, vs[..|vs| - 1], k) == Previous(login, vs, k)
  {
    var front := vs[..|vs| - 1];
    forall k | 0 <= k < |front|
      ensures Previous(login, front, k) <= front[k].now.read <= front[k].now.extend
    {
      assert Previous(login, vs, k) <= vs[k].now.read;
    }
  }

  /** While the session lives, its expiry lies at most one idle window past the last
      visit, and never beyond the cap. */
  lemma {:induction false} WithinWindow(cfg: Config, login: int, vs: seq<Visit>)
    requires cfg.ttl > 0 && InOrder(login, vs) && After(cfg, login, vs).Some?
    ensures var s := After(cfg, login, vs).value;
            && s.expiry <= login + cfg.ttl && s.absoluteExpiry == Some(login + cfg.ttl)
            && (cfg.idle > 0 ==> s.expiry <= Previous(login, vs, |vs|) + cfg.idle)
            && (cfg.idle <= 0 ==> s.expiry == login + cfg.ttl)
  {
    if vs == [] {
    } else {
      FrontInOrder(login, vs);
      WithinWindow(cfg, login, vs[..|vs| - 1]);
    }
  }

  /** Its expiry never decreases. */
  lemma ExpiryNeverDecreases(cfg: Config, login: int, vs: seq<Visit>)
    requires vs != [] && After(cfg, login, vs).Some?
    ensures After(cfg, login, vs[..|vs| - 1]).Some?
    ensures After(cfg, login, vs[..|vs| - 1]).value.expiry <= After(cfg, login, vs).value.expiry
  {
  }

  /** What one admitted visit leaves. In the second half of the idle window it moves the
      expiry to a full window from now, or to the cap if that is sooner; in the first
      half, and without an idle window, it moves nothing; nor does it if the new cookie
      cannot be written. */
  lemma VisitLeaves(cfg: Config, s: Session, cap: int, now: Clock, resealed: bool)
    requires s.absoluteExpiry == Some(cap) && s.expiry <= cap && now.read <= s.expiry
    ensures var left := Gate(cfg, s, now, true, resealed);
            && left.Some? && left.value.absoluteExpiry == Some(cap)
            && left.value.expiry ==
               if !resealed || cfg.idle <= 0 || s.expiry - now.extend > cfg.idle / 2 then s.expiry
               else if now.extend + cfg.idle < cap then now.extend + cfg.idle
               else cap
  {
  }

  /** Nobody gets in with a dead session, or when refused. */
  lemma RefusedWhen(cfg: Config, s: Session, now: Clock, admitted: bool, resealed: bool)
    ensures Gate(cfg, s, now, admitted, resealed).None? <==> now.read > s.expiry || !admitted
  {
  }

  /** After a visit the session outlives the next half window or has reached the cap. */
  lemma VisitExtends(cfg: Config, s: Session, cap: int, now: int)
    requires cfg.idle > 0 && s.absoluteExpiry == Some(cap) && s.expiry <= cap
    ensures var e := Extended(cfg, s, now); e.expiry - now > cfg.idle / 2 || e.expiry == cap
  {
  }

  /** Each visit is resealed, starts at most half an idle window (and one more
      nanosecond) after the last one ended, and starts before the cap. */
  ghost predicate Frequent(cfg: Config, login: int, vs: seq<Visit>) {
    forall k :: 0 <= k < |vs| ==>
      vs[k].resealed && vs[k].now.read - Previous(login, vs, k) <= cfg.idle / 2 + 1 && vs[k].now.read <= login + cfg.ttl
  }

  /** Visits that frequent keep the session alive up to the cap. */
  lemma {:induction false} FrequentVisitsKeepAlive(cfg: Config, login: int, vs: seq<Visit>)
    requires cfg.ttl > 0 && cfg.idle > 0 && InOrder(login, vs) && Frequent(cfg, login, vs)
    ensures After(cfg, login, vs).Some?
    ensures var s := After(cfg, login, vs).value;
            s.expiry - Previous(login, vs, |vs|) > cfg.idle / 2 || s.expiry == login + cfg.ttl
  {
    hide Extended, Frequent, InOrder;
    if vs == [] {
    } else {
      var front, v := vs[..|vs| - 1], vs[|vs| - 1];
      FrontInOrder(login, vs);
      FrontFrequent(cfg, login, vs);
      FrequentVisitsKeepAlive(cfg, login, front);
      WithinWindow(cfg, login, front);
      VisitExtends(cfg, After(cfg, login, front).value, login + cfg.ttl, v.now.extend);
    }
  }

  lemma FrontFrequent(cfg: Config, login: int, vs: seq<Visit>)
    requires vs != [] && Frequent(cfg, login, vs)
    ensures Frequent(cfg, login, vs[..|vs| - 1])
    ensures vs[|vs| - 1].now.read - Previous(login, vs, |vs| - 1) <= cfg.idle / 2 + 1
    ensures vs[|vs| - 1].resealed && vs[|vs| - 1].now.read <= login + cfg.ttl
  {
    var front := vs[..|vs| - 1];
    forall k | 0 <= k < |front|
      ensures front[k].now.read - Previous(login, front, k) <= cfg.idle / 2 + 1
    {
      assert vs[k].now.read - Previous(login, vs, k) <= cfg.idle / 2 + 1;
    }
    assert vs[|vs| - 1].now.read - Previous(login, vs, |vs| - 1) <= cfg.idle / 2 + 1;
  }

  /** A gap above the idle window ends the session, whatever came before. */
  lemma {:induction false} LongGapEnds(cfg: Config, login: int, vs: seq<Visit>, k: nat)
    requires cfg.ttl > 0 && cfg.idle > 0 && InOrder(login, vs)
    requires k < |vs| && vs[k].now.read - Previous(login, vs, k) > cfg.idle
    ensures After(cfg, login, vs).None?
    decreases |vs|
  {
    var front := vs[..|vs| - 1];
    FrontInOrder(login, vs);
    if k < |front| {
      LongGapEnds(cfg, login, front, k);
    } else if After(cfg, login, front).Some? {
      WithinWindow(cfg, login, front);
    }
  }

  /** Without an idle window the session lives exactly as long as its lifetime. */
  lemma {:induction false} HardCapOnly(cfg: Config, login: int, vs: seq<Visit>)
    requires cfg.ttl > 0 && cfg.idle <= 0
    ensures After(cfg, login, vs).Some? <==> forall k :: 0 <= k < |vs| ==> vs[k].now.read <= login + cfg.ttl
    ensures After(cfg, login, vs).Some? ==> After(cfg, login, vs).value.expiry == login + cfg.ttl
  {
    if vs == [] {
    } else {
      HardCapOnly(cfg, login, vs[..|vs| - 1]);
    }
  }

  /** The bound is exact: a gap one nanosecond longer can end a session that is far
      from its cap, because a visit in the first half extends nothing. */
  lemma HalfWindowIsSharp(cfg: Config, login: int)
    requires 2 <= cfg.idle < cfg.ttl
    ensures var first, second := login + cfg.idle - cfg.idle / 2 - 1, login + cfg.idle + 1;
            var vs := [Visit(Clock(first, first), true), Visit(Clock(second, second), true)];
            && InOrder(login, vs) && second - first == cfg.idle / 2 + 2
            && After(cfg, login, vs).None?
  {
    var first, second := login + cfg.idle - cfg.idle / 2 - 1, login + cfg.idle + 1;
    var vs := [Visit(Clock(first, first), true), Visit(Clock(second, second), true)];
    assert vs[..1] == [vs[0]] && vs[..1][..0] == [];
    assert After(cfg, login, vs[..1]) == Some(NewSession(cfg, login));
  }
}
