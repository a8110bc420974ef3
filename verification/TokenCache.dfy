/** The on-disk SSO cache that every helper process shares: tokens.json and
    config.json, and what one process does to them while it holds the lock. */
module TokenCache {
  import opened Bytes

  datatype Config = Config(issuer: string, clientID: string)

  datatype Tokens = Tokens(access: string, refresh: string, idToken: string, expiration: int)

  /** The content of tokens.json: the tokens and the issuer/client they are bound to. */
  datatype Cached = Cached(tokens: Tokens, bound: Option<Config>)

  /** A file: not there, there but not readable as its content, or there. */
  datatype File<+T> = Missing | Unreadable | Holds(value: T)

  /** The two files. Every write replaces a whole file. */
  datatype Files = Files(tokens: File<Cached>, config: File<Config>)

  datatype LoadError = NoCache | ReadFailed | Mismatch | NotBound | NoRefreshToken

  /** What the load under the lock decides: fail, serve the cached tokens, or present
      the refresh token to the issuer. */
  datatype Decision = Fail(error: LoadError) | Serve(tokens: Tokens) | Present(cached: Cached)

  predicate Complete(c: Config) { c.issuer != "" && c.clientID != "" }

  /** A cache bound to `cfg`, or one never bound while config.json names `cfg`. */
  predicate Matches(cached: Cached, config: File<Config>, cfg: Config) {
    match cached.bound
    case Some(c) => c == cfg
    case None => config == Holds(cfg) && Complete(cfg)
  }

  predicate FreshFor(t: Tokens, skew: int, now: int) { t.expiration - now >= skew }

  function Decide(f: Files, cfg: Config, skew: int, now: int): Decision {
    if f.tokens.Missing? then Fail(NoCache)
    else if f.tokens.Unreadable? then Fail(ReadFailed)
    else
      var cached := f.tokens.value;
      if !Matches(cached, f.config, cfg) then Fail(if cached.bound.Some? then Mismatch else NotBound)
      else if FreshFor(cached.tokens, skew, now) then Serve(cached.tokens)
      else if cached.tokens.refresh == "" then Fail(NoRefreshToken)
      else Present(cached)
  }

  /** What is kept of an answer: the issuer may omit the refresh token, when it does not
      rotate, and the id token. */
  function Merge(before: Tokens, reply: Tokens): Tokens {
    reply.(refresh := if reply.refresh == "" then before.refresh else reply.refresh,
           idToken := if reply.idToken == "" then before.idToken else reply.idToken)
  }

  /** The cache as one process sees it while it holds the lock. */
  class TokenStore {
    var tokens: File<Cached>
    var config: File<Config>

    ghost function View(): Files
      reads this
    {
      Files(tokens, config)
    }

    constructor (t: File<Cached>, c: File<Config>)
      ensures View() == Files(t, c)
    {
      tokens, config := t, c;
    }

    method LoadConfig() returns (r: Option<Config>)
      ensures r.Some? <==> config.Holds? && config.value.issuer != "" && config.value.clientID != ""
      ensures r.Some? ==> config == Holds(r.value)
    {
      if !config.Holds? || config.value.issuer == "" || config.value.clientID == "" {
        return None;
      }
      return Some(config.value);
    }

    /** The error, or the cached tokens when they are shown to belong to `cfg`. */
    method LoadMatchingTokens(cfg: Config) returns (r: Option<Cached>, e: LoadError)
      ensures r.Some? <==> tokens.Holds? && Matches(tokens.value, config, cfg)
      ensures r.Some? ==> tokens == Holds(r.value)
      ensures tokens.Missing? ==> e == NoCache
      ensures tokens.Unreadable? ==> e == ReadFailed
      ensures tokens.Holds? && r.None? ==> e == if tokens.value.bound.Some? then Mismatch else NotBound
    {
      if tokens.Missing? {
        return None, NoCache;
      }
      if tokens.Unreadable? {
        return None, ReadFailed;
      }
      r, e := Some(tokens.value), NotBound;
      if r.value.bound.Some? {
        if r.value.bound.value != cfg {
          r, e := None, Mismatch;
        }
        return;
      }
      var saved := LoadConfig();
      if saved.None? || saved.value != cfg {
        r, e := None, NotBound;
      }
    }

    /** The part of EnsureFreshTokens between taking the lock and asking the issuer. */
    method ReloadLocked(cfg: Config, skew: int, now: int) returns (d: Decision)
      ensures d == Decide(View(), cfg, skew, now)
      ensures tokens.Missing? ==> d == Fail(NoCache)
      ensures tokens.Unreadable? ==> d == Fail(ReadFailed)
      ensures tokens.Holds? && tokens.value.bound.Some? && tokens.value.bound != Some(cfg) ==> d == Fail(Mismatch)
      ensures tokens.Holds? && tokens.value.bound.None? && config != Holds(cfg) ==> d == Fail(NotBound)
      ensures tokens.Holds? && tokens.value.bound == Some(cfg) ==>
                var t := tokens.value.tokens;
                d == if t.expiration >= now + skew then Serve(t)
                     else if t.refresh == "" then Fail(NoRefreshToken) else Present(tokens.value)
    {
      var cached, e := LoadMatchingTokens(cfg);
      if cached.None? {
        return Fail(e);
      }
      if cached.value.tokens.expiration - now >= skew {
        return Serve(cached.value.tokens);
      }
      if cached.value.tokens.refresh == "" {
        return Fail(NoRefreshToken);
      }
      return Present(cached.value);
    }

    /** The part of EnsureFreshTokens after the issuer has answered. */
    method SaveFresh(cfg: Config, cached: Tokens, reply: Tokens) returns (kept: Tokens)
      modifies this
      ensures View() == old(View()).(tokens := Holds(Cached(kept, Some(cfg))))
      ensures kept == Merge(cached, reply)
      ensures kept.access == reply.access && kept.expiration == reply.expiration
      ensures kept.refresh == if reply.refresh != "" then reply.refresh else cached.refresh
      ensures kept.idToken == if reply.idToken != "" then reply.idToken else cached.idToken
    {
      kept := reply;
      if kept.refresh == "" {
        kept := kept.(refresh := cached.refresh);
      }
      if kept.idToken == "" {
        kept := kept.(idToken := cached.idToken);
      }
      tokens := Holds(Cached(kept, Some(cfg)));
    }

    /** Login's two writes; either may fail, and then nothing after it happens. */
    method SaveLogin(cfg: Config, t: Tokens, tokensSaved: bool, configSaved: bool) returns (ok: bool)
      modifies this
      ensures ok <==> tokensSaved && configSaved
      ensures View().tokens == if tokensSaved then Holds(Cached(t, Some(cfg))) else old(tokens)
      ensures View().config == if ok then Holds(cfg) else old(config)
    {
      if !tokensSaved {
        return false;
      }
      tokens := Holds(Cached(t, Some(cfg)));
      if !configSaved {
        return false;
      }
      config := Holds(cfg);
      return true;
    }

    /** Logout removes tokens.json and keeps config.json. */
    method Logout()
      modifies this
      ensures View() == old(View()).(tokens := Missing)
    {
      tokens := Missing;
    }
  }
}
