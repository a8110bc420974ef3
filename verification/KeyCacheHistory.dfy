/** What the key cache answers, read off the history of a run: which stores and
    invalidations happened, and when. */
module KeyCacheHistory {
  import opened Bytes
  import opened KeyCache
  import opened KeyCacheRuns

  /** A finished unwrap handed to the cache, with the clock reading its retention counts
      from and the generation it was led under; or an Invalidate. */
  datatype Event =
    | StoredAt(id: Text, digest: Text, provider: Provider, readAt: int, gen: nat)
    | Invalidated(id: Text)

  /** What one step adds to the history. */
  ghost function EventsOf(p: Params, s: System, step: Step): seq<Event>
    requires Enabled(p, s, step)
  {
    match step
    case StoreResult(f, readAt) =>
      var fl := s.flights[f];
      [StoredAt(fl.id, p.sum(fl.wrapped), fl.phase.provider, readAt, fl.gen)]
    case Invalidate(id) => [Invalidated(id)]
    case _ => []
  }

  ghost function History(p: Params, s: System, steps: seq<Step>): seq<Event>
    requires IsRun(p, s, steps)
    decreases |steps|
  {
    if steps == [] then [] else EventsOf(p, s, steps[0]) + History(p, Next(p, s, steps[0]), steps[1..])
  }

  function Invalidations(h: seq<Event>): nat {
    if h == [] then 0 else Invalidations(h[..|h| - 1]) + if h[|h| - 1].Invalidated? then 1 else 0
  }

  /** The last store of `id` that counts: no Invalidate of `id` came after it, and no
      Invalidate at all came between the start of its call and it. */
  function LastStore(h: seq<Event>, id: Text): Option<Event> {
    if h == [] then None
    else
      var front, e := h[..|h| - 1], h[|h| - 1];
      if e.id != id then LastStore(front, id)
      else if e.Invalidated? then None
      else if e.gen == Invalidations(front) then Some(e)
      else LastStore(front, id)
  }

  /** The provider retained for this id and material at `now`. */
  function Retained(h: seq<Event>, ttl: int, id: Text, digest: Text, now: int): Option<Provider> {
    match LastStore(h, id)
    case Some(StoredAt(_, d, provider, readAt, _)) => if d == digest && now < readAt + ttl then Some(provider) else None
    case _ => None
  }

  // ---------------------------------------------------------------------------

  ghost predicate EntryFrom(e: Event, ttl: int, entry: Entry) {
    e.StoredAt? && entry == Entry(e.provider, e.digest, e.readAt + ttl)
  }

  /** The entries are the last stores, but for some whose time is over. */
  ghost predicate Agrees(p: Params, s: System, h: seq<Event>) {
    && Invalidations(h) == |s.invalidated|
    && (p.ttl <= 0 ==> s.entries == map[])
    && (forall id :: id in s.entries ==>
          LastStore(h, id).Some? && EntryFrom(LastStore(h, id).value, p.ttl, s.entries[id]))
    && (forall id :: id !in s.entries && LastStore(h, id).Some? ==>
          LastStore(h, id).value.StoredAt? && s.clock >= LastStore(h, id).value.readAt + p.ttl)
  }

  lemma LastStoreMore(h: seq<Event>, e: Event, id: Text)
    ensures LastStore(h + [e], id) ==
            if e.id != id then LastStore(h, id)
            else if e.Invalidated? then None
            else if e.gen == Invalidations(h) then Some(e)
            else LastStore(h, id)
    ensures Invalidations(h + [e]) == Invalidations(h) + if e.Invalidated? then 1 else 0
  {
    assert (h + [e])[..|h|] == h;
  }

  lemma StoreAgrees(p: Params, s: System, h: seq<Event>, f: nat, readAt: int)
    requires Agrees(p, s, h) && Enabled(p, s, StoreResult(f, readAt))
    ensures Agrees(p, Next(p, s, StoreResult(f, readAt)), h + EventsOf(p, s, StoreResult(f, readAt)))
  {
    hide LastStore, Invalidations;
    var step := StoreResult(f, readAt);
    var t, e := Next(p, s, step), EventsOf(p, s, step)[0];
    forall id: Text
      ensures LastStore(h + [e], id) == if e.id == id && e.gen == Invalidations(h) then Some(e) else LastStore(h, id)
      ensures Invalidations(h + [e]) == Invalidations(h)
    {
      LastStoreMore(h, e, id);
    }
    LastStoreMore(h, e, e.id);
  }

  lemma InvalidateAgrees(p: Params, s: System, h: seq<Event>, gone: Text)
    requires Agrees(p, s, h) && Enabled(p, s, Invalidate(gone))
    ensures Agrees(p, Next(p, s, Invalidate(gone)), h + [Invalidated(gone)])
  {
    hide LastStore, Invalidations;
    var e := Invalidated(gone);
    forall id: Text
      ensures LastStore(h + [e], id) == if e.id == id then None else LastStore(h, id)
    {
      LastStoreMore(h, e, id);
    }
    LastStoreMore(h, e, gone);
  }

  lemma StepAgrees(p: Params, s: System, h: seq<Event>, step: Step)
    requires Agrees(p, s, h) && Enabled(p, s, step)
    ensures Agrees(p, Next(p, s, step), h + EventsOf(p, s, step))
  {
    hide LastStore, Invalidations, Find, Stored, FlightKey, LastInvalidate, Agrees;
    if step.StoreResult? {
      StoreAgrees(p, s, h, step.flight, step.readAt);
    } else if step.Invalidate? {
      InvalidateAgrees(p, s, h, step.id);
    } else {
      OtherAgrees(p, s, Next(p, s, step), h);
      assert h + [] == h;
    }
  }

  lemma OtherAgrees(p: Params, s: System, t: System, h: seq<Event>)
    requires Agrees(p, s, h) && t.invalidated == s.invalidated && t.entries == s.entries && t.clock >= s.clock
    ensures Agrees(p, t, h)
  {
    hide LastStore, Invalidations;
  }

  lemma {:induction false} RunAgrees(p: Params, s: System, h: seq<Event>, steps: seq<Step>)
    requires Agrees(p, s, h) && IsRun(p, s, steps)
    ensures Agrees(p, After(p, s, steps), h + History(p, s, steps))
    decreases |steps|
  {
    hide Agrees, Enabled, Next, EventsOf;
    if steps == [] {
      assert h + [] == h;
    } else {
      var more, rest := EventsOf(p, s, steps[0]), History(p, Next(p, s, steps[0]), steps[1..]);
      StepAgrees(p, s, h, steps[0]);
      RunAgrees(p, Next(p, s, steps[0]), h + more, steps[1..]);
      assert h + (more + rest) == h + more + rest;
    }
  }

  lemma ReachedAgrees(p: Params, clock: int, steps: seq<Step>)
    requires IsRun(p, Start(clock), steps)
    ensures Agrees(p, After(p, Start(clock), steps), History(p, Start(clock), steps))
  {
    hide IsRun, After, History;
    RunAgrees(p, Start(clock), [], steps);
    assert [] + History(p, Start(clock), steps) == History(p, Start(clock), steps);
  }

  /** In every run, a call finds a provider on its fast path exactly when the history
      retains one for its id and material at that time, and then it gets that one. */
  lemma LookupFromHistory(p: Params, clock: int, steps: seq<Step>, c: nat)
    requires IsRun(p, Start(clock), steps) && Enabled(p, After(p, Start(clock), steps), Lookup(c))
    ensures var s := After(p, Start(clock), steps);
            var w := s.callers[c];
            Next(p, s, Lookup(c)).callers[c] ==
            match Retained(History(p, Start(clock), steps), p.ttl, w.id, p.sum(w.wrapped), s.clock)
            case Some(provider) => Got(w.id, w.wrapped, w.floor, provider)
            case None => Missed(w.id, w.wrapped, w.floor)
  {
    hide IsRun, After, History, LastStore, Invalidations;
    ReachedAgrees(p, clock, steps);
  }

  /** In every run, a shared call asks the root exactly when the history retains nothing
      for its id and material at that time. */
  lemma RecheckFromHistory(p: Params, clock: int, steps: seq<Step>, f: nat)
    requires IsRun(p, Start(clock), steps) && Enabled(p, After(p, Start(clock), steps), Recheck(f))
    ensures var s := After(p, Start(clock), steps);
            var fl := s.flights[f];
            Next(p, s, Recheck(f)).flights[f].phase ==
            match Retained(History(p, Start(clock), steps), p.ttl, fl.id, p.sum(fl.wrapped), s.clock)
            case Some(provider) => Finished(Some(provider))
            case None => Unwrapping(s.moment)
  {
    hide IsRun, After, History, LastStore, Invalidations;
    ReachedAgrees(p, clock, steps);
  }

  // ---------------------------------------------------------------------------
  // Errors.

  /** The unwrap of flight `f` failed at the root. */
  ghost predicate RootFailed(past: seq<Step>, f: nat) { UnwrapEnds(f, false) in past }

  predicate NoResult(ph: Phase) { (ph.Finished? || ph.Delivered?) && ph.result.None? }

  /** A flight has no result only if its unwrap failed. */
  ghost predicate FlightsExplained(s: System, past: seq<Step>) {
    forall f: nat :: FlightIn(s, f) && NoResult(s.flights[f].phase) ==> RootFailed(past, f)
  }

  /** The call left, or an unwrap for its own id and material failed at the root. */
  ghost predicate Explained(p: Params, s: System, past: seq<Step>, c: nat, w: Caller) {
    || GiveUp(c) in past
    || exists f: nat :: FlightIn(s, f) && s.flights[f].id == w.id && p.sum(s.flights[f].wrapped) == p.sum(w.wrapped)
                   && RootFailed(past, f)
  }

  ghost predicate CallersExplained(p: Params, s: System, past: seq<Step>) {
    forall c :: c in s.callers && s.callers[c].Errored? ==> Explained(p, s, past, c, s.callers[c])
  }

  lemma StepExplainsFlights(p: Params, s: System, past: seq<Step>, step: Step)
    requires FlightsExplained(s, past) && Enabled(p, s, step)
    ensures FlightsExplained(Next(p, s, step), past + [step])
  {
    hide Find, Stored, FlightKey, LastInvalidate;
    var t := Next(p, s, step);
    forall f: nat | FlightIn(t, f) && NoResult(t.flights[f].phase)
      ensures RootFailed(past + [step], f)
    {
      assert (FlightIn(s, f) && NoResult(s.flights[f].phase)) || step == UnwrapEnds(f, false);
    }
  }

  lemma ExplainedCarries(p: Params, s: System, t: System, past: seq<Step>, step: Step, c: nat, w: Caller)
    requires Extends(s, t) && Explained(p, s, past, c, w)
    ensures Explained(p, t, past + [step], c, w)
  {
    hide Generations;
    if GiveUp(c) !in past {
      var f: nat :| FlightIn(s, f) && s.flights[f].id == w.id && p.sum(s.flights[f].wrapped) == p.sum(w.wrapped)
               && RootFailed(past, f);
      assert SameFlight(s.flights[f], t.flights[f]) && RootFailed(past + [step], f);
    }
  }

  /** The caller that fails in this step. */
  lemma FailingIsExplained(p: Params, s: System, past: seq<Step>, step: Step, c: nat)
    requires Inv(p, s) && FlightsExplained(s, past) && Enabled(p, s, step)
    requires c in Next(p, s, step).callers && Next(p, s, step).callers[c].Errored?
    requires c in s.callers ==> s.callers[c] != Next(p, s, step).callers[c]
    ensures Explained(p, Next(p, s, step), past + [step], c, Next(p, s, step).callers[c])
  {
    hide Find, Stored, FlightKey, LastInvalidate, Generations, EntriesInv, FlightsInv, OpenInv, Floor;
    assert step == GiveUp(c) || step == Receive(c);
    if step == Receive(c) {
      var w := s.callers[c];
      assert CallerSound(p, s, w);
      assert NoResult(s.flights[w.flight].phase) && RootFailed(past + [step], w.flight);
      assert FlightIn(Next(p, s, step), w.flight);
    }
  }

  lemma StepExplainsCallers(p: Params, s: System, past: seq<Step>, step: Step)
    requires Inv(p, s) && FlightsExplained(s, past) && CallersExplained(p, s, past) && Enabled(p, s, step)
    ensures CallersExplained(p, Next(p, s, step), past + [step])
  {
    hide Enabled, Next, Explained, FlightsExplained, EntriesInv, FlightsInv, OpenInv, CallersInv, Generations, Extends;
    var t := Next(p, s, step);
    StepExtends(p, s, step);
    forall c | c in t.callers && t.callers[c].Errored?
      ensures Explained(p, t, past + [step], c, t.callers[c])
    {
      if c in s.callers && s.callers[c] == t.callers[c] {
        ExplainedCarries(p, s, t, past, step, c, s.callers[c]);
      } else {
        FailingIsExplained(p, s, past, step, c);
      }
    }
  }

  lemma {:induction false} RunExplains(p: Params, s: System, past: seq<Step>, steps: seq<Step>)
    requires ParamsOk(p) && Inv(p, s) && FlightsExplained(s, past) && CallersExplained(p, s, past) && IsRun(p, s, steps)
    ensures CallersExplained(p, After(p, s, steps), past + steps)
    decreases |steps|
  {
    hide FlightsExplained, CallersExplained, Inv, ParamsOk, Enabled, Next;
    if steps == [] {
      assert past + [] == past;
    } else {
      StepKeeps(p, s, steps[0]);
      StepExplainsFlights(p, s, past, steps[0]);
      StepExplainsCallers(p, s, past, steps[0]);
      RunExplains(p, Next(p, s, steps[0]), past + [steps[0]], steps[1..]);
      assert past + steps == past + [steps[0]] + steps[1..];
    }
  }

  /** In every run, a call fails only if it gave up waiting or an unwrap for its own id
      and material failed at the root. */
  lemma FailsOnlyWithTheRoot(p: Params, clock: int, steps: seq<Step>, c: nat)
    requires ParamsOk(p) && IsRun(p, Start(clock), steps)
    requires c in After(p, Start(clock), steps).callers && After(p, Start(clock), steps).callers[c].Errored?
    ensures var s := After(p, Start(clock), steps); Explained(p, s, steps, c, s.callers[c])
  {
    hide IsRun, After, Explained, ParamsOk;
    RunExplains(p, Start(clock), [], steps);
    assert [] + steps == steps;
  }

  // ---------------------------------------------------------------------------
  // Idle keys do not stay.

  /** A store that counts leaves no entry whose time was over at its clock reading, and
      removes no other; one that does not count changes nothing. */
  lemma StorePurges(p: Params, s: System, f: nat, readAt: int)
    requires Enabled(p, s, StoreResult(f, readAt))
    ensures var fl, t := s.flights[f], Next(p, s, StoreResult(f, readAt));
            if fl.gen != |s.invalidated| then t.entries == s.entries
            else
              && (forall id :: id in t.entries ==> readAt < t.entries[id].expiresAt)
              && (forall id :: id in s.entries && id != fl.id && readAt < s.entries[id].expiresAt ==>
                    id in t.entries && t.entries[id] == s.entries[id])
              && (forall id :: id in t.entries && id != fl.id ==> id in s.entries)
  {
  }
}
