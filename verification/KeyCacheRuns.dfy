/** Every interleaving of ForKey calls, shared unwraps, invalidations and clock ticks. */
module KeyCacheRuns {
  import opened Bytes
  import opened KeyCache

  /** The digest function, the retention time, and the wrapped keys callers hold. */
  datatype Params = Params(sum: Text -> Text, ttl: int, keys: set<Text>)

  ghost predicate ParamsOk(p: Params) {
    && (forall w: Text :: |p.sum(w)| == DIGEST_SIZE)
    && (forall v, w :: v in p.keys && w in p.keys && p.sum(v) == p.sum(w) ==> v == w)
  }

  /** A shared unwrap: queued for the re-check, calling the root, holding the result to
      store, returned from its function, and delivered to its waiters. */
  datatype Phase =
    | Queued
    | Unwrapping(startedAt: nat)
    | Unwrapped(provider: Provider)
    | Finished(result: Option<Provider>)
    | Delivered(result: Option<Provider>)

  datatype Flight = Flight(id: Text, wrapped: Text, gen: nat, phase: Phase)

  /** A ForKey call for `id` and `wrapped`; `floor` is the moment of the last Invalidate
      of `id` before it began, 0 if there was none. */
  datatype Caller =
    | Begun(id: Text, wrapped: Text, floor: nat)
    | Missed(id: Text, wrapped: Text, floor: nat)
    | Stamped(id: Text, wrapped: Text, floor: nat, gen: nat)
    | Waiting(id: Text, wrapped: Text, floor: nat, gen: nat, flight: nat)
    | Got(id: Text, wrapped: Text, floor: nat, provider: Provider)
    | Errored(id: Text, wrapped: Text, floor: nat)

  /** `moment` counts steps. `invalidated` lists the invalidated ids, so its length is the
      generation, and `born[g]` is the moment generation g began. `open` is the
      single-flight map from flight key to flight. */
  datatype System = System(moment: nat, clock: int, entries: Entries, invalidated: seq<Text>, born: seq<nat>,
                           flights: seq<Flight>, open: map<Text, nat>, callers: map<nat, Caller>)

  function Start(clock: int): System { System(1, clock, map[], [], [0], [], map[], map[]) }

  /** The moment of the last Invalidate of `id` up to generation `g`. */
  function LastInvalidate(invalidated: seq<Text>, born: seq<nat>, id: Text, g: nat): nat
    requires g <= |invalidated| && |born| == |invalidated| + 1
  {
    if g == 0 then 0 else if invalidated[g - 1] == id then born[g] else LastInvalidate(invalidated, born, id, g - 1)
  }

  function KeyOf(p: Params, f: Flight): Text { FlightKey(f.id, f.gen, p.sum(f.wrapped)) }

  datatype Step =
    | Tick(now: int)
    | Begin(caller: nat, id: Text, wrapped: Text)
    | Lookup(caller: nat)
    | ReadGeneration(caller: nat)
    | JoinOrLead(caller: nat)
    | Recheck(flight: nat)
    | UnwrapEnds(flight: nat, ok: bool)
    | StoreResult(flight: nat, readAt: int)
    | Deliver(flight: nat)
    | Receive(caller: nat)
    | GiveUp(caller: nat)
    | Invalidate(id: Text)

  predicate FlightIn(s: System, f: nat) { f < |s.flights| }

  predicate Enabled(p: Params, s: System, step: Step) {
    match step
    case Tick(now) => now >= s.clock
    case Begin(c, _, w) => c !in s.callers && w in p.keys && |s.born| == |s.invalidated| + 1
    case Lookup(c) => c in s.callers && s.callers[c].Begun?
    case ReadGeneration(c) => c in s.callers && s.callers[c].Missed?
    case JoinOrLead(c) => c in s.callers && s.callers[c].Stamped?
    case Recheck(f) => FlightIn(s, f) && s.flights[f].phase.Queued?
    case UnwrapEnds(f, _) => FlightIn(s, f) && s.flights[f].phase.Unwrapping?
    case StoreResult(f, readAt) => FlightIn(s, f) && s.flights[f].phase.Unwrapped? && readAt <= s.clock
    case Deliver(f) => FlightIn(s, f) && s.flights[f].phase.Finished?
    case Receive(c) =>
      && c in s.callers && s.callers[c].Waiting?
      && FlightIn(s, s.callers[c].flight) && s.flights[s.callers[c].flight].phase.Delivered?
    case GiveUp(c) => c in s.callers && s.callers[c].Waiting?
    case Invalidate(_) => |s.invalidated| + 1 < TWO_64
  }

  function SetCaller(s: System, c: nat, w: Caller): System { s.(callers := s.callers[c := w]) }

  function SetPhase(s: System, f: nat, ph: Phase): System
    requires FlightIn(s, f)
  {
    s.(flights := s.flights[f := s.flights[f].(phase := ph)])
  }

  function JoinStep(p: Params, s: System, c: nat): System
    requires Enabled(p, s, JoinOrLead(c))
  {
    var w := s.callers[c];
    var key := FlightKey(w.id, w.gen, p.sum(w.wrapped));
    if key in s.open then SetCaller(s, c, Waiting(w.id, w.wrapped, w.floor, w.gen, s.open[key]))
    else
      var flight := Flight(w.id, w.wrapped, w.gen, Queued);
      var led := s.(flights := s.flights + [flight], open := s.open[key := |s.flights|]);
      SetCaller(led, c, Waiting(w.id, w.wrapped, w.floor, w.gen, |s.flights|))
  }

  function RecheckStep(p: Params, s: System, f: nat): System
    requires Enabled(p, s, Recheck(f))
  {
    var fl := s.flights[f];
    match Find(s.entries, fl.id, p.sum(fl.wrapped), s.clock)
    case Some(found) => SetPhase(s, f, Finished(Some(found)))
    case None => SetPhase(s, f, Unwrapping(s.moment))
  }

  function StoreStep(p: Params, s: System, f: nat, readAt: int): System
    requires Enabled(p, s, StoreResult(f, readAt))
  {
    var fl := s.flights[f];
    var pr := fl.phase.provider;
    var t := SetPhase(s, f, Finished(Some(pr)));
    if fl.gen != |s.invalidated| then t
    else t.(entries := Stored(s.entries, p.ttl, fl.id, p.sum(fl.wrapped), pr, readAt))
  }

  function DeliverStep(p: Params, s: System, f: nat): System
    requires Enabled(p, s, Deliver(f))
  {
    var fl := s.flights[f];
    SetPhase(s, f, Delivered(fl.phase.result)).(open := s.open - {KeyOf(p, fl)})
  }

  function LookupStep(p: Params, s: System, c: nat): System
    requires Enabled(p, s, Lookup(c))
  {
    var w := s.callers[c];
    match Find(s.entries, w.id, p.sum(w.wrapped), s.clock)
    case Some(found) => SetCaller(s, c, Got(w.id, w.wrapped, w.floor, found))
    case None => SetCaller(s, c, Missed(w.id, w.wrapped, w.floor))
  }

  function ReceiveStep(p: Params, s: System, c: nat): System
    requires Enabled(p, s, Receive(c))
  {
    var w := s.callers[c];
    match s.flights[w.flight].phase.result
    case Some(found) => SetCaller(s, c, Got(w.id, w.wrapped, w.floor, found))
    case None => SetCaller(s, c, Errored(w.id, w.wrapped, w.floor))
  }

  function Act(p: Params, s: System, step: Step): System
    requires Enabled(p, s, step)
  {
    match step
    case Tick(now) => s.(clock := now)
    case Begin(c, id, w) => SetCaller(s, c, Begun(id, w, LastInvalidate(s.invalidated, s.born, id, |s.invalidated|)))
    case Lookup(c) => LookupStep(p, s, c)
    case ReadGeneration(c) =>
      var w := s.callers[c];
      SetCaller(s, c, Stamped(w.id, w.wrapped, w.floor, |s.invalidated|))
    case JoinOrLead(c) => JoinStep(p, s, c)
    case Recheck(f) => RecheckStep(p, s, f)
    case UnwrapEnds(f, ok) =>
      var fl := s.flights[f];
      SetPhase(s, f, if ok then Unwrapped(Provider(fl.wrapped, fl.phase.startedAt)) else Finished(None))
    case StoreResult(f, readAt) => StoreStep(p, s, f, readAt)
    case Deliver(f) => DeliverStep(p, s, f)
    case Receive(c) => ReceiveStep(p, s, c)
    case GiveUp(c) =>
      var w := s.callers[c];
      SetCaller(s, c, Errored(w.id, w.wrapped, w.floor))
    case Invalidate(id) =>
      s.(invalidated := s.invalidated + [id], born := s.born + [s.moment], entries := s.entries - {id})
  }

  function Next(p: Params, s: System, step: Step): System
    requires Enabled(p, s, step)
  {
    var t := Act(p, s, step);
    t.(moment := s.moment + 1)
  }

  // ---------------------------------------------------------------------------
  // Invariants.

  ghost predicate Generations(s: System) {
    && |s.born| == |s.invalidated| + 1 && |s.invalidated| < TWO_64
    && (forall g :: 0 <= g < |s.born| ==> s.born[g] < s.moment)
    && (forall g, h :: 0 <= g <= h < |s.born| ==> s.born[g] <= s.born[h])
  }

  ghost function Floor(s: System, id: Text, g: nat): nat
    requires Generations(s) && g <= |s.invalidated|
  {
    LastInvalidate(s.invalidated, s.born, id, g)
  }

  /** The provider was unwrapped from the material `d` digests, after the last
      Invalidate of `id` up to generation `g`. */
  ghost predicate Sound(p: Params, s: System, pr: Provider, id: Text, g: nat, d: Text)
    requires Generations(s)
  {
    g <= |s.invalidated| && pr.source in p.keys && p.sum(pr.source) == d && pr.startedAt > Floor(s, id, g)
  }

  ghost predicate EntriesInv(p: Params, s: System)
    requires Generations(s)
  {
    forall id :: id in s.entries ==> Sound(p, s, s.entries[id].provider, id, |s.invalidated|, s.entries[id].digest)
  }

  /** What a flight carries is sound for the generation it was led under. */
  ghost predicate FlightSound(p: Params, s: System, f: Flight)
    requires Generations(s)
  {
    && f.gen <= |s.invalidated| && f.wrapped in p.keys
    && match f.phase
       case Queued => true
       case Unwrapping(at) => at > Floor(s, f.id, f.gen)
       case Unwrapped(pr) => Sound(p, s, pr, f.id, f.gen, p.sum(f.wrapped))
       case Finished(r) => r.Some? ==> Sound(p, s, r.value, f.id, f.gen, p.sum(f.wrapped))
       case Delivered(r) => r.Some? ==> Sound(p, s, r.value, f.id, f.gen, p.sum(f.wrapped))
  }

  ghost predicate FlightsInv(p: Params, s: System)
    requires Generations(s)
  {
    forall f :: 0 <= f < |s.flights| ==> FlightSound(p, s, s.flights[f])
  }

  /** The single-flight map holds exactly the undelivered flights, one per key. */
  ghost predicate OpenInv(p: Params, s: System) {
    && (forall key :: key in s.open ==>
          && FlightIn(s, s.open[key]) && KeyOf(p, s.flights[s.open[key]]) == key
          && !s.flights[s.open[key]].phase.Delivered?)
    && (forall f :: 0 <= f < |s.flights| && !s.flights[f].phase.Delivered? ==>
          KeyOf(p, s.flights[f]) in s.open && s.open[KeyOf(p, s.flights[f])] == f)
  }

  ghost predicate CallerSound(p: Params, s: System, w: Caller)
    requires Generations(s)
  {
    w.wrapped in p.keys &&
    match w
    case Begun(id, _, floor) => floor <= Floor(s, id, |s.invalidated|)
    case Missed(id, _, floor) => floor <= Floor(s, id, |s.invalidated|)
    case Stamped(id, _, floor, gen) => gen <= |s.invalidated| && floor <= Floor(s, id, gen)
    case Waiting(id, v, floor, gen, f) =>
      && gen <= |s.invalidated| && floor <= Floor(s, id, gen) && FlightIn(s, f)
      && s.flights[f].id == id && s.flights[f].gen == gen && p.sum(s.flights[f].wrapped) == p.sum(v)
    case Got(_, v, floor, pr) => pr.startedAt > floor && pr.source == v
    case Errored(_, _, _) => true
  }

  ghost predicate CallersInv(p: Params, s: System)
    requires Generations(s)
  {
    forall c :: c in s.callers ==> CallerSound(p, s, s.callers[c])
  }

  ghost predicate Inv(p: Params, s: System) {
    Generations(s) && EntriesInv(p, s) && FlightsInv(p, s) && OpenInv(p, s) && CallersInv(p, s)
  }

  lemma {:induction false} FloorGrows(s: System, id: Text, g: nat, h: nat)
    requires Generations(s) && g <= h <= |s.invalidated|
    ensures Floor(s, id, g) <= Floor(s, id, h) <= s.born[h]
    decreases h
  {
    if h == 0 {
    } else {
      FloorGrows(s, id, if g < h then g else h - 1, h - 1);
      assert s.born[h - 1] <= s.born[h];
    }
  }

  // ---------------------------------------------------------------------------
  // Every step keeps them.

  predicate SameFlight(f: Flight, g: Flight) { g.id == f.id && g.wrapped == f.wrapped && g.gen == f.gen }

  /** `t` comes after `s`: generations and flights are only added. */
  ghost predicate Extends(s: System, t: System) {
    && Generations(s) && Generations(t)
    && s.invalidated <= t.invalidated && s.born <= t.born
    && |s.flights| <= |t.flights|
    && forall f :: 0 <= f < |s.flights| ==>
         SameFlight(s.flights[f], t.flights[f])
  }

  lemma {:induction false} FloorStays(s: System, t: System, id: Text, g: nat)
    requires Extends(s, t) && g <= |s.invalidated|
    ensures Floor(t, id, g) == Floor(s, id, g)
  {
    if g == 0 {
    } else {
      FloorStays(s, t, id, g - 1);
    }
  }

  lemma StepExtends(p: Params, s: System, step: Step)
    requires Generations(s) && Enabled(p, s, step)
    ensures Extends(s, Next(p, s, step))
  {
    hide Generations, LastInvalidate, Find, Stored, FlightKey, JoinStep;
    StepKeepsGenerations(p, s, step);
    if step.JoinOrLead? {
      JoinExtends(p, s, step.caller);
    }
  }

  lemma JoinExtends(p: Params, s: System, c: nat)
    requires Enabled(p, s, JoinOrLead(c))
    ensures var t := JoinStep(p, s, c);
            && t.invalidated == s.invalidated && t.born == s.born
            && s.flights <= t.flights
  {
    hide FlightKey;
  }

  lemma StepKeepsGenerations(p: Params, s: System, step: Step)
    requires Generations(s) && Enabled(p, s, step)
    ensures Generations(Next(p, s, step))
  {
    hide LastInvalidate, Find, Stored, FlightKey;
  }

  lemma CallerCarries(p: Params, s: System, t: System, w: Caller)
    requires Extends(s, t) && CallerSound(p, s, w)
    ensures CallerSound(p, t, w)
  {
    hide LastInvalidate, Generations, Extends;
    var n := |s.invalidated|;
    Lengths(s, t);
    FloorStays(s, t, w.id, n);
    FloorGrows(t, w.id, n, |t.invalidated|);
    if w.Stamped? || w.Waiting? {
      FloorStays(s, t, w.id, w.gen);
    }
  }

  lemma Lengths(s: System, t: System)
    requires Extends(s, t)
    ensures Generations(s) && Generations(t) && |s.invalidated| <= |t.invalidated|
    ensures forall f: nat :: FlightIn(s, f) ==> FlightIn(t, f)
    ensures forall f :: 0 <= f < |s.flights| ==>
              SameFlight(s.flights[f], t.flights[f])
  {
  }

  lemma SoundCarries(p: Params, s: System, t: System, pr: Provider, id: Text, g: nat, d: Text)
    requires Extends(s, t) && Sound(p, s, pr, id, g, d)
    ensures Sound(p, t, pr, id, g, d)
  {
    FloorStays(s, t, id, g);
  }

  lemma FlightCarries(p: Params, s: System, t: System, f: Flight)
    requires Extends(s, t) && FlightSound(p, s, f)
    ensures FlightSound(p, t, f)
  {
    hide LastInvalidate, Sound;
    FloorStays(s, t, f.id, f.gen);
    match f.phase {
      case Unwrapped(pr) => SoundCarries(p, s, t, pr, f.id, f.gen, p.sum(f.wrapped));
      case Finished(r) => if r.Some? { SoundCarries(p, s, t, r.value, f.id, f.gen, p.sum(f.wrapped)); }
      case Delivered(r) => if r.Some? { SoundCarries(p, s, t, r.value, f.id, f.gen, p.sum(f.wrapped)); }
      case _ =>
    }
  }

  /** An entry found for a digest was unwrapped from that material after every
      Invalidate of the id so far. */
  lemma FoundIsSound(p: Params, s: System, id: Text, d: Text, now: int)
    requires Generations(s) && EntriesInv(p, s)
    ensures var found := Find(s.entries, id, d, now);
            found.Some? ==> Sound(p, s, found.value, id, |s.invalidated|, d)
  {
  }

  lemma SoundForGeneration(p: Params, s: System, pr: Provider, id: Text, g: nat, h: nat, d: Text)
    requires Generations(s) && Sound(p, s, pr, id, h, d) && g <= h
    ensures Sound(p, s, pr, id, g, d)
  {
    FloorGrows(s, id, g, h);
  }

  // Callers.

  lemma ActingCallerIsSound(p: Params, s: System, step: Step, c: nat)
    requires ParamsOk(p) && Inv(p, s) && Enabled(p, s, step) && !step.JoinOrLead?
    requires c in Act(p, s, step).callers && (c !in s.callers || Act(p, s, step).callers[c] != s.callers[c])
    ensures CallerSound(p, s, Act(p, s, step).callers[c])
  {
    hide LastInvalidate, Generations, EntriesInv, FlightsInv, OpenInv, Stored, FlightKey;
    assert c in s.callers ==> CallerSound(p, s, s.callers[c]);
    match step {
      case Begin(_, id, _) =>
      case Lookup(_) =>
        var w := s.callers[c];
        FoundIsSound(p, s, w.id, p.sum(w.wrapped), s.clock);
      case Receive(_) =>
        var w := s.callers[c];
        FlightIsSound(p, s, w.flight);
      case _ =>
    }
  }

  lemma FlightIsSound(p: Params, s: System, f: nat)
    requires Inv(p, s) && FlightIn(s, f)
    ensures FlightSound(p, s, s.flights[f])
  {
  }

  lemma JoinedIsSame(p: Params, s: System, c: nat)
    requires ParamsOk(p) && Inv(p, s) && Enabled(p, s, JoinOrLead(c))
    ensures CallerSound(p, JoinStep(p, s, c), JoinStep(p, s, c).callers[c])
  {
    hide LastInvalidate, FlightKey;
    var w := s.callers[c];
    assert CallerSound(p, s, w);
    var key := FlightKey(w.id, w.gen, p.sum(w.wrapped));
    if key in s.open {
      var f := s.flights[s.open[key]];
      FlightIsSound(p, s, s.open[key]);
      FlightKeyInjective(w.id, w.gen, p.sum(w.wrapped), f.id, f.gen, p.sum(f.wrapped));
    }
  }

  lemma StepKeepsCallers(p: Params, s: System, step: Step)
    requires ParamsOk(p) && Inv(p, s) && Enabled(p, s, step)
    ensures Generations(Next(p, s, step)) && CallersInv(p, Next(p, s, step))
  {
    hide LastInvalidate, Act, Enabled, CallerSound, EntriesInv, FlightsInv, OpenInv;
    StepExtends(p, s, step);
    var a, t := Act(p, s, step), Next(p, s, step);
    forall c | c in t.callers
      ensures CallerSound(p, t, t.callers[c])
    {
      if c in s.callers && t.callers[c] == s.callers[c] {
        CallerCarries(p, s, t, s.callers[c]);
      } else if step.JoinOrLead? {
        JoinMakesCaller(p, s, step.caller, c);
      } else {
        ActingCallerIsSound(p, s, step, c);
        CallerCarries(p, s, t, t.callers[c]);
      }
    }
  }

  lemma JoinMakesCaller(p: Params, s: System, c: nat, id: nat)
    requires ParamsOk(p) && Inv(p, s) && Enabled(p, s, JoinOrLead(c))
    requires var t := Next(p, s, JoinOrLead(c)); id in t.callers && (id !in s.callers || t.callers[id] != s.callers[id])
    ensures Generations(Next(p, s, JoinOrLead(c)))
    ensures CallerSound(p, Next(p, s, JoinOrLead(c)), Next(p, s, JoinOrLead(c)).callers[id])
  {
    hide LastInvalidate, FlightKey;
    JoinedIsSame(p, s, c);
    StepExtends(p, s, JoinOrLead(c));
  }

  // Flights.

  /** A flight after its own step is sound. */
  lemma ActingFlightIsSound(p: Params, s: System, step: Step, f: nat)
    requires ParamsOk(p) && Inv(p, s) && Enabled(p, s, step)
    requires f < |Act(p, s, step).flights| && (f >= |s.flights| || Act(p, s, step).flights[f] != s.flights[f])
    ensures FlightSound(p, s, Act(p, s, step).flights[f])
  {
    hide LastInvalidate, EntriesInv, OpenInv, CallersInv, Stored, FlightKey, Find, RecheckStep, Generations, Floor;
    if step.Recheck? {
      RecheckedIsSound(p, s, step.flight, f);
    } else if f < |s.flights| {
      assert FlightSound(p, s, s.flights[f]);
    } else {
      LedIsSound(p, s, step, f);
    }
  }

  /** A re-check finds a provider sound for the flight, or starts the unwrap now. */
  lemma RecheckedIsSound(p: Params, s: System, f: nat, g: nat)
    requires Inv(p, s) && Enabled(p, s, Recheck(f))
    requires g < |RecheckStep(p, s, f).flights| && (g < |s.flights| ==> RecheckStep(p, s, f).flights[g] != s.flights[g])
    ensures FlightSound(p, s, RecheckStep(p, s, f).flights[g])
  {
    hide LastInvalidate, EntriesInv, OpenInv, CallersInv, Find;
    var fl := s.flights[f];
    FlightIsSound(p, s, f);
    FoundIsSound(p, s, fl.id, p.sum(fl.wrapped), s.clock);
    var found := Find(s.entries, fl.id, p.sum(fl.wrapped), s.clock);
    if found.Some? {
      SoundForGeneration(p, s, found.value, fl.id, fl.gen, |s.invalidated|, p.sum(fl.wrapped));
    } else {
      FloorGrows(s, fl.id, fl.gen, fl.gen);
    }
  }

  lemma LedIsSound(p: Params, s: System, step: Step, f: nat)
    requires Inv(p, s) && Enabled(p, s, step)
    requires |s.flights| <= f < |Act(p, s, step).flights|
    ensures FlightSound(p, s, Act(p, s, step).flights[f])
  {
    hide LastInvalidate, EntriesInv, OpenInv, Stored, FlightKey, Find;
    if step.JoinOrLead? {
      assert CallerSound(p, s, s.callers[step.caller]);
    }
  }

  lemma StepKeepsFlights(p: Params, s: System, step: Step)
    requires ParamsOk(p) && Inv(p, s) && Enabled(p, s, step)
    ensures Generations(Next(p, s, step)) && FlightsInv(p, Next(p, s, step))
  {
    hide LastInvalidate, Act, Enabled, FlightSound, EntriesInv, CallersInv, OpenInv;
    StepExtends(p, s, step);
    var t := Next(p, s, step);
    forall f | 0 <= f < |t.flights|
      ensures FlightSound(p, t, t.flights[f])
    {
      if f < |s.flights| && t.flights[f] == s.flights[f] {
        FlightCarries(p, s, t, s.flights[f]);
      } else {
        ActingFlightIsSound(p, s, step, f);
        FlightCarries(p, s, t, t.flights[f]);
      }
    }
  }

  // Entries.

  lemma StepKeepsEntries(p: Params, s: System, step: Step)
    requires Inv(p, s) && Enabled(p, s, step)
    ensures Generations(Next(p, s, step)) && EntriesInv(p, Next(p, s, step))
  {
    hide LastInvalidate, OpenInv, CallersInv, FlightKey, Find, Sound;
    StepExtends(p, s, step);
    var t := Next(p, s, step);
    forall id | id in t.entries
      ensures Sound(p, t, t.entries[id].provider, id, |t.invalidated|, t.entries[id].digest)
    {
      match step {
        case Invalidate(gone) => InvalidateSpares(p, s, gone, id);
        case StoreResult(f, readAt) =>
          assert FlightSound(p, s, s.flights[f]);
          SoundCarries(p, s, t, t.entries[id].provider, id, |s.invalidated|, t.entries[id].digest);
        case _ => SoundCarries(p, s, t, t.entries[id].provider, id, |s.invalidated|, t.entries[id].digest);
      }
    }
  }

  /** Invalidating one id leaves the entries of the others sound. */
  lemma InvalidateSpares(p: Params, s: System, gone: Text, id: Text)
    requires Inv(p, s) && Enabled(p, s, Invalidate(gone)) && id in s.entries && id != gone
    ensures var t := Next(p, s, Invalidate(gone));
            Generations(t) && Sound(p, t, s.entries[id].provider, id, |t.invalidated|, s.entries[id].digest)
  {
    var t := Next(p, s, Invalidate(gone));
    StepExtends(p, s, Invalidate(gone));
    FloorStays(s, t, id, |s.invalidated|);
  }

  // The single-flight map.

  lemma StepKeepsOpen(p: Params, s: System, step: Step)
    requires ParamsOk(p) && Inv(p, s) && Enabled(p, s, step)
    ensures OpenInv(p, Next(p, s, step))
  {
    hide LastInvalidate, FlightKey, Find, Stored, EntriesInv, CallersInv, FlightsInv, Generations, OpenInv, ParamsOk;
    if step.JoinOrLead? {
      LeadKeepsOpen(p, s, step.caller);
    } else if step.Deliver? {
      DeliverKeepsOpen(p, s, step.flight);
    } else {
      UndeliveredKeepsOpen(p, s, Next(p, s, step));
    }
  }

  lemma LeadKeepsOpen(p: Params, s: System, c: nat)
    requires OpenInv(p, s) && Enabled(p, s, JoinOrLead(c))
    ensures OpenInv(p, Next(p, s, JoinOrLead(c)))
  {
    hide FlightKey;
    var w, t := s.callers[c], JoinStep(p, s, c);
    var key := FlightKey(w.id, w.gen, p.sum(w.wrapped));
    if key !in s.open {
      assert forall f :: 0 <= f < |s.flights| ==> t.flights[f] == s.flights[f];
    }
  }

  lemma DeliverKeepsOpen(p: Params, s: System, f: nat)
    requires OpenInv(p, s) && Enabled(p, s, Deliver(f))
    ensures OpenInv(p, Next(p, s, Deliver(f)))
  {
    hide FlightKey;
    var t := DeliverStep(p, s, f);
    assert forall g :: 0 <= g < |s.flights| ==> KeyOf(p, t.flights[g]) == KeyOf(p, s.flights[g]);
  }

  /** A step that delivers no flight and leaves the map alone. */
  lemma UndeliveredKeepsOpen(p: Params, s: System, t: System)
    requires OpenInv(p, s) && t.open == s.open && |t.flights| == |s.flights|
    requires forall f :: 0 <= f < |s.flights| ==>
               && KeyOf(p, t.flights[f]) == KeyOf(p, s.flights[f])
               && (t.flights[f].phase.Delivered? <==> s.flights[f].phase.Delivered?)
    ensures OpenInv(p, t)
  {
    hide KeyOf;
  }

  // ---------------------------------------------------------------------------
  // Over every run.

  ghost predicate IsRun(p: Params, s: System, steps: seq<Step>)
    decreases |steps|
  {
    steps == [] || (Enabled(p, s, steps[0]) && IsRun(p, Next(p, s, steps[0]), steps[1..]))
  }

  ghost function After(p: Params, s: System, steps: seq<Step>): System
    requires IsRun(p, s, steps)
    decreases |steps|
  {
    if steps == [] then s else After(p, Next(p, s, steps[0]), steps[1..])
  }

  lemma {:induction false} RunKeeps(p: Params, s: System, steps: seq<Step>)
    requires ParamsOk(p) && Inv(p, s) && IsRun(p, s, steps)
    ensures Inv(p, After(p, s, steps))
    decreases |steps|
  {
    hide Inv, Enabled, Next, ParamsOk;
    if steps == [] {
    } else {
      StepKeeps(p, s, steps[0]);
      RunKeeps(p, Next(p, s, steps[0]), steps[1..]);
    }
  }

  lemma StepKeeps(p: Params, s: System, step: Step)
    requires ParamsOk(p) && Inv(p, s) && Enabled(p, s, step)
    ensures Inv(p, Next(p, s, step))
  {
    hide Generations, EntriesInv, FlightsInv, OpenInv, CallersInv, Next, Enabled;
    StepKeepsCallers(p, s, step);
    StepKeepsFlights(p, s, step);
    StepKeepsEntries(p, s, step);
    StepKeepsOpen(p, s, step);
  }

  /** In every run, a call that gets a provider gets one unwrapped from its own wrapped
      bytes, by an unwrap that started after every Invalidate of its id that preceded
      the call. */
  lemma NeverStale(p: Params, clock: int, steps: seq<Step>, c: nat)
    requires ParamsOk(p) && IsRun(p, Start(clock), steps)
    requires c in After(p, Start(clock), steps).callers && After(p, Start(clock), steps).callers[c].Got?
    ensures var w := After(p, Start(clock), steps).callers[c];
            w.provider.source == w.wrapped && w.provider.startedAt > w.floor
  {
    RunKeeps(p, Start(clock), steps);
    var s := After(p, Start(clock), steps);
    assert CallerSound(p, s, s.callers[c]);
  }

  /** At no time do two shared unwraps run for the same id, generation and material. */
  lemma OneUnwrapPerKey(p: Params, clock: int, steps: seq<Step>, f: nat, g: nat)
    requires ParamsOk(p) && IsRun(p, Start(clock), steps)
    requires var s := After(p, Start(clock), steps);
             && f < |s.flights| && g < |s.flights|
             && !s.flights[f].phase.Delivered? && !s.flights[g].phase.Delivered?
             && s.flights[f].id == s.flights[g].id && s.flights[f].gen == s.flights[g].gen
             && s.flights[f].wrapped == s.flights[g].wrapped
    ensures f == g
  {
    RunKeeps(p, Start(clock), steps);
    var s := After(p, Start(clock), steps);
    assert KeyOf(p, s.flights[f]) == KeyOf(p, s.flights[g]);
  }
}
