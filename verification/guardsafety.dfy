// What every run of the query front guarantees, whatever the interleaving of
// callers, cancellations, retries, clock ticks and routing-table swaps.
module GuardSafety {
  import opened CacheSpec
  import opened RouterSpec
  import opened GuardMachine

  // ---- coalescing ----

  // At most one upstream call per (store, query, instant) is in progress.
  lemma {:induction false} OneUpstreamCallPerKey(cfg: Config, states: seq<State>, steps: seq<Step>, i: nat, f: Id, g: Id)
    requires Run(cfg, states, steps) && i < |states|
    requires f in states[i].flights && g in states[i].flights
    requires Active(states[i].flights[f]) && Active(states[i].flights[g])
    requires states[i].flights[f].key == states[i].flights[g].key
    ensures f == g
  {
    hide Run, GroupsOK;
    RunsAreSafe(cfg, states, steps, i);
    ActiveFlightsDiffer(states[i].groups, states[i].flights, f, g);
  }

  // With the cache on, no other call reaches a client, probes apart.
  lemma {:induction false} OnlyFlightsCall(cfg: Config, states: seq<State>, steps: seq<Step>, i: nat, c: Id)
    requires Run(cfg, states, steps) && i < |states| && c in states[i].callers
    requires cfg.cacheOn && !states[i].callers[c].req.probe
    ensures var p := states[i].callers[c].phase; !p.SlotWait? && !p.Calling? && !p.Probing?
    ensures var p := states[i].callers[c].phase; p.Returned? ==> !p.source.FromUpstream?
  {
    hide Run;
    RunsAreSafe(cfg, states, steps, i);
    assert CallerPath(cfg, states[i].callers[c]);
  }

  // From a flight's re-check until its put, the cache holds no entry for its
  // key; so no upstream call is made while an unexpired one is resident.
  lemma {:induction false} NoCallWhileResident(cfg: Config, states: seq<State>, steps: seq<Step>, i: nat, f: Id, e: Entry)
    requires Run(cfg, states, steps) && i < |states| && f in states[i].flights
    requires Pending(states[i].flights[f]) && e in states[i].cache
    ensures e.key != states[i].flights[f].key
    ensures GetResult(states[i].cache, states[i].flights[f].key, states[i].now).Miss?
  {
    hide Run, Find;
    RunsAreSafe(cfg, states, steps, i);
    assert Lacks(states[i].cache, states[i].flights[f].key);
    FindResident(states[i].cache, states[i].flights[f].key);
  }

  // Per store, the calls in progress never exceed the bound.
  lemma {:induction false} InFlightBounded(cfg: Config, states: seq<State>, steps: seq<Step>, i: nat, store: nat)
    requires Run(cfg, states, steps) && i < |states| && cfg.limit > 0
    ensures |FlightHolders(states[i].flights, store)| + |CallerHolders(states[i].callers, store)| <= cfg.limit
  {
    hide Run, FlightHolders, CallerHolders;
    RunsAreSafe(cfg, states, steps, i);
    assert Used(states[i].inUse, store) <= cfg.limit;
  }

  // A call joins at most two flights, all asking what it asks; the second only
  // because the first died of a context error under another caller's lead. It
  // hands back somebody else's context error only from that second one.
  lemma {:induction false} RetriesOnce(cfg: Config, states: seq<State>, steps: seq<Step>, i: nat, c: Id)
    requires Run(cfg, states, steps) && i < |states| && c in states[i].callers
    ensures var caller := states[i].callers[c];
            && |caller.joined| <= 2
            && forall j :: 0 <= j < |caller.joined| ==>
                 caller.joined[j] in states[i].flights && states[i].flights[caller.joined[j]].key == caller.req.key
    ensures var s, caller := states[i], states[i].callers[c];
            |caller.joined| == 2 || caller.phase == Joining(1) ==>
              && |caller.joined| > 0 && caller.joined[0] in s.flights
              && s.flights[caller.joined[0]].leader != c
              && s.flights[caller.joined[0]].phase.Delivered? && s.flights[caller.joined[0]].phase.res == Fail(ContextErr)
    ensures var caller := states[i].callers[c];
            caller.phase.Returned? && caller.phase.res == Fail(ContextErr) && caller.phase.source.FromFlight? ==>
              && caller.phase.source.flight in states[i].flights
              && (caller.ctxDone || states[i].flights[caller.phase.source.flight].leader == c || |caller.joined| == 2)
  {
    hide Run;
    RunsAreSafe(cfg, states, steps, i);
    assert CallerJoins(c, states[i].callers[c], states[i].flights);
  }

  // What a waiter does with its delivered flight: it asks again exactly when it
  // is live, on its first flight, and that died of a context error under
  // another's lead; otherwise it holds the flight's own result.
  lemma {:induction false} WaiterTakesUnlessAbroad(cfg: Config, states: seq<State>, steps: seq<Step>, i: nat, c: Id)
    requires Run(cfg, states, steps) && i < |steps| && steps[i] == ByCaller(c, Receive)
    ensures c in states[i].callers && c in states[i + 1].callers && states[i].callers[c].phase.Waiting?
    ensures var s, caller, after := states[i], states[i].callers[c], states[i + 1].callers[c].phase;
            var f := caller.phase.flight;
            && f in s.flights && s.flights[f].phase.Delivered?
            && (after == Joining(1) <==>
                  |caller.joined| == 1 && !caller.ctxDone && s.flights[f].leader != c && s.flights[f].phase.res == Fail(ContextErr))
            && (after != Joining(1) ==> after == Returned(s.flights[f].phase.res, FromFlight(f)))
  {
    hide Run, WellFormed, GroupsOK, SlotsOK, StoresOK, VacantOK, IdsOK, PathsOK, AnswersOK, PutsOK, EntriesOK;
    RunStep(cfg, states, steps, i);
    RunsAreSafe(cfg, states, steps, i);
    assert CallerJoins(c, states[i].callers[c], states[i].flights);
  }

  // Callers answered by one flight hold one and the same result, for one call.
  lemma {:induction false} CoalescedCallersAgree(cfg: Config, states: seq<State>, steps: seq<Step>, i: nat, c: Id, d: Id)
    requires Run(cfg, states, steps) && i < |states| && c in states[i].callers && d in states[i].callers
    requires var p, q := states[i].callers[c].phase, states[i].callers[d].phase;
             && p.Returned? && q.Returned? && p.source.FromFlight? && q.source.FromFlight?
             && p.source.flight == q.source.flight
    ensures states[i].callers[c].phase.res == states[i].callers[d].phase.res
    ensures states[i].callers[c].req.key == states[i].callers[d].req.key
  {
    hide Run, WellFormed, GroupsOK, SlotsOK, StoresOK, EntriesOK, VacantOK, IdsOK, PathsOK, PutsOK, AskedOK;
    RunsAreSafe(cfg, states, steps, i);
    var s := states[i];
    assert CallerOK(cfg, s, s.callers[c]) && CallerOK(cfg, s, s.callers[d]);
    assert CallerJoins(c, s.callers[c], s.flights) && CallerJoins(d, s.callers[d], s.flights);
  }

  // What a flight stores is what the next call for its key is served, without
  // joining a flight, unless it is larger than the whole cache.
  lemma {:induction false} StoredIsServed(cfg: Config, s: State, f: Id)
    requires FlightReady(cfg, s, f, FlightAct.Store) && s.flights[f].phase.res.Ok?
    requires EntryCost(s.flights[f].phase.res.vec) <= cfg.max && cfg.ttl > 0
    ensures var after := DoFlight(cfg, s, f, FlightAct.Store);
            GetResult(after.cache, s.flights[f].key, after.now) == Hit(s.flights[f].phase.res.vec.NonNil())
    ensures var after := DoFlight(cfg, s, f, FlightAct.Store);
            forall req :: !Bypasses(cfg, req) && req.key == s.flights[f].key ==>
              LookupPhase(cfg, after.cache, req, after.now).Returned?
              && LookupPhase(cfg, after.cache, req, after.now).res == Ok(s.flights[f].phase.res.vec.NonNil())
  {
    hide PutState, GetResult, StorePuts;
    PutThenGet(s.cache, s.flights[f].key, s.flights[f].phase.res.vec, s.now + cfg.ttl, cfg.max, s.now);
  }

  // ---- provenance ----

  // The client of this identity ended this query at this instant with res.
  ghost predicate Answered(s: State, client: ClientKey, k: CacheKey, res: Res) {
    Response(client, k.query, k.ts, res) in s.responses
  }

  // Every result of a call, a probe included, was produced by a client built
  // for the backend's own url, user name and password, for the same query and
  // instant; only a cached copy may read back a nil vector as an empty one.
  lemma {:induction false} ResultsAreGenuine(cfg: Config, states: seq<State>, steps: seq<Step>, i: nat, c: Id)
    requires Run(cfg, states, steps) && i < |states| && c in states[i].callers
    requires states[i].callers[c].phase.Returned? && states[i].callers[c].phase.res.Ok?
    ensures var s, req, v := states[i], states[i].callers[c].req, states[i].callers[c].phase.res.vec;
            || Answered(s, req.client, req.key, Ok(v))
            || (!req.probe && v == Vector([]) && Answered(s, req.client, req.key, Ok(NilVector)))
  {
    hide Run, WellFormed, GroupsOK, SlotsOK, StoresOK, EntriesOK, VacantOK, IdsOK;
    RunsAreSafe(cfg, states, steps, i);
    var s, caller := states[i], states[i].callers[c];
    assert CallerOK(cfg, s, caller) && CallerPath(cfg, caller);
    match caller.phase.source
    case FromCache(at, expires) => assert PutOK(s.now, s.responses, s.keyOf, PutRec(caller.req.key, caller.phase.res.vec, expires - cfg.ttl));
    case FromFlight(f) =>
      assert CallerJoins(c, caller, s.flights);
      FlightAnswers(cfg, s, f);
    case _ =>
  }

  lemma {:induction false} FlightAnswers(cfg: Config, s: State, f: Id)
    requires Inv(cfg, s) && f in s.flights && s.flights[f].phase.Delivered? && s.flights[f].phase.res.Ok?
    ensures var k, v := s.flights[f].key, s.flights[f].phase.res.vec;
            && k.store in s.keyOf
            && (Answered(s, s.keyOf[k.store], k, Ok(v)) || (v == Vector([]) && Answered(s, s.keyOf[k.store], k, Ok(NilVector))))
  {
    hide WellFormed, GroupsOK, SlotsOK, StoresOK, EntriesOK, VacantOK, IdsOK, JoinsOK, PathsOK;
    assert FlightOK(cfg, s, s.flights[f]);
    match s.flights[f].phase.reuse
    case NotReused =>
    case Reused(at, expires) =>
      assert PutOK(s.now, s.responses, s.keyOf, PutRec(s.flights[f].key, s.flights[f].phase.res.vec, expires - cfg.ttl));
  }

  // Every failure is the upstream's own for that query and instant, or a context
  // error: the caller's, or that of whoever led its flight and was waiting for
  // a slot. Nothing fails otherwise.
  lemma {:induction false} FailuresAreGenuine(cfg: Config, states: seq<State>, steps: seq<Step>, i: nat, c: Id)
    requires Run(cfg, states, steps) && i < |states| && c in states[i].callers
    requires states[i].callers[c].phase.Returned? && states[i].callers[c].phase.res.Fail?
    ensures var s, caller := states[i], states[i].callers[c];
            || Answered(s, caller.req.client, caller.req.key, caller.phase.res)
            || (caller.phase.res == Fail(ContextErr) && (caller.ctxDone || LedByGone(cfg, s, caller)))
  {
    hide Run, WellFormed, GroupsOK, SlotsOK, StoresOK, EntriesOK, VacantOK, IdsOK, PathsOK, PutsOK;
    RunsAreSafe(cfg, states, steps, i);
    var s, caller := states[i], states[i].callers[c];
    assert CallerOK(cfg, s, caller);
    assert s.keyOf[caller.req.key.store] == caller.req.client;
    if caller.phase.source.FromFlight? {
      assert CallerJoins(c, caller, s.flights);
      FlightFails(cfg, s, caller.phase.source.flight);
    }
  }

  lemma {:induction false} FlightFails(cfg: Config, s: State, f: Id)
    requires Inv(cfg, s) && f in s.flights && s.flights[f].phase.Delivered? && s.flights[f].phase.res.Fail?
    ensures var k, res := s.flights[f].key, s.flights[f].phase.res;
            && k.store in s.keyOf
            && (Answered(s, s.keyOf[k.store], k, res) || (res == Fail(ContextErr) && LeaderGone(cfg, s.callers, s.flights[f])))
  {
    hide WellFormed, GroupsOK, SlotsOK, StoresOK, EntriesOK, VacantOK, IdsOK, JoinsOK, PathsOK, PutsOK;
    assert FlightOK(cfg, s, s.flights[f]);
  }

  ghost predicate LedByGone(cfg: Config, s: State, caller: Caller) {
    && caller.phase.Returned? && caller.phase.source.FromFlight? && caller.phase.source.flight in s.flights
    && LeaderGone(cfg, s.callers, s.flights[caller.phase.source.flight])
  }

  // The entry was put less than the TTL before it was read.
  ghost predicate FreshAt(cfg: Config, s: State, k: CacheKey, v: Vector, at: int) {
    exists p :: p in s.puts && p.key == k && p.vec == v && at < p.at + cfg.ttl
  }

  lemma {:induction false} ReadIsFresh(cfg: Config, s: State, k: CacheKey, v: Vector, at: int, expires: int)
    requires ReadOK(cfg.ttl, s.puts, k, v, at, expires)
    ensures FreshAt(cfg, s, k, v, at)
  {
    assert PutRec(k, v, expires - cfg.ttl) in s.puts;
  }

  // A result read from the cache, by a call or by its flight's re-check, was
  // put less than the TTL before it was read.
  lemma {:induction false} CachedResultsAreFresh(cfg: Config, states: seq<State>, steps: seq<Step>, i: nat, c: Id)
    requires Run(cfg, states, steps) && i < |states| && c in states[i].callers
    requires states[i].callers[c].phase.Returned? && states[i].callers[c].phase.res.Ok?
    ensures var s, caller := states[i], states[i].callers[c];
            match caller.phase.source
            case FromCache(at, _) => FreshAt(cfg, s, caller.req.key, caller.phase.res.vec, at)
            case FromFlight(f) =>
              && f in s.flights && s.flights[f].phase.Delivered?
              && (s.flights[f].phase.reuse.Reused? ==>
                    FreshAt(cfg, s, caller.req.key, caller.phase.res.vec, s.flights[f].phase.reuse.at))
            case _ => true
  {
    hide Run, WellFormed, GroupsOK, SlotsOK, StoresOK, EntriesOK, VacantOK, IdsOK, PathsOK, PutsOK, FreshAt, ReadOK, AskedOK;
    RunsAreSafe(cfg, states, steps, i);
    var s, caller := states[i], states[i].callers[c];
    assert CallerOK(cfg, s, caller);
    match caller.phase.source
    case FromCache(at, expires) => ReadIsFresh(cfg, s, caller.req.key, caller.phase.res.vec, at, expires);
    case FromFlight(f) =>
      assert CallerJoins(c, caller, s.flights) && FlightOK(cfg, s, s.flights[f]);
      if s.flights[f].phase.reuse.Reused? {
        var reuse := s.flights[f].phase.reuse;
        ReadIsFresh(cfg, s, caller.req.key, caller.phase.res.vec, reuse.at, reuse.expires);
      }
    case _ =>
  }

  // Once the time-to-live has passed, nothing cached before is served.
  lemma {:induction false} NothingOutlivesTTL(cfg: Config, states: seq<State>, steps: seq<Step>, i: nat, d: nat, k: CacheKey)
    requires Run(cfg, states, steps) && i < |states| && d >= cfg.ttl
    ensures var s' := Do(cfg, states[i], Tick(d)); GetResult(s'.cache, k, s'.now) == Miss
  {
    hide Run, WellFormed, GroupsOK, SlotsOK, StoresOK, VacantOK, IdsOK, PathsOK, JoinsOK, AnswersOK, AskedOK, Find;
    RunsAreSafe(cfg, states, steps, i);
    var s := states[i];
    if Find(s.cache, k) < |s.cache| {
      var e := s.cache[Find(s.cache, k)];
      assert e in s.cache && EntryOK(cfg.ttl, s.puts, e);
      assert PutOK(s.now, s.responses, s.keyOf, PutRec(e.key, e.vec, e.expires - cfg.ttl));
    }
  }

  // A lookup leaves of its key either the unexpired entry it was served, as the
  // most recently used, or nothing; a probe, or a call without a cache, leaves
  // the cache alone.
  lemma {:induction false} LookupMoves(cfg: Config, states: seq<State>, steps: seq<Step>, i: nat, c: Id)
    requires Run(cfg, states, steps) && i < |states| && CallerReady(cfg, states[i], c, Lookup)
    ensures var s, s' := states[i], Do(cfg, states[i], ByCaller(c, Lookup));
            var req := s.callers[c].req;
            && (req.probe || !cfg.cacheOn ==> s'.cache == s.cache)
            && (!req.probe && cfg.cacheOn ==>
                  if s'.callers[c].phase.Returned?
                  then s'.cache != [] && s'.cache[0].key == req.key && s.now < s'.cache[0].expires
                       && s'.callers[c].phase.res == Ok(s'.cache[0].vec)
                  else Lacks(s'.cache, req.key))
  {
    hide Run, GroupsOK, SlotsOK, StoresOK, VacantOK, IdsOK, PathsOK, JoinsOK, AnswersOK, AskedOK, PutsOK, EntriesOK, HonestCosts, Total;
    RunsAreSafe(cfg, states, steps, i);
    GetObserves(states[i].cache, states[i].callers[c].req.key, states[i].now);
  }

  // ---- reload ----

  // Nothing anywhere names this store yet.
  ghost predicate Unused(s: State, store: nat) {
    && store !in s.keyOf
    && (forall e :: e in s.cache ==> e.key.store != store)
    && (forall f :: f in s.flights ==> s.flights[f].key.store != store)
    && (forall c :: c in s.callers ==> s.callers[c].req.key.store != store)
    && (forall p :: p in s.puts ==> p.key.store != store)
  }

  lemma {:induction false} UnknownStoreIsUnused(cfg: Config, s: State, store: nat)
    requires Inv(cfg, s) && store !in s.keyOf
    ensures Unused(s, store)
  {
    hide WellFormed, GroupsOK, SlotsOK, StoresOK, VacantOK, IdsOK, PathsOK, JoinsOK, AnswersOK;
    forall e | e in s.cache ensures e.key.store != store {
      assert EntryOK(cfg.ttl, s.puts, e);
      assert PutOK(s.now, s.responses, s.keyOf, PutRec(e.key, e.vec, e.expires - cfg.ttl));
    }
    forall p | p in s.puts ensures p.key.store != store {
      assert PutOK(s.now, s.responses, s.keyOf, p);
    }
  }

  // A swap that succeeds gives a surviving identity its old store and any other
  // identity, one retired earlier included, a store no entry, flight, call or
  // put has ever named. A swap that fails leaves all but the counter alone.
  lemma {:induction false} SwapGivesFreshStores(cfg: Config, states: seq<State>, steps: seq<Step>, i: nat)
    requires Run(cfg, states, steps) && i < |steps| && steps[i].Swap?
    ensures var s, s' := states[i], states[i + 1];
            s'.live == s.live || s'.live.table == steps[i].table
    ensures var s, s' := states[i], states[i + 1];
            if Build(steps[i].table, s.live.snap.byKey, s.nextStore, steps[i].accepts).Failed?
            then s' == s.(nextStore := s'.nextStore)
            else forall k :: k in s'.live.snap.byKey ==>
                   if k in s.live.snap.byKey then s'.live.snap.byKey[k] == s.live.snap.byKey[k]
                   else Unused(s, s'.live.snap.byKey[k])
  {
    hide Run, Build, Unused, WellFormed, GroupsOK, SlotsOK, VacantOK, IdsOK, PathsOK, JoinsOK, AnswersOK, AskedOK, PutsOK,
      EntriesOK, SnapshotOK, Record;
    RunLength(cfg, states, steps);
    SwapStep(cfg, states, steps, i);
    RunsAreSafe(cfg, states, steps, i);
    var s := states[i];
    BuildAllocates(steps[i].table, s.live.snap.byKey, s.nextStore, steps[i].accepts);
    forall store | store !in s.keyOf ensures Unused(s, store) { UnknownStoreIsUnused(cfg, s, store); }
  }

  // Any table with backends of distinct names may be swapped in, whatever is
  // running, and is then served unless a client was refused.
  lemma SwapNeedNotWait(cfg: Config, s: State, table: seq<Backend>, accepts: nat -> bool)
    requires table != [] && UniqueNames(table)
    ensures Enabled(cfg, s, Swap(table, accepts))
    ensures Build(table, s.live.snap.byKey, s.nextStore, accepts).Built? ==> Do(cfg, s, Swap(table, accepts)).live.table == table
  {
    hide Build, Record, UniqueNames;
  }

  lemma RunLength(cfg: Config, states: seq<State>, steps: seq<Step>)
    requires Run(cfg, states, steps)
    ensures |states| == |steps| + 1
  {
    hide Enabled, Do, Init;
  }

  lemma {:induction false} SwapStep(cfg: Config, states: seq<State>, steps: seq<Step>, i: nat)
    requires Run(cfg, states, steps) && i < |steps| && steps[i].Swap?
    ensures states[i + 1] == DoSwap(states[i], steps[i].table, steps[i].accepts)
  {
    hide DoSwap, Init;
  }

  // ---- progress ----

  // The steps that serve calls already made.
  predicate Working(step: Step) {
    step.Join? || step.ByFlight? || (step.ByCaller? && !step.call.Cancel?)
  }

  // Nothing but serving can happen to it.
  ghost predicate CanWork(cfg: Config, s: State) {
    exists step :: Working(step) && Enabled(cfg, s, step)
  }

  lemma {:induction false} CanWorkBy(cfg: Config, s: State, step: Step)
    requires Working(step) && Enabled(cfg, s, step)
    ensures CanWork(cfg, s)
  {
  }

  // A call in progress can always be answered: the store is known and its
  // counter is up, so the step's own guards never block it.
  lemma {:induction false} FetchingCanBeAnswered(cfg: Config, s: State, f: Id, res: Res)
    requires Inv(cfg, s) && f in s.flights && s.flights[f].phase.Fetching?
    ensures FlightReady(cfg, s, f, FlightAct.Answer(res))
  {
    hide WellFormed, GroupsOK, StoresOK, VacantOK, IdsOK, PathsOK, JoinsOK, AnswersOK, PutsOK, EntriesOK, Used;
    var store := s.flights[f].key.store;
    assert f in FlightHolders(s.flights, store);
    assert cfg.limit > 0 ==> Used(s.inUse, store) == |FlightHolders(s.flights, store)| + |CallerHolders(s.callers, store)|;
  }

  lemma {:induction false} CallingCanBeAnswered(cfg: Config, s: State, c: Id, res: Res)
    requires Inv(cfg, s) && c in s.callers && s.callers[c].phase.Calling?
    ensures CallerReady(cfg, s, c, CallerAct.DirectAnswer(res))
  {
    hide WellFormed, GroupsOK, StoresOK, VacantOK, IdsOK, PathsOK, JoinsOK, AnswersOK, PutsOK, EntriesOK, Used;
    var store := s.callers[c].req.key.store;
    assert c in CallerHolders(s.callers, store);
    assert cfg.limit > 0 ==> Used(s.inUse, store) == |FlightHolders(s.flights, store)| + |CallerHolders(s.callers, store)|;
  }

  // A store without a free slot has a call in progress that can be answered.
  lemma {:induction false} FullStoreCanWork(cfg: Config, s: State, store: nat)
    requires Inv(cfg, s) && !SlotFree(cfg, s.inUse, store)
    ensures CanWork(cfg, s)
  {
    hide WellFormed, GroupsOK, StoresOK, VacantOK, IdsOK, PathsOK, JoinsOK, AnswersOK, PutsOK, EntriesOK, Used, CanWork, Enabled;
    var res := Fail(OtherErr);
    assert Used(s.inUse, store) == |FlightHolders(s.flights, store)| + |CallerHolders(s.callers, store)|;
    if FlightHolders(s.flights, store) != {} {
      var f :| f in FlightHolders(s.flights, store);
      FlightCanWork(cfg, s, f, res);
    } else {
      var c :| c in CallerHolders(s.callers, store);
      CallingCanWork(cfg, s, c, res);
    }
  }

  lemma {:induction false} FlightCanWork(cfg: Config, s: State, f: Id, res: Res)
    requires Inv(cfg, s) && f in s.flights && s.flights[f].phase.Fetching?
    ensures CanWork(cfg, s)
  {
    hide CanWork, Inv, FlightReady;
    FetchingCanBeAnswered(cfg, s, f, res);
    CanWorkBy(cfg, s, ByFlight(f, FlightAct.Answer(res)));
  }

  lemma {:induction false} CallingCanWork(cfg: Config, s: State, c: Id, res: Res)
    requires Inv(cfg, s) && c in s.callers && s.callers[c].phase.Calling?
    ensures CanWork(cfg, s)
  {
    hide CanWork, Inv, CallerReady;
    CallingCanBeAnswered(cfg, s, c, res);
    CanWorkBy(cfg, s, ByCaller(c, CallerAct.DirectAnswer(res)));
  }

  lemma {:induction false} ActiveFlightCanWork(cfg: Config, s: State, f: Id)
    requires Inv(cfg, s) && f in s.flights && Active(s.flights[f])
    ensures CanWork(cfg, s)
  {
    hide Inv, CanWork, SlotFree;
    match s.flights[f].phase
    case Recheck => CanWorkBy(cfg, s, ByFlight(f, RecheckCache));
    case Acquiring =>
      if SlotFree(cfg, s.inUse, s.flights[f].key.store) {
        CanWorkBy(cfg, s, ByFlight(f, Acquire));
      } else {
        FullStoreCanWork(cfg, s, s.flights[f].key.store);
      }
    case Fetching => FlightCanWork(cfg, s, f, Fail(OtherErr));
    case Fetched(_) => CanWorkBy(cfg, s, ByFlight(f, FlightAct.Store));
    case Settled(_, _) => CanWorkBy(cfg, s, ByFlight(f, Forget));
  }

  // No reachable state is stuck: while a call is unanswered some step serves.
  lemma {:induction false} NoDeadlock(cfg: Config, states: seq<State>, steps: seq<Step>, i: nat, c: Id)
    requires Run(cfg, states, steps) && i < |states|
    requires c in states[i].callers && !states[i].callers[c].phase.Returned?
    ensures CanWork(cfg, states[i])
  {
    hide Run, CanWork, SlotFree, WellFormed, GroupsOK, SlotsOK, StoresOK, VacantOK, IdsOK, PathsOK, AnswersOK, PutsOK, EntriesOK;
    RunsAreSafe(cfg, states, steps, i);
    var s := states[i];
    match s.callers[c].phase
    case Started => CanWorkBy(cfg, s, ByCaller(c, Lookup));
    case Joining(_) => CanWorkBy(cfg, s, Step.Join(c));
    case Waiting(f, _, _) =>
      assert CallerJoins(c, s.callers[c], s.flights);
      if Active(s.flights[f]) {
        ActiveFlightCanWork(cfg, s, f);
      } else {
        CanWorkBy(cfg, s, ByCaller(c, Receive));
      }
    case SlotWait =>
      if SlotFree(cfg, s.inUse, s.callers[c].req.key.store) {
        CanWorkBy(cfg, s, ByCaller(c, DirectAcquire));
      } else {
        FullStoreCanWork(cfg, s, s.callers[c].req.key.store);
      }
    case Calling => CallingCanWork(cfg, s, c, Fail(OtherErr));
    case Probing =>
      assert s.callers[c].req.key.store in s.keyOf;
      CanWorkBy(cfg, s, ByCaller(c, ProbeAnswer(Fail(OtherErr))));
  }

  // A call may be cancelled at any moment, and a cancelled one never has to wait:
  // not for a flight, nor for a slot; nor does a flight for a slot once its
  // leader is cancelled.
  lemma {:induction false} CancelledNeedNotWait(cfg: Config, s: State, c: Id, f: Id)
    requires Inv(cfg, s)
    ensures c in s.callers ==> Enabled(cfg, s, ByCaller(c, Cancel)) && Do(cfg, s, ByCaller(c, Cancel)).callers[c].ctxDone
    ensures c in s.callers && s.callers[c].ctxDone && s.callers[c].phase.Waiting? ==> Enabled(cfg, s, ByCaller(c, GiveUp))
    ensures c in s.callers && s.callers[c].ctxDone && s.callers[c].phase.SlotWait? ==>
              Enabled(cfg, s, ByCaller(c, DirectFails)) || Enabled(cfg, s, ByCaller(c, DirectAcquire))
    ensures f in s.flights && s.flights[f].phase.Acquiring? && s.callers[s.flights[f].leader].ctxDone ==>
              Enabled(cfg, s, ByFlight(f, AcquireFails)) || Enabled(cfg, s, ByFlight(f, Acquire))
  {
    hide WellFormed, GroupsOK, SlotsOK, StoresOK, VacantOK, IdsOK, PathsOK, AnswersOK, PutsOK, EntriesOK, Used;
  }

  // How far a call, or a flight, is from its end.
  function CallerLeft(p: CallerPhase): nat {
    match p
    case Started => 17
    case Joining(a) => if a == 0 then 16 else 9
    case Waiting(_, a, _) => if a == 0 then 10 else 3
    case SlotWait => 2
    case Calling => 1
    case Probing => 1
    case Returned(_, _) => 0
  }

  function FlightLeft(p: FlightPhase): nat {
    match p
    case Recheck => 5
    case Acquiring => 4
    case Fetching => 3
    case Fetched(_) => 2
    case Settled(_, _) => 1
    case Delivered(_, _) => 0
  }

  function CallersLeft(callers: map<Id, Caller>, n: nat): nat {
    if n == 0 then 0
    else CallersLeft(callers, n - 1) + if n - 1 in callers then CallerLeft(callers[n - 1].phase) else 0
  }

  function FlightsLeft(flights: map<Id, Flight>, n: nat): nat {
    if n == 0 then 0
    else FlightsLeft(flights, n - 1) + if n - 1 in flights then FlightLeft(flights[n - 1].phase) else 0
  }

  function Left(s: State): nat {
    CallersLeft(s.callers, s.nextId) + FlightsLeft(s.flights, s.nextId)
  }

  lemma {:induction false} CallersLeftMoves(callers: map<Id, Caller>, c: Id, v: Caller, n: nat)
    requires c in callers
    ensures CallersLeft(callers[c := v], n)
            == CallersLeft(callers, n) + if c < n then CallerLeft(v.phase) - CallerLeft(callers[c].phase) else 0
  {
    hide CallerLeft;
    if n > 0 {
      CallersLeftMoves(callers, c, v, n - 1);
    }
  }

  lemma {:induction false} FlightsLeftMoves(flights: map<Id, Flight>, f: Id, v: Flight, n: nat)
    ensures FlightsLeft(flights[f := v], n)
            == FlightsLeft(flights, n)
               + if f < n then FlightLeft(v.phase) - (if f in flights then FlightLeft(flights[f].phase) else 0) else 0
  {
    hide FlightLeft;
    if n > 0 {
      FlightsLeftMoves(flights, f, v, n - 1);
    }
  }

  lemma {:induction false} CallerStepLowers(cfg: Config, s: State, c: Id, act: CallerAct)
    requires CallerReady(cfg, s, c, act) && !act.Cancel?
    requires s.callers[c].phase.Waiting? ==> s.callers[c].phase.attempt <= 1
    ensures c in DoCaller(cfg, s, c, act).callers
    ensures CallerLeft(DoCaller(cfg, s, c, act).callers[c].phase) < CallerLeft(s.callers[c].phase)
  {
    hide GetState, GetResult, Find, Taken, Released, SlotFree, Heard, Used;
  }

  lemma {:induction false} FlightStepLowers(cfg: Config, s: State, f: Id, act: FlightAct)
    requires FlightReady(cfg, s, f, act)
    ensures f in DoFlight(cfg, s, f, act).flights
    ensures FlightLeft(DoFlight(cfg, s, f, act).flights[f].phase) < FlightLeft(s.flights[f].phase)
  {
    hide GetState, GetResult, Find, StoreCache, StorePuts, GroupOf, Taken, Released, SlotFree, Heard, Used;
  }

  // A join starts at most one flight, and leaves the caller further on by more.
  lemma {:induction false} JoinLowers(s: State, c: Id)
    requires c in s.callers && s.callers[c].phase.Joining? && s.callers[c].phase.attempt <= 1
    requires IdsOK(s.nextId, s.callers, s.flights)
    ensures Left(DoJoin(s, c)) < Left(s)
  {
    hide GroupOf, CallersLeft;
    var s' := DoJoin(s, c);
    CallersLeftMoves(s.callers, c, s'.callers[c], s.nextId);
    CallersLeftStops(s'.callers, s.nextId);
    FlightsLeftMoves(s.flights, s.nextId, Flight(s.callers[c].req.key, c, Recheck), s.nextId);
  }

  lemma {:induction false} CallersLeftStops(callers: map<Id, Caller>, n: nat)
    requires n !in callers
    ensures CallersLeft(callers, n + 1) == CallersLeft(callers, n)
  {
    hide CallerLeft;
  }

  lemma {:induction false} WorkLowers(cfg: Config, s: State, step: Step)
    requires Inv(cfg, s) && Enabled(cfg, s, step) && Working(step)
    ensures Left(Do(cfg, s, step)) < Left(s)
  {
    hide DoCaller, DoFlight, DoSwap, DoJoin, CallerReady, FlightReady, UniqueNames, GroupOf, WellFormed, SlotsOK, VacantOK,
      GroupsOK, PathsOK, StoresOK, AskedOK, EntriesOK, PutsOK, AnswersOK, CallersLeft, FlightsLeft, CallerLeft, FlightLeft;
    match step
    case Join(c) =>
      assert CallerJoins(c, s.callers[c], s.flights);
      JoinLowers(s, c);
    case ByCaller(c, act) =>
      CallerFrame(cfg, s, c, act);
      assert CallerJoins(c, s.callers[c], s.flights);
      CallerStepLowers(cfg, s, c, act);
      CallersLeftMoves(s.callers, c, DoCaller(cfg, s, c, act).callers[c], s.nextId);
    case ByFlight(f, act) =>
      FlightFrame(cfg, s, f, act);
      FlightStepLowers(cfg, s, f, act);
      FlightsLeftMoves(s.flights, f, DoFlight(cfg, s, f, act).flights[f], s.nextId);
  }

  // However it is scheduled, serving comes to an end: a stretch of serving
  // steps is no longer than what was left to do, and where no such step is
  // enabled every call has been answered.
  lemma {:induction false} ServingEnds(cfg: Config, states: seq<State>, steps: seq<Step>, i: nat, j: nat)
    requires Run(cfg, states, steps) && i <= j < |states|
    requires forall k :: i <= k < j ==> Working(steps[k])
    ensures j - i <= Left(states[i])
    ensures !CanWork(cfg, states[j]) ==> forall c :: c in states[j].callers ==> states[j].callers[c].phase.Returned?
    decreases j - i
  {
    hide Run, Left, CanWork, Inv, Do, Enabled, Working;
    RunLength(cfg, states, steps);
    if i < j {
      RunsAreSafe(cfg, states, steps, i);
      RunStep(cfg, states, steps, i);
      WorkLowers(cfg, states[i], steps[i]);
      ServingEnds(cfg, states, steps, i + 1, j);
    } else {
      forall c | c in states[j].callers && !states[j].callers[c].phase.Returned? ensures CanWork(cfg, states[j]) {
        NoDeadlock(cfg, states, steps, j, c);
      }
    }
  }

  lemma {:induction false} RunStep(cfg: Config, states: seq<State>, steps: seq<Step>, i: nat)
    requires Run(cfg, states, steps) && i < |steps|
    ensures |states| == |steps| + 1
    ensures Enabled(cfg, states[i], steps[i]) && states[i + 1] == Do(cfg, states[i], steps[i])
  {
    hide Enabled, Do, Init;
  }
}
