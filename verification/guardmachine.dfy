// The upstream query front as a state machine over many callers: the shared
// result cache, the per-store flight groups and slot counters, and the router
// replacing its snapshot while calls are running. One step is one atomic action
// of one goroutine; any interleaving of enabled steps is a run.
module GuardMachine {
  import opened CacheSpec
  import opened RouterSpec
  import opened Decimal

  // limit == 0 means no bound; cacheOn == false means a nil cache.
  datatype Config = Config(limit: nat, max: nat, ttl: int, cacheOn: bool)

  datatype Err = ContextErr | OtherErr
  datatype Res = Ok(vec: Vector) | Fail(err: Err)

  type Id = nat

  // One call through a backend: the client identity the backend had in the
  // snapshot its build closed over, and the store, query and instant asked.
  datatype Request = Request(client: ClientKey, key: CacheKey, probe: bool)

  // Where an answer came from.
  datatype Source = NoSource | FromCache(at: int, expires: int) | FromFlight(flight: Id) | FromUpstream

  datatype CallerPhase =
    | Started
    | Joining(attempt: nat)
    | Waiting(flight: Id, attempt: nat, led: bool)
    | SlotWait
    | Calling
    | Probing
    | Returned(res: Res, source: Source)

  datatype Caller = Caller(req: Request, ctxDone: bool, joined: seq<Id>, phase: CallerPhase)

  // A flight that found an entry on its re-check remembers when.
  datatype Reuse = NotReused | Reused(at: int, expires: int)

  datatype FlightPhase =
    | Recheck
    | Acquiring
    | Fetching
    | Fetched(res: Res)
    | Settled(res: Res, reuse: Reuse)
    | Delivered(res: Res, reuse: Reuse)

  // The shared call of a group; it runs under its leader's context.
  datatype Flight = Flight(key: CacheKey, leader: Id, phase: FlightPhase)

  datatype GroupKey = GroupKey(store: nat, flightKey: string)

  datatype Live = Live(table: seq<Backend>, snap: Snapshot)

  datatype Response = Response(client: ClientKey, query: string, ts: int, res: Res)
  datatype PutRec = PutRec(key: CacheKey, vec: Vector, at: int)

  // The last five fields are history: every snapshot that was live, the
  // identity each store's client was built for, what upstreams answered and
  // what was put.
  datatype State = State(
    now: int,
    cache: seq<Entry>,
    groups: map<GroupKey, Id>,
    callers: map<Id, Caller>,
    flights: map<Id, Flight>,
    inUse: map<nat, nat>,
    live: Live,
    nextStore: nat,
    nextId: nat,
    seen: set<Live>,
    keyOf: map<nat, ClientKey>,
    responses: set<Response>,
    puts: set<PutRec>)

  // What a caller's own goroutine does, joining a flight aside.
  datatype CallerAct =
    | Cancel
    | Lookup
    | Receive
    | GiveUp
    | DirectAcquire
    | DirectFails
    | DirectAnswer(res: Res)
    | ProbeAnswer(res: Res)

  // What a flight's goroutine does.
  datatype FlightAct =
    | RecheckCache
    | Acquire
    | AcquireFails
    | Answer(res: Res)
    | Store
    | Forget

  datatype Step =
    | Tick(d: nat)
    | StartCall(live: Live, i: nat, query: string, ts: int, probe: bool)
    | Join(c: Id)
    | ByCaller(c: Id, call: CallerAct)
    | ByFlight(f: Id, act: FlightAct)
    | Swap(table: seq<Backend>, accepts: nat -> bool)

  function FlightKey(query: string, ts: int): string {
    query + ['\0'] + Itoa(ts)
  }

  function GroupOf(k: CacheKey): GroupKey {
    GroupKey(k.store, FlightKey(k.query, k.ts))
  }

  // The flight key of a query string of any bytes never confuses two calls.
  lemma {:induction false} GroupOfInjective(a: CacheKey, b: CacheKey)
    requires GroupOf(a) == GroupOf(b)
    ensures a == b
  {
    hide Itoa;
    ItoaPlain(a.ts);
    ItoaPlain(b.ts);
    SplitAtLast(a.query, Itoa(a.ts), b.query, Itoa(b.ts), '\0');
    ItoaInjective(a.ts, b.ts);
  }

  function Used(inUse: map<nat, nat>, store: nat): nat {
    if store in inUse then inUse[store] else 0
  }

  // Slot counters are kept only under a bound.
  function Taken(cfg: Config, inUse: map<nat, nat>, store: nat): map<nat, nat> {
    if cfg.limit == 0 then inUse else inUse[store := Used(inUse, store) + 1]
  }

  function Released(cfg: Config, inUse: map<nat, nat>, store: nat): map<nat, nat>
    requires cfg.limit > 0 ==> Used(inUse, store) > 0
  {
    if cfg.limit == 0 then inUse else inUse[store := Used(inUse, store) - 1]
  }

  predicate SlotFree(cfg: Config, inUse: map<nat, nat>, store: nat) {
    cfg.limit == 0 || Used(inUse, store) < cfg.limit
  }

  function MoveCaller(s: State, c: Id, p: CallerPhase): State
    requires c in s.callers
  {
    s.(callers := s.callers[c := s.callers[c].(phase := p)])
  }

  function MoveFlight(s: State, f: Id, p: FlightPhase): State
    requires f in s.flights
  {
    s.(flights := s.flights[f := s.flights[f].(phase := p)])
  }

  function Heard(responses: set<Response>, client: ClientKey, k: CacheKey, res: Res): set<Response> {
    responses + {Response(client, k.query, k.ts, res)}
  }

  predicate Active(f: Flight) {
    !f.phase.Delivered?
  }

  predicate CallerReady(cfg: Config, s: State, c: Id, act: CallerAct) {
    && c in s.callers
    && var caller := s.callers[c];
       var store := caller.req.key.store;
       match act
       case Cancel => true
       case Lookup => caller.phase.Started?
       case Receive =>
         && caller.phase.Waiting? && caller.phase.flight in s.flights
         && s.flights[caller.phase.flight].phase.Delivered?
       case GiveUp => caller.phase.Waiting? && caller.ctxDone
       case DirectAcquire => caller.phase.SlotWait? && SlotFree(cfg, s.inUse, store)
       case DirectFails => caller.phase.SlotWait? && cfg.limit > 0 && caller.ctxDone
       case DirectAnswer(_) =>
         caller.phase.Calling? && store in s.keyOf && (cfg.limit > 0 ==> Used(s.inUse, store) > 0)
       case ProbeAnswer(_) => caller.phase.Probing? && store in s.keyOf
  }

  predicate FlightReady(cfg: Config, s: State, f: Id, act: FlightAct) {
    && f in s.flights
    && var flight := s.flights[f];
       match act
       case RecheckCache => flight.phase.Recheck?
       case Acquire => flight.phase.Acquiring? && SlotFree(cfg, s.inUse, flight.key.store)
       case AcquireFails =>
         flight.phase.Acquiring? && cfg.limit > 0 && flight.leader in s.callers && s.callers[flight.leader].ctxDone
       case Answer(_) =>
         && flight.phase.Fetching? && flight.key.store in s.keyOf
         && (cfg.limit > 0 ==> Used(s.inUse, flight.key.store) > 0)
       case Store => flight.phase.Fetched?
       case Forget => flight.phase.Settled?
  }

  // A call may run on any snapshot that was live when its build began.
  ghost predicate Enabled(cfg: Config, s: State, step: Step) {
    match step
    case Tick(_) => true
    case StartCall(live, i, _, _, _) =>
      live in s.seen && i < |live.table| && live.table[i].name in live.snap.clients
    case Join(c) => c in s.callers && s.callers[c].phase.Joining?
    case ByCaller(c, act) => CallerReady(cfg, s, c, act)
    case ByFlight(f, act) => FlightReady(cfg, s, f, act)
    case Swap(table, _) => table != [] && UniqueNames(table)
  }

  predicate Bypasses(cfg: Config, req: Request) {
    req.probe || !cfg.cacheOn
  }

  function LookupPhase(cfg: Config, cache: seq<Entry>, req: Request, now: int): CallerPhase {
    if req.probe then Probing
    else if !cfg.cacheOn then SlotWait
    else
      match GetResult(cache, req.key, now)
      case Miss => Joining(0)
      case Hit(v) => Returned(Ok(v), FromCache(now, cache[Find(cache, req.key)].expires))
  }

  function DoJoin(s: State, c: Id): State
    requires c in s.callers && s.callers[c].phase.Joining?
  {
    var caller := s.callers[c];
    var g := GroupOf(caller.req.key);
    if g in s.groups then
      var f := s.groups[g];
      s.(callers := s.callers[c := caller.(joined := caller.joined + [f],
                                           phase := Waiting(f, caller.phase.attempt, false))])
    else
      var f := s.nextId;
      s.(callers := s.callers[c := caller.(joined := caller.joined + [f],
                                           phase := Waiting(f, caller.phase.attempt, true))],
         flights := s.flights[f := Flight(caller.req.key, c, Recheck)],
         groups := s.groups[g := f],
         nextId := f + 1)
  }

  function RecheckPhase(cache: seq<Entry>, k: CacheKey, now: int): FlightPhase {
    match GetResult(cache, k, now)
    case Miss => Acquiring
    case Hit(v) => Settled(Ok(v), Reused(now, cache[Find(cache, k)].expires))
  }

  // A failed answer is not put.
  function StoreCache(cfg: Config, cache: seq<Entry>, k: CacheKey, res: Res, now: int): seq<Entry> {
    if res.Fail? then cache else PutState(cache, k, res.vec, now + cfg.ttl, cfg.max)
  }

  function StorePuts(puts: set<PutRec>, k: CacheKey, res: Res, now: int): set<PutRec> {
    if res.Fail? then puts else puts + {PutRec(k, res.vec.NonNil(), now)}
  }

  // A waiter whose shared call died of a context error that is not its own
  // tries once more; everything else is final.
  function ReceivePhase(caller: Caller, res: Res): CallerPhase
    requires caller.phase.Waiting?
  {
    if res == Fail(ContextErr) && !caller.phase.led && caller.phase.attempt == 0 && !caller.ctxDone
    then Joining(1)
    else Returned(res, FromFlight(caller.phase.flight))
  }

  // The stores a build created or carried, under the identities it built for.
  function Record(backends: seq<Backend>, byKey: map<ClientKey, nat>, keyOf: map<nat, ClientKey>): map<nat, ClientKey> {
    if backends == [] then keyOf
    else
      var last := backends[|backends| - 1];
      var before := Record(backends[..|backends| - 1], byKey, keyOf);
      if last.key in byKey then before[byKey[last.key] := last.key] else before
  }

  // A failed build moves nothing but the store counter.
  function DoSwap(s: State, table: seq<Backend>, accepts: nat -> bool): State {
    match Build(table, s.live.snap.byKey, s.nextStore, accepts)
    case Failed(next) => s.(nextStore := next)
    case Built(snap, next) =>
      s.(nextStore := next, live := Live(table, snap), seen := s.seen + {Live(table, snap)},
         keyOf := Record(table, snap.byKey, s.keyOf))
  }

  function DoCaller(cfg: Config, s: State, c: Id, act: CallerAct): State
    requires CallerReady(cfg, s, c, act)
  {
    var k := s.callers[c].req.key;
    match act
    case Cancel => s.(callers := s.callers[c := s.callers[c].(ctxDone := true)])
    case Lookup =>
      MoveCaller(s, c, LookupPhase(cfg, s.cache, s.callers[c].req, s.now)).(
        cache := if Bypasses(cfg, s.callers[c].req) then s.cache else GetState(s.cache, k, s.now))
    case Receive =>
      MoveCaller(s, c, ReceivePhase(s.callers[c], s.flights[s.callers[c].phase.flight].phase.res))
    case GiveUp => MoveCaller(s, c, Returned(Fail(ContextErr), NoSource))
    case DirectAcquire => MoveCaller(s, c, Calling).(inUse := Taken(cfg, s.inUse, k.store))
    case DirectFails => MoveCaller(s, c, Returned(Fail(ContextErr), NoSource))
    case DirectAnswer(res) =>
      MoveCaller(s, c, Returned(res, FromUpstream)).(
        inUse := Released(cfg, s.inUse, k.store),
        responses := Heard(s.responses, s.keyOf[k.store], k, res))
    case ProbeAnswer(res) =>
      MoveCaller(s, c, Returned(res, FromUpstream)).(responses := Heard(s.responses, s.keyOf[k.store], k, res))
  }

  function DoFlight(cfg: Config, s: State, f: Id, act: FlightAct): State
    requires FlightReady(cfg, s, f, act)
  {
    var k := s.flights[f].key;
    match act
    case RecheckCache =>
      MoveFlight(s, f, RecheckPhase(s.cache, k, s.now)).(cache := GetState(s.cache, k, s.now))
    case Acquire => MoveFlight(s, f, Fetching).(inUse := Taken(cfg, s.inUse, k.store))
    case AcquireFails => MoveFlight(s, f, Settled(Fail(ContextErr), NotReused))
    case Answer(res) =>
      MoveFlight(s, f, Fetched(res)).(
        inUse := Released(cfg, s.inUse, k.store),
        responses := Heard(s.responses, s.keyOf[k.store], k, res))
    case Store =>
      var res := s.flights[f].phase.res;
      MoveFlight(s, f, Settled(res, NotReused)).(
        cache := StoreCache(cfg, s.cache, k, res, s.now), puts := StorePuts(s.puts, k, res, s.now))
    case Forget =>
      MoveFlight(s, f, Delivered(s.flights[f].phase.res, s.flights[f].phase.reuse)).(groups := s.groups - {GroupOf(k)})
  }

  function Do(cfg: Config, s: State, step: Step): State
    requires Enabled(cfg, s, step)
  {
    match step
    case Tick(d) => s.(now := s.now + d)
    case StartCall(live, i, query, ts, probe) =>
      var key := CacheKey(live.snap.clients[live.table[i].name], query, ts);
      s.(callers := s.callers[s.nextId := Caller(Request(live.table[i].key, key, probe), false, [], Started)],
         nextId := s.nextId + 1)
    case Join(c) => DoJoin(s, c)
    case ByCaller(c, act) => DoCaller(cfg, s, c, act)
    case ByFlight(f, act) => DoFlight(cfg, s, f, act)
    case Swap(table, accepts) => DoSwap(s, table, accepts)
  }

  ghost predicate Init(s: State) {
    && s.cache == [] && s.groups == map[] && s.callers == map[] && s.flights == map[] && s.inUse == map[]
    && s.live == Live([], EMPTY) && s.seen == {} && s.nextStore == 0 && s.keyOf == map[]
    && s.responses == {} && s.puts == {}
  }

  // ---- the invariants, each over the components it speaks of ----

  // Ids are fresh, and a flight asks what its leader asked.
  ghost predicate IdsOK(nextId: nat, callers: map<Id, Caller>, flights: map<Id, Flight>) {
    && (forall c :: c in callers ==> c < nextId)
    && (forall f :: f in flights ==> f < nextId)
  }

  // The groups name exactly the active flights, one for each call.
  ghost predicate GroupsOK(groups: map<GroupKey, Id>, flights: map<Id, Flight>) {
    && (forall g :: g in groups ==>
          groups[g] in flights && Active(flights[groups[g]]) && GroupOf(flights[groups[g]].key) == g)
    && (forall f :: f in flights && Active(flights[f]) ==>
          GroupOf(flights[f].key) in groups && groups[GroupOf(flights[f].key)] == f)
  }

  // Past its re-check and short of its put.
  predicate Pending(f: Flight) {
    f.phase.Acquiring? || f.phase.Fetching? || f.phase.Fetched?
  }

  ghost predicate Lacks(cache: seq<Entry>, k: CacheKey) {
    forall e :: e in cache ==> e.key != k
  }

  // Between a flight's re-check and its put, the cache holds nothing for it.
  ghost predicate VacantOK(cache: seq<Entry>, flights: map<Id, Flight>) {
    forall f :: f in flights && Pending(flights[f]) ==> Lacks(cache, flights[f].key)
  }

  predicate FetchingAt(f: Flight, store: nat) {
    f.phase.Fetching? && f.key.store == store
  }

  predicate CallingAt(c: Caller, store: nat) {
    c.phase.Calling? && c.req.key.store == store
  }

  ghost function FlightHolders(flights: map<Id, Flight>, store: nat): set<Id> {
    set f | f in flights && FetchingAt(flights[f], store)
  }

  ghost function CallerHolders(callers: map<Id, Caller>, store: nat): set<Id> {
    set c | c in callers && CallingAt(callers[c], store)
  }

  // The counter of a store is the number of its upstream calls in progress.
  ghost predicate SlotsOK(cfg: Config, inUse: map<nat, nat>, callers: map<Id, Caller>, flights: map<Id, Flight>) {
    cfg.limit > 0 ==>
      forall store: nat {:trigger Used(inUse, store)} ::
        && Used(inUse, store) == |FlightHolders(flights, store)| + |CallerHolders(callers, store)|
        && Used(inUse, store) <= cfg.limit
  }

  // The flight died of a context error under somebody else's lead.
  ghost predicate DiedAbroad(c: Id, flights: map<Id, Flight>, f: Id) {
    && f in flights && flights[f].leader != c
    && flights[f].phase.Delivered? && flights[f].phase.res == Fail(ContextErr)
  }

  // Every call joins at most two flights, each asking exactly what it asked,
  // the second only where the first died abroad; and it reports a context error
  // that is not its own only after leading the flight that died of it or after
  // that second try.
  ghost predicate CallerJoins(c: Id, caller: Caller, flights: map<Id, Flight>) {
    && |caller.joined| <= 2
    && (forall i :: 0 <= i < |caller.joined| ==>
          caller.joined[i] in flights && flights[caller.joined[i]].key == caller.req.key)
    && (|caller.joined| == 2 || caller.phase == Joining(1) ==> |caller.joined| > 0 && DiedAbroad(c, flights, caller.joined[0]))
    && match caller.phase
       case Joining(a) =>
         && a <= 1 && |caller.joined| == a
         && forall i :: 0 <= i < a ==> flights[caller.joined[i]].phase.Delivered?
       case Waiting(f, a, led) =>
         && a <= 1 && |caller.joined| == a + 1 && caller.joined[a] == f && f in flights
         && (led <==> flights[f].leader == c)
       case Returned(res, FromFlight(f)) =>
         && |caller.joined| > 0 && caller.joined[|caller.joined| - 1] == f && f in flights
         && (res == Fail(ContextErr) ==> caller.ctxDone || flights[f].leader == c || |caller.joined| == 2)
       case Returned(_, _) => true
       case _ => caller.joined == []
  }

  ghost predicate LeadersOK(callers: map<Id, Caller>, flights: map<Id, Flight>) {
    forall f :: f in flights ==> flights[f].leader in callers && f in callers[flights[f].leader].joined
  }

  ghost predicate JoinsOK(callers: map<Id, Caller>, flights: map<Id, Flight>) {
    (forall c :: c in callers ==> CallerJoins(c, callers[c], flights)) && LeadersOK(callers, flights)
  }

  // Only probes and calls without a cache reach a client outside a flight.
  ghost predicate CallerPath(cfg: Config, caller: Caller) {
    match caller.phase
    case Started => true
    case Probing => caller.req.probe
    case SlotWait => !caller.req.probe && !cfg.cacheOn
    case Calling => !caller.req.probe && !cfg.cacheOn
    case Returned(_, FromUpstream) => Bypasses(cfg, caller.req)
    case Returned(_, NoSource) => !caller.req.probe && (cfg.cacheOn || cfg.limit > 0)
    case _ => !caller.req.probe && cfg.cacheOn
  }

  ghost predicate PathsOK(cfg: Config, callers: map<Id, Caller>) {
    forall c :: c in callers ==> CallerPath(cfg, callers[c])
  }

  // ---- stores ----

  // Every client of the snapshot was built for the identity it is filed under.
  ghost predicate SnapshotOK(live: Live, keyOf: map<nat, ClientKey>) {
    && Serves(live.snap, live.table)
    && forall k :: k in live.snap.byKey ==> live.snap.byKey[k] in keyOf && keyOf[live.snap.byKey[k]] == k
  }

  ghost predicate StoresOK(live: Live, seen: set<Live>, nextStore: nat, keyOf: map<nat, ClientKey>) {
    && SnapshotOK(live, keyOf)
    && (forall l :: l in seen ==> SnapshotOK(l, keyOf))
    && Injective(live.snap.byKey) && Bounded(live.snap.byKey, nextStore)
    && (forall store :: store in keyOf ==> store <= nextStore)
  }

  ghost predicate AskedOK(callers: map<Id, Caller>, flights: map<Id, Flight>, keyOf: map<nat, ClientKey>) {
    && (forall c :: c in callers ==>
          callers[c].req.key.store in keyOf && keyOf[callers[c].req.key.store] == callers[c].req.client)
    && (forall f :: f in flights ==> flights[f].key.store in keyOf)
  }

  // ---- where answers come from ----

  ghost predicate Heard1(responses: set<Response>, keyOf: map<nat, ClientKey>, k: CacheKey, res: Res) {
    k.store in keyOf && Response(keyOf[k.store], k.query, k.ts, res) in responses
  }

  // A put holds an answer of the store's client, with nil stored as empty.
  ghost predicate PutOK(now: int, responses: set<Response>, keyOf: map<nat, ClientKey>, p: PutRec) {
    && p.at <= now
    && (Heard1(responses, keyOf, p.key, Ok(p.vec)) || (p.vec == Vector([]) && Heard1(responses, keyOf, p.key, Ok(NilVector))))
  }

  ghost predicate PutsOK(now: int, responses: set<Response>, keyOf: map<nat, ClientKey>, puts: set<PutRec>) {
    forall p :: p in puts ==> PutOK(now, responses, keyOf, p)
  }

  ghost predicate EntryOK(ttl: int, puts: set<PutRec>, e: Entry) {
    PutRec(e.key, e.vec, e.expires - ttl) in puts
  }

  ghost predicate EntriesOK(ttl: int, cache: seq<Entry>, puts: set<PutRec>) {
    forall e :: e in cache ==> EntryOK(ttl, puts, e)
  }

  // Read from the cache at an instant the entry had not expired.
  ghost predicate ReadOK(ttl: int, puts: set<PutRec>, k: CacheKey, v: Vector, at: int, expires: int) {
    at < expires && PutRec(k, v, expires - ttl) in puts
  }

  // A flight that got no answer died waiting for a slot, its leader gone.
  ghost predicate LeaderGone(cfg: Config, callers: map<Id, Caller>, f: Flight) {
    cfg.limit > 0 && f.leader in callers && callers[f.leader].ctxDone
  }

  ghost predicate EndOK(cfg: Config, s: State, f: Flight, res: Res, reuse: Reuse) {
    match reuse
    case Reused(at, expires) => res.Ok? && ReadOK(cfg.ttl, s.puts, f.key, res.vec, at, expires)
    case NotReused => Heard1(s.responses, s.keyOf, f.key, res) || (res == Fail(ContextErr) && LeaderGone(cfg, s.callers, f))
  }

  ghost predicate FlightOK(cfg: Config, s: State, f: Flight) {
    match f.phase
    case Fetched(res) => Heard1(s.responses, s.keyOf, f.key, res)
    case Settled(res, reuse) => EndOK(cfg, s, f, res, reuse)
    case Delivered(res, reuse) => EndOK(cfg, s, f, res, reuse)
    case _ => true
  }

  ghost predicate CallerOK(cfg: Config, s: State, caller: Caller) {
    match caller.phase
    case Returned(res, FromCache(at, expires)) => res.Ok? && ReadOK(cfg.ttl, s.puts, caller.req.key, res.vec, at, expires)
    case Returned(res, FromUpstream) => Heard1(s.responses, s.keyOf, caller.req.key, res)
    case Returned(res, FromFlight(f)) =>
      f in s.flights && s.flights[f].phase.Delivered? && s.flights[f].phase.res == res
    case Returned(res, NoSource) => res == Fail(ContextErr) && caller.ctxDone
    case _ => true
  }

  ghost predicate AnswersOK(cfg: Config, s: State) {
    && (forall f :: f in s.flights ==> FlightOK(cfg, s, s.flights[f]))
    && (forall c :: c in s.callers ==> CallerOK(cfg, s, s.callers[c]))
  }

  ghost predicate Inv(cfg: Config, s: State) {
    && IdsOK(s.nextId, s.callers, s.flights)
    && GroupsOK(s.groups, s.flights)
    && WellFormed(s.cache, cfg.max)
    && VacantOK(s.cache, s.flights)
    && SlotsOK(cfg, s.inUse, s.callers, s.flights)
    && JoinsOK(s.callers, s.flights)
    && PathsOK(cfg, s.callers)
    && StoresOK(s.live, s.seen, s.nextStore, s.keyOf)
    && AskedOK(s.callers, s.flights, s.keyOf)
    && PutsOK(s.now, s.responses, s.keyOf, s.puts)
    && EntriesOK(cfg.ttl, s.cache, s.puts)
    && AnswersOK(cfg, s)
  }

  // ---- what a step leaves alone ----

  ghost predicate SameRouting(s: State, s': State) {
    s'.live == s.live && s'.seen == s.seen && s'.nextStore == s.nextStore && s'.keyOf == s.keyOf
  }

  ghost predicate CallerOnly(s: State, s': State, c: Id, v: Caller) {
    && SameRouting(s, s') && s'.now == s.now && s'.puts == s.puts && s'.nextId == s.nextId
    && s'.flights == s.flights && s'.groups == s.groups && c in s.callers
    && s'.callers == s.callers[c := v] && v.req == s.callers[c].req && v.joined == s.callers[c].joined
    && (s.callers[c].ctxDone ==> v.ctxDone)
  }

  ghost predicate FlightOnly(s: State, s': State, f: Id, p: FlightPhase) {
    && SameRouting(s, s') && s'.now == s.now && s'.nextId == s.nextId && s'.callers == s.callers
    && f in s.flights && s'.flights == s.flights[f := s.flights[f].(phase := p)]
  }

  lemma {:induction false} CallerFrame(cfg: Config, s: State, c: Id, act: CallerAct)
    requires CallerReady(cfg, s, c, act)
    ensures c in DoCaller(cfg, s, c, act).callers
    ensures CallerOnly(s, DoCaller(cfg, s, c, act), c, DoCaller(cfg, s, c, act).callers[c])
  {
    hide GetState, LookupPhase, ReceivePhase, Taken, Released, SlotFree, Heard;
  }

  lemma {:induction false} FlightFrame(cfg: Config, s: State, f: Id, act: FlightAct)
    requires FlightReady(cfg, s, f, act)
    ensures f in DoFlight(cfg, s, f, act).flights
    ensures FlightOnly(s, DoFlight(cfg, s, f, act), f, DoFlight(cfg, s, f, act).flights[f].phase)
    ensures Active(s.flights[f]) && (Active(DoFlight(cfg, s, f, act).flights[f]) <==> !act.Forget?)
    ensures !act.Store? ==> DoFlight(cfg, s, f, act).puts == s.puts
    ensures !act.Forget? ==> DoFlight(cfg, s, f, act).groups == s.groups
    ensures act.Forget? ==> DoFlight(cfg, s, f, act).groups == s.groups - {GroupOf(s.flights[f].key)}
  {
    hide GetState, GetResult, Find, StoreCache, StorePuts, GroupOf, Taken, Released, SlotFree, Heard;
  }

  // ---- ids and groups ----

  lemma {:induction false} IdsKept(cfg: Config, s: State, step: Step)
    requires Enabled(cfg, s, step) && IdsOK(s.nextId, s.callers, s.flights)
    ensures var s' := Do(cfg, s, step); IdsOK(s'.nextId, s'.callers, s'.flights)
  {
    hide DoCaller, DoFlight, DoSwap, CallerReady, FlightReady, UniqueNames, GroupOf;
    match step
    case ByCaller(c, act) => CallerFrame(cfg, s, c, act);
    case ByFlight(f, act) => FlightFrame(cfg, s, f, act);
    case Swap(table, accepts) => SwapFrame(s, table, accepts);
    case _ =>
  }

  lemma {:induction false} SwapFrame(s: State, table: seq<Backend>, accepts: nat -> bool)
    ensures DoSwap(s, table, accepts) == s.(nextStore := DoSwap(s, table, accepts).nextStore,
                                            live := DoSwap(s, table, accepts).live,
                                            seen := DoSwap(s, table, accepts).seen,
                                            keyOf := DoSwap(s, table, accepts).keyOf)
  {
    hide Build, Record;
  }

  lemma {:induction false} OpenKeepsGroups(groups: map<GroupKey, Id>, flights: map<Id, Flight>, f: Id, v: Flight)
    requires GroupsOK(groups, flights) && f !in flights && Active(v) && GroupOf(v.key) !in groups
    ensures GroupsOK(groups[GroupOf(v.key) := f], flights[f := v])
  {
    hide GroupOf;
  }

  lemma {:induction false} MoveKeepsGroups(groups: map<GroupKey, Id>, flights: map<Id, Flight>, f: Id, p: FlightPhase)
    requires GroupsOK(groups, flights) && f in flights && Active(flights[f])
    ensures !p.Delivered? ==> GroupsOK(groups, flights[f := flights[f].(phase := p)])
    ensures p.Delivered? ==> GroupsOK(groups - {GroupOf(flights[f].key)}, flights[f := flights[f].(phase := p)])
  {
    hide GroupOf;
  }

  lemma {:induction false} GroupsKept(cfg: Config, s: State, step: Step)
    requires Enabled(cfg, s, step) && IdsOK(s.nextId, s.callers, s.flights) && GroupsOK(s.groups, s.flights)
    ensures var s' := Do(cfg, s, step); GroupsOK(s'.groups, s'.flights)
  {
    hide DoCaller, DoFlight, DoSwap, CallerReady, FlightReady, UniqueNames, GroupOf, GroupsOK;
    match step
    case Join(c) =>
      var k := s.callers[c].req.key;
      if GroupOf(k) !in s.groups {
        OpenKeepsGroups(s.groups, s.flights, s.nextId, Flight(k, c, Recheck));
      }
    case ByCaller(c, act) => CallerFrame(cfg, s, c, act);
    case ByFlight(f, act) =>
      FlightFrame(cfg, s, f, act);
      MoveKeepsGroups(s.groups, s.flights, f, DoFlight(cfg, s, f, act).flights[f].phase);
    case Swap(table, accepts) => SwapFrame(s, table, accepts);
    case _ =>
  }

  // Two active flights never ask the same.
  lemma {:induction false} ActiveFlightsDiffer(groups: map<GroupKey, Id>, flights: map<Id, Flight>, f: Id, g: Id)
    requires GroupsOK(groups, flights) && f in flights && g in flights
    requires Active(flights[f]) && Active(flights[g]) && flights[f].key == flights[g].key
    ensures f == g
  {
    hide GroupOf;
  }

  // ---- the cache ----

  // The three ways a step may change the cache.
  ghost predicate CacheMove(cfg: Config, s: State, after: seq<Entry>, step: Step) {
    match step
    case ByCaller(c, Lookup) =>
      c in s.callers && (after == s.cache || after == GetState(s.cache, s.callers[c].req.key, s.now))
    case ByFlight(f, RecheckCache) => f in s.flights && after == GetState(s.cache, s.flights[f].key, s.now)
    case ByFlight(f, Store) =>
      && f in s.flights && s.flights[f].phase.Fetched?
      && after == StoreCache(cfg, s.cache, s.flights[f].key, s.flights[f].phase.res, s.now)
    case _ => after == s.cache
  }

  lemma {:induction false} CacheFrame(cfg: Config, s: State, step: Step)
    requires Enabled(cfg, s, step)
    ensures CacheMove(cfg, s, Do(cfg, s, step).cache, step)
  {
    hide GetState, RecheckPhase, LookupPhase, ReceivePhase, StoreCache, StorePuts, GroupOf, Taken, Released, SlotFree, Heard, DoSwap;
    match step
    case Swap(table, accepts) => SwapFrame(s, table, accepts);
    case _ =>
  }

  lemma {:induction false} CacheKept(cfg: Config, s: State, step: Step)
    requires Enabled(cfg, s, step) && WellFormed(s.cache, cfg.max)
    ensures WellFormed(Do(cfg, s, step).cache, cfg.max)
  {
    hide Do, GetState, PutState, WellFormed, GroupOf;
    CacheFrame(cfg, s, step);
    match step
    case ByCaller(c, Lookup) => GetKeepsWellFormed(s.cache, s.callers[c].req.key, s.now, cfg.max);
    case ByFlight(f, RecheckCache) => GetKeepsWellFormed(s.cache, s.flights[f].key, s.now, cfg.max);
    case ByFlight(f, Store) =>
      var res := s.flights[f].phase.res;
      if res.Ok? { PutKeepsWellFormed(s.cache, s.flights[f].key, res.vec, s.now + cfg.ttl, cfg.max); }
    case _ =>
  }

  // A put brings in the new entry only.
  lemma {:induction false} StoreCacheHolds(cfg: Config, cache: seq<Entry>, k: CacheKey, res: Res, now: int, e: Entry)
    requires WellFormed(cache, cfg.max) && e in StoreCache(cfg, cache, k, res, now)
    ensures e in cache || (res.Ok? && e == MakeEntry(k, res.vec, now + cfg.ttl))
  {
    hide Fit, Without, Total, MakeEntry;
    if res.Ok? && EntryCost(res.vec) <= cfg.max {
      var others, room := Without(cache, k), cfg.max - EntryCost(res.vec);
      WithoutLacks(cache, k);
      FitIsLongestPrefix(others, room);
      PrefixKeepsDistinctMembers(Fit(others, room), others, e);
    }
  }

  lemma {:induction false} PrefixKeepsDistinctMembers(rest: seq<Entry>, order: seq<Entry>, e: Entry)
    requires rest <= order
    ensures e in rest ==> e in order
  {
    if e in rest {
      var i :| 0 <= i < |rest| && rest[i] == e;
      assert order[i] == e;
    }
  }

  lemma {:induction false} GetHolds(cache: seq<Entry>, k: CacheKey, now: int, max: nat, e: Entry)
    requires WellFormed(cache, max) && e in GetState(cache, k, now)
    ensures e in cache
  {
    hide GetState, GetResult, Total;
    GetObserves(cache, k, now);
  }

  // ---- vacancy between re-check and put ----

  lemma {:induction false} RecheckKeepsVacant(cache: seq<Entry>, flights: map<Id, Flight>, f: Id, now: int, max: nat)
    requires WellFormed(cache, max) && VacantOK(cache, flights) && f in flights
    ensures VacantOK(GetState(cache, flights[f].key, now),
                     flights[f := flights[f].(phase := RecheckPhase(cache, flights[f].key, now))])
  {
    hide GetState, GetResult, Total, Find;
    var k := flights[f].key;
    GetObserves(cache, k, now);
    forall e | e in GetState(cache, k, now) ensures e in cache { GetHolds(cache, k, now, max, e); }
  }

  lemma {:induction false} StoreKeepsVacant(cfg: Config, cache: seq<Entry>, groups: map<GroupKey, Id>, flights: map<Id, Flight>, f: Id, now: int)
    requires WellFormed(cache, cfg.max) && VacantOK(cache, flights) && GroupsOK(groups, flights)
    requires f in flights && flights[f].phase.Fetched?
    ensures var res := flights[f].phase.res;
            VacantOK(StoreCache(cfg, cache, flights[f].key, res, now),
                     flights[f := flights[f].(phase := Settled(res, NotReused))])
  {
    hide GroupsOK, StoreCache, WellFormed, GroupOf;
    var k, res := flights[f].key, flights[f].phase.res;
    forall e | e in StoreCache(cfg, cache, k, res, now) ensures e in cache || e.key == k {
      StoreCacheHolds(cfg, cache, k, res, now, e);
    }
    forall g | g in flights && g != f && Pending(flights[g]) ensures flights[g].key != k {
      if flights[g].key == k { ActiveFlightsDiffer(groups, flights, f, g); }
    }
  }

  lemma {:induction false} MoveKeepsVacant(cache: seq<Entry>, flights: map<Id, Flight>, f: Id, v: Flight)
    requires VacantOK(cache, flights)
    requires Pending(v) ==> f in flights && Pending(flights[f]) && flights[f].key == v.key
    ensures VacantOK(cache, flights[f := v])
  {
  }

  lemma {:induction false} LookupKeepsVacant(cache: seq<Entry>, flights: map<Id, Flight>, k: CacheKey, now: int, max: nat)
    requires WellFormed(cache, max) && VacantOK(cache, flights)
    ensures VacantOK(GetState(cache, k, now), flights)
  {
    hide GetState, WellFormed;
    forall e | e in GetState(cache, k, now) ensures e in cache { GetHolds(cache, k, now, max, e); }
  }

  lemma {:induction false} FlightKeepsVacant(cfg: Config, s: State, f: Id, act: FlightAct)
    requires FlightReady(cfg, s, f, act) && WellFormed(s.cache, cfg.max)
    requires VacantOK(s.cache, s.flights) && GroupsOK(s.groups, s.flights)
    ensures var s' := DoFlight(cfg, s, f, act); VacantOK(s'.cache, s'.flights)
  {
    hide GetState, RecheckPhase, StoreCache, StorePuts, GroupOf, Taken, Released, SlotFree, Heard, VacantOK, WellFormed, GroupsOK;
    match act
    case RecheckCache => RecheckKeepsVacant(s.cache, s.flights, f, s.now, cfg.max);
    case Store => StoreKeepsVacant(cfg, s.cache, s.groups, s.flights, f, s.now);
    case _ => MoveKeepsVacant(s.cache, s.flights, f, DoFlight(cfg, s, f, act).flights[f]);
  }

  lemma {:induction false} VacantKept(cfg: Config, s: State, step: Step)
    requires Enabled(cfg, s, step) && WellFormed(s.cache, cfg.max)
    requires VacantOK(s.cache, s.flights) && GroupsOK(s.groups, s.flights)
    ensures var s' := Do(cfg, s, step); VacantOK(s'.cache, s'.flights)
  {
    hide DoCaller, DoFlight, DoSwap, CallerReady, FlightReady, UniqueNames, GroupOf, GroupsOK, VacantOK, WellFormed, GetState;
    CacheFrame(cfg, s, step);
    match step
    case Join(c) => MoveKeepsVacant(s.cache, s.flights, s.nextId, Flight(s.callers[c].req.key, c, Recheck));
    case ByCaller(c, act) =>
      CallerFrame(cfg, s, c, act);
      LookupKeepsVacant(s.cache, s.flights, s.callers[c].req.key, s.now, cfg.max);
    case ByFlight(f, act) => FlightKeepsVacant(cfg, s, f, act);
    case Swap(table, accepts) => SwapFrame(s, table, accepts);
    case _ =>
  }

  // ---- slots ----

  function One(b: bool): int {
    if b then 1 else 0
  }

  // The calls a store's counter should show.
  ghost function Held(callers: map<Id, Caller>, flights: map<Id, Flight>, store: nat): nat {
    |FlightHolders(flights, store)| + |CallerHolders(callers, store)|
  }

  lemma {:induction false} FlightHoldersMoved(flights: map<Id, Flight>, f: Id, v: Flight, store: nat)
    ensures |FlightHolders(flights[f := v], store)|
            == |FlightHolders(flights, store)| - One(f in flights && FetchingAt(flights[f], store)) + One(FetchingAt(v, store))
  {
    hide FetchingAt;
    var before, after := FlightHolders(flights, store), FlightHolders(flights[f := v], store);
    if FetchingAt(v, store) {
      assert after == before + {f};
    } else {
      assert after == before - {f};
    }
  }

  lemma {:induction false} CallerHoldersMoved(callers: map<Id, Caller>, c: Id, v: Caller, store: nat)
    ensures |CallerHolders(callers[c := v], store)|
            == |CallerHolders(callers, store)| - One(c in callers && CallingAt(callers[c], store)) + One(CallingAt(v, store))
  {
    hide CallingAt;
    var before, after := CallerHolders(callers, store), CallerHolders(callers[c := v], store);
    if CallingAt(v, store) {
      assert after == before + {c};
    } else {
      assert after == before - {c};
    }
  }

  // The counters move with the calls, one store at a time.
  ghost predicate CountsMove(cfg: Config, inUse: map<nat, nat>, inUse': map<nat, nat>, at: nat, entered: bool, left: bool) {
    && (entered ==> !left && SlotFree(cfg, inUse, at) && inUse' == Taken(cfg, inUse, at))
    && (left ==> !entered && (cfg.limit > 0 ==> Used(inUse, at) > 0) && inUse' == Released(cfg, inUse, at))
    && (!entered && !left ==> inUse' == inUse)
  }

  lemma {:induction false} CountsStay(cfg: Config, inUse: map<nat, nat>, inUse': map<nat, nat>, at: nat, entered: bool, left: bool, store: nat)
    requires CountsMove(cfg, inUse, inUse', at, entered, left) && cfg.limit > 0
    ensures Used(inUse', store) == Used(inUse, store) + (if store == at then One(entered) - One(left) else 0)
    ensures Used(inUse, store) <= cfg.limit ==> Used(inUse', store) <= cfg.limit
  {
  }

  lemma {:induction false} FlightKeepsSlots(cfg: Config, inUse: map<nat, nat>, inUse': map<nat, nat>, callers: map<Id, Caller>, flights: map<Id, Flight>, f: Id, p: FlightPhase)
    requires SlotsOK(cfg, inUse, callers, flights) && f in flights
    requires CountsMove(cfg, inUse, inUse', flights[f].key.store,
                        p.Fetching? && !flights[f].phase.Fetching?, flights[f].phase.Fetching? && !p.Fetching?)
    ensures SlotsOK(cfg, inUse', callers, flights[f := flights[f].(phase := p)])
  {
    hide FlightHolders, CallerHolders, Used, SlotFree, Taken, Released, CountsMove;
    if cfg.limit > 0 {
      forall store: nat
        ensures Used(inUse', store) == Held(callers, flights[f := flights[f].(phase := p)], store)
                && Used(inUse', store) <= cfg.limit
      {
        FlightHoldersMoved(flights, f, flights[f].(phase := p), store);
        CountsStay(cfg, inUse, inUse', flights[f].key.store,
                   p.Fetching? && !flights[f].phase.Fetching?, flights[f].phase.Fetching? && !p.Fetching?, store);
      }
    }
  }

  lemma {:induction false} CallerKeepsSlots(cfg: Config, inUse: map<nat, nat>, inUse': map<nat, nat>, callers: map<Id, Caller>, flights: map<Id, Flight>, c: Id, v: Caller)
    requires SlotsOK(cfg, inUse, callers, flights)
    requires c in callers ==> v.req == callers[c].req
    requires var was := c in callers && callers[c].phase.Calling?;
             CountsMove(cfg, inUse, inUse', v.req.key.store, v.phase.Calling? && !was, was && !v.phase.Calling?)
    ensures SlotsOK(cfg, inUse', callers[c := v], flights)
  {
    hide FlightHolders, CallerHolders, Used, SlotFree, Taken, Released, CountsMove;
    var was := c in callers && callers[c].phase.Calling?;
    if cfg.limit > 0 {
      forall store: nat
        ensures Used(inUse', store) == Held(callers[c := v], flights, store) && Used(inUse', store) <= cfg.limit
      {
        CallerHoldersMoved(callers, c, v, store);
        CountsStay(cfg, inUse, inUse', v.req.key.store, v.phase.Calling? && !was, was && !v.phase.Calling?, store);
      }
    }
  }

  lemma {:induction false} OpenKeepsSlots(cfg: Config, inUse: map<nat, nat>, callers: map<Id, Caller>, flights: map<Id, Flight>, f: Id, v: Flight)
    requires SlotsOK(cfg, inUse, callers, flights) && f !in flights && !v.phase.Fetching?
    ensures SlotsOK(cfg, inUse, callers, flights[f := v])
  {
    hide FlightHolders, CallerHolders, Used;
    forall store: nat ensures |FlightHolders(flights[f := v], store)| == |FlightHolders(flights, store)| {
      FlightHoldersMoved(flights, f, v, store);
    }
  }

  lemma {:induction false} CallerCounts(cfg: Config, s: State, c: Id, act: CallerAct)
    requires CallerReady(cfg, s, c, act)
    ensures c in DoCaller(cfg, s, c, act).callers
    ensures var was, after := s.callers[c].phase.Calling?, DoCaller(cfg, s, c, act).callers[c].phase.Calling?;
            CountsMove(cfg, s.inUse, DoCaller(cfg, s, c, act).inUse, s.callers[c].req.key.store, after && !was, was && !after)
  {
    hide GetState, GetResult, Find, Taken, Released, SlotFree, Heard, Used;
  }

  lemma {:induction false} FlightCounts(cfg: Config, s: State, f: Id, act: FlightAct)
    requires FlightReady(cfg, s, f, act)
    ensures f in DoFlight(cfg, s, f, act).flights
    ensures var was, after := s.flights[f].phase.Fetching?, DoFlight(cfg, s, f, act).flights[f].phase.Fetching?;
            CountsMove(cfg, s.inUse, DoFlight(cfg, s, f, act).inUse, s.flights[f].key.store, after && !was, was && !after)
  {
    hide GetState, GetResult, Find, StoreCache, StorePuts, GroupOf, Taken, Released, SlotFree, Heard, Used;
  }

  lemma {:induction false} SlotsKept(cfg: Config, s: State, step: Step)
    requires Enabled(cfg, s, step) && SlotsOK(cfg, s.inUse, s.callers, s.flights)
    requires IdsOK(s.nextId, s.callers, s.flights)
    ensures var s' := Do(cfg, s, step); SlotsOK(cfg, s'.inUse, s'.callers, s'.flights)
  {
    hide DoCaller, DoFlight, DoSwap, CallerReady, FlightReady, UniqueNames, GroupOf, SlotsOK, Taken, Released, SlotFree;
    match step
    case StartCall(_, _, _, _, _) =>
      CallerKeepsSlots(cfg, s.inUse, s.inUse, s.callers, s.flights, s.nextId, Do(cfg, s, step).callers[s.nextId]);
    case Join(c) =>
      var s' := DoJoin(s, c);
      CallerKeepsSlots(cfg, s.inUse, s.inUse, s.callers, s.flights, c, s'.callers[c]);
      OpenKeepsSlots(cfg, s.inUse, s'.callers, s.flights, s.nextId, Flight(s.callers[c].req.key, c, Recheck));
    case ByCaller(c, act) =>
      var s' := DoCaller(cfg, s, c, act);
      CallerFrame(cfg, s, c, act);
      CallerCounts(cfg, s, c, act);
      CallerKeepsSlots(cfg, s.inUse, s'.inUse, s.callers, s.flights, c, s'.callers[c]);
    case ByFlight(f, act) =>
      var s' := DoFlight(cfg, s, f, act);
      FlightFrame(cfg, s, f, act);
      FlightCounts(cfg, s, f, act);
      FlightKeepsSlots(cfg, s.inUse, s'.inUse, s.callers, s.flights, f, s'.flights[f].phase);
    case Swap(table, accepts) => SwapFrame(s, table, accepts);
    case _ =>
  }

  // ---- joins ----

  // Flights keep what they ask and who leads them, and never leave Delivered.
  ghost predicate Extends(flights: map<Id, Flight>, flights': map<Id, Flight>) {
    forall f :: f in flights ==>
      && f in flights' && flights'[f].key == flights[f].key && flights'[f].leader == flights[f].leader
      && (flights[f].phase.Delivered? ==> flights'[f] == flights[f])
  }

  lemma {:induction false} FlightsExtend(cfg: Config, s: State, step: Step)
    requires Enabled(cfg, s, step) && IdsOK(s.nextId, s.callers, s.flights)
    ensures Extends(s.flights, Do(cfg, s, step).flights)
  {
    hide DoCaller, DoFlight, DoSwap, CallerReady, FlightReady, UniqueNames, GroupOf;
    match step
    case ByCaller(c, act) => CallerFrame(cfg, s, c, act);
    case ByFlight(f, act) => FlightFrame(cfg, s, f, act);
    case Swap(table, accepts) => SwapFrame(s, table, accepts);
    case _ =>
  }

  lemma {:induction false} JoinsExtend(c: Id, caller: Caller, flights: map<Id, Flight>, flights': map<Id, Flight>)
    requires CallerJoins(c, caller, flights) && Extends(flights, flights')
    ensures CallerJoins(c, caller, flights')
  {
  }

  lemma {:induction false} CallerKeepsJoins(cfg: Config, s: State, c: Id, act: CallerAct)
    requires CallerReady(cfg, s, c, act) && CallerJoins(c, s.callers[c], s.flights)
    ensures var s' := DoCaller(cfg, s, c, act); c in s'.callers && CallerJoins(c, s'.callers[c], s.flights)
  {
    hide GetState, GetResult, Find, Taken, Released, SlotFree, Heard, Used;
  }

  // Joining a flight in progress asks the same, and never finds the caller's own.
  lemma {:induction false} SharedFlight(s: State, c: Id)
    requires c in s.callers && s.callers[c].phase.Joining? && JoinsOK(s.callers, s.flights)
    requires GroupsOK(s.groups, s.flights) && GroupOf(s.callers[c].req.key) in s.groups
    ensures var f := s.groups[GroupOf(s.callers[c].req.key)];
            f in s.flights && s.flights[f].key == s.callers[c].req.key && s.flights[f].leader != c
  {
    hide GroupOf;
    var f := s.groups[GroupOf(s.callers[c].req.key)];
    GroupOfInjective(s.flights[f].key, s.callers[c].req.key);
    assert CallerJoins(c, s.callers[c], s.flights);
  }

  lemma {:induction false} AppendKeepsJoins(c: Id, caller: Caller, flights: map<Id, Flight>, flights': map<Id, Flight>, f: Id)
    requires CallerJoins(c, caller, flights) && caller.phase.Joining?
    requires Extends(flights, flights') && f in flights' && flights'[f].key == caller.req.key
    ensures CallerJoins(c, caller.(joined := caller.joined + [f],
                                   phase := Waiting(f, caller.phase.attempt, flights'[f].leader == c)), flights')
  {
  }

  lemma {:induction false} JoinKeepsJoins(cfg: Config, s: State, c: Id)
    requires c in s.callers && s.callers[c].phase.Joining? && CallerJoins(c, s.callers[c], s.flights)
    requires GroupsOK(s.groups, s.flights) && IdsOK(s.nextId, s.callers, s.flights) && JoinsOK(s.callers, s.flights)
    ensures var s' := DoJoin(s, c); c in s'.callers && CallerJoins(c, s'.callers[c], s'.flights)
  {
    hide GroupOf, CallerJoins, JoinsOK, Extends, IdsOK, GroupsOK;
    var g := GroupOf(s.callers[c].req.key);
    FlightsExtend(cfg, s, Step.Join(c));
    if g in s.groups {
      SharedFlight(s, c);
    }
    var f := if g in s.groups then s.groups[g] else s.nextId;
    AppendKeepsJoins(c, s.callers[c], s.flights, DoJoin(s, c).flights, f);
  }

  lemma {:induction false} LeadersStay(callers: map<Id, Caller>, flights: map<Id, Flight>, c: Id, v: Caller)
    requires LeadersOK(callers, flights)
    requires c in callers ==> callers[c].joined <= v.joined
    ensures LeadersOK(callers[c := v], flights)
  {
    forall f | f in flights && flights[f].leader == c ensures f in v.joined {
      PrefixMember(callers[c].joined, v.joined, f);
    }
  }

  lemma {:induction false} LeaderJoins(callers: map<Id, Caller>, flights: map<Id, Flight>, f: Id, v: Flight)
    requires LeadersOK(callers, flights) && v.leader in callers && f in callers[v.leader].joined
    ensures LeadersOK(callers, flights[f := v])
  {
  }

  lemma PrefixMember<T>(a: seq<T>, b: seq<T>, x: T)
    requires a <= b && x in a
    ensures x in b
  {
    var i :| 0 <= i < |a| && a[i] == x;
    assert b[i] == x;
  }

  lemma {:induction false} LeadersKept(cfg: Config, s: State, step: Step)
    requires Enabled(cfg, s, step) && LeadersOK(s.callers, s.flights) && IdsOK(s.nextId, s.callers, s.flights)
    ensures var s' := Do(cfg, s, step); LeadersOK(s'.callers, s'.flights)
  {
    hide DoCaller, DoFlight, DoSwap, CallerReady, FlightReady, UniqueNames, GroupOf, LeadersOK;
    match step
    case StartCall(_, _, _, _, _) =>
      LeadersStay(s.callers, s.flights, s.nextId, Do(cfg, s, step).callers[s.nextId]);
    case Join(c) =>
      var s' := DoJoin(s, c);
      LeadersStay(s.callers, s.flights, c, s'.callers[c]);
      if GroupOf(s.callers[c].req.key) !in s.groups {
        assert s'.callers[c].joined[|s.callers[c].joined|] == s.nextId;
        LeaderJoins(s'.callers, s.flights, s.nextId, Flight(s.callers[c].req.key, c, Recheck));
      }
    case ByCaller(c, act) =>
      CallerFrame(cfg, s, c, act);
      LeadersStay(s.callers, s.flights, c, DoCaller(cfg, s, c, act).callers[c]);
    case ByFlight(f, act) =>
      FlightFrame(cfg, s, f, act);
      FlightKeepsLeaders(s.callers, s.flights, f, DoFlight(cfg, s, f, act).flights[f].phase);
    case Swap(table, accepts) => SwapFrame(s, table, accepts);
    case _ =>
  }

  lemma {:induction false} FlightKeepsLeaders(callers: map<Id, Caller>, flights: map<Id, Flight>, f: Id, p: FlightPhase)
    requires LeadersOK(callers, flights) && f in flights
    ensures LeadersOK(callers, flights[f := flights[f].(phase := p)])
  {
  }

  // What becomes of one caller in a step that is not a Tick or a Swap.
  lemma {:induction false} JoinsOneKept(cfg: Config, s: State, step: Step, c: Id)
    requires Enabled(cfg, s, step) && JoinsOK(s.callers, s.flights)
    requires GroupsOK(s.groups, s.flights) && IdsOK(s.nextId, s.callers, s.flights)
    requires c in Do(cfg, s, step).callers
    ensures var s' := Do(cfg, s, step); CallerJoins(c, s'.callers[c], s'.flights)
  {
    hide DoCaller, DoFlight, DoSwap, CallerReady, FlightReady, UniqueNames, GroupOf, CallerJoins, Extends, GroupsOK, LeadersOK;
    FlightsExtend(cfg, s, step);
    var s' := Do(cfg, s, step);
    if c in s.callers {
      JoinsExtend(c, s.callers[c], s.flights, s'.flights);
    }
    match step
    case StartCall(_, _, _, _, _) =>
      if c == s.nextId { StartKeepsJoins(c, s'.callers[c], s.flights); }
    case Join(d) =>
      if c == d { JoinKeepsJoins(cfg, s, c); }
    case ByCaller(d, act) =>
      CallerFrame(cfg, s, d, act);
      if c == d { CallerKeepsJoins(cfg, s, c, act); }
    case ByFlight(f, act) => FlightFrame(cfg, s, f, act);
    case Swap(table, accepts) => SwapFrame(s, table, accepts);
    case _ =>
  }

  lemma {:induction false} JoinsKept(cfg: Config, s: State, step: Step)
    requires Enabled(cfg, s, step) && JoinsOK(s.callers, s.flights)
    requires GroupsOK(s.groups, s.flights) && IdsOK(s.nextId, s.callers, s.flights)
    ensures var s' := Do(cfg, s, step); JoinsOK(s'.callers, s'.flights)
  {
    hide Do, Enabled, CallerJoins, GroupsOK, IdsOK, LeadersOK;
    LeadersKept(cfg, s, step);
    var s' := Do(cfg, s, step);
    forall c | c in s'.callers ensures CallerJoins(c, s'.callers[c], s'.flights) {
      JoinsOneKept(cfg, s, step, c);
    }
  }

  lemma {:induction false} StartKeepsJoins(c: Id, caller: Caller, flights: map<Id, Flight>)
    requires caller.phase == Started && caller.joined == []
    ensures CallerJoins(c, caller, flights)
  {
  }

  // ---- paths to a client ----

  lemma {:induction false} CallerKeepsPath(cfg: Config, s: State, c: Id, act: CallerAct)
    requires CallerReady(cfg, s, c, act) && CallerPath(cfg, s.callers[c])
    ensures var s' := DoCaller(cfg, s, c, act); c in s'.callers && CallerPath(cfg, s'.callers[c])
  {
    hide GetState, GetResult, Find, Taken, Released, SlotFree, Heard, Used;
  }

  lemma {:induction false} PathsKept(cfg: Config, s: State, step: Step)
    requires Enabled(cfg, s, step) && PathsOK(cfg, s.callers)
    ensures PathsOK(cfg, Do(cfg, s, step).callers)
  {
    hide DoCaller, DoFlight, DoSwap, CallerReady, FlightReady, UniqueNames, GroupOf;
    match step
    case ByCaller(c, act) =>
      CallerFrame(cfg, s, c, act);
      CallerKeepsPath(cfg, s, c, act);
    case ByFlight(f, act) => FlightFrame(cfg, s, f, act);
    case Swap(table, accepts) => SwapFrame(s, table, accepts);
    case _ =>
  }

  // ---- stores and identities ----

  ghost predicate KeysGrow(keyOf: map<nat, ClientKey>, keyOf': map<nat, ClientKey>) {
    forall store :: store in keyOf ==> store in keyOf' && keyOf'[store] == keyOf[store]
  }

  ghost predicate Agrees(byKey: map<ClientKey, nat>, keyOf: map<nat, ClientKey>) {
    forall k :: k in byKey && byKey[k] in keyOf ==> keyOf[byKey[k]] == k
  }

  lemma {:induction false} RecordExtends(backends: seq<Backend>, byKey: map<ClientKey, nat>, keyOf: map<nat, ClientKey>, x: nat)
    requires Injective(byKey) && Bounded(byKey, x) && Agrees(byKey, keyOf)
    requires forall store :: store in keyOf ==> store <= x
    ensures var after := Record(backends, byKey, keyOf);
            && KeysGrow(keyOf, after) && Agrees(byKey, after)
            && (forall store :: store in after ==> store <= x)
            && forall k :: k in KeysOf(backends) && k in byKey ==> byKey[k] in after
  {
    hide KeysOf;
    if backends == [] {
      ServesNothing();
    } else {
      RecordExtends(backends[..|backends| - 1], byKey, keyOf, x);
      SplitLast(backends);
    }
  }

  lemma {:induction false} SnapshotStays(live: Live, keyOf: map<nat, ClientKey>, keyOf': map<nat, ClientKey>)
    requires SnapshotOK(live, keyOf) && KeysGrow(keyOf, keyOf')
    ensures SnapshotOK(live, keyOf')
  {
    hide Serves;
  }

  lemma {:induction false} NewSnapshot(live: Live, table: seq<Backend>, snap: Snapshot, next: nat, next': nat, keyOf: map<nat, ClientKey>)
    requires SnapshotOK(live, keyOf) && (forall store :: store in keyOf ==> store <= next)
    requires Allocated(snap.byKey, live.snap.byKey, next, next') && next <= next' && Serves(snap, table)
    ensures var keyOf' := Record(table, snap.byKey, keyOf);
            && SnapshotOK(Live(table, snap), keyOf') && KeysGrow(keyOf, keyOf')
            && forall store :: store in keyOf' ==> store <= next'
  {
    hide KeysOf, Record;
    RecordExtends(table, snap.byKey, keyOf, next');
  }

  lemma {:induction false} SwapKeepsStores(s: State, table: seq<Backend>, accepts: nat -> bool)
    requires UniqueNames(table) && StoresOK(s.live, s.seen, s.nextStore, s.keyOf)
    ensures var s' := DoSwap(s, table, accepts);
            StoresOK(s'.live, s'.seen, s'.nextStore, s'.keyOf) && KeysGrow(s.keyOf, s'.keyOf)
  {
    hide Build, UniqueNames, SnapshotOK, Serves, Record;
    BuildAllocates(table, s.live.snap.byKey, s.nextStore, accepts);
    match Build(table, s.live.snap.byKey, s.nextStore, accepts)
    case Failed(_) =>
    case Built(snap, next) =>
      BuildServes(table, s.live.snap.byKey, s.nextStore, accepts);
      NewSnapshot(s.live, table, snap, s.nextStore, next, s.keyOf);
      forall l | l in s.seen ensures SnapshotOK(l, DoSwap(s, table, accepts).keyOf) {
        SnapshotStays(l, s.keyOf, DoSwap(s, table, accepts).keyOf);
      }
  }

  lemma {:induction false} StoresKept(cfg: Config, s: State, step: Step)
    requires Enabled(cfg, s, step) && StoresOK(s.live, s.seen, s.nextStore, s.keyOf)
    ensures var s' := Do(cfg, s, step);
            StoresOK(s'.live, s'.seen, s'.nextStore, s'.keyOf) && KeysGrow(s.keyOf, s'.keyOf)
  {
    hide DoCaller, DoFlight, DoSwap, CallerReady, FlightReady, UniqueNames, GroupOf, StoresOK;
    match step
    case ByCaller(c, act) => CallerFrame(cfg, s, c, act);
    case ByFlight(f, act) => FlightFrame(cfg, s, f, act);
    case Swap(table, accepts) => SwapKeepsStores(s, table, accepts);
    case _ =>
  }

  // The store of a backend was built for the backend's identity.
  lemma {:induction false} BackendStore(live: Live, keyOf: map<nat, ClientKey>, i: nat)
    requires SnapshotOK(live, keyOf) && i < |live.table|
    ensures live.table[i].name in live.snap.clients
    ensures var store := live.snap.clients[live.table[i].name]; store in keyOf && keyOf[store] == live.table[i].key
  {
    hide KeysOf, NamesOf;
  }

  lemma {:induction false} AskedGrows(callers: map<Id, Caller>, flights: map<Id, Flight>, keyOf: map<nat, ClientKey>, keyOf': map<nat, ClientKey>)
    requires AskedOK(callers, flights, keyOf) && KeysGrow(keyOf, keyOf')
    ensures AskedOK(callers, flights, keyOf')
  {
  }

  lemma {:induction false} AskedKept(cfg: Config, s: State, step: Step)
    requires Enabled(cfg, s, step) && StoresOK(s.live, s.seen, s.nextStore, s.keyOf)
    requires AskedOK(s.callers, s.flights, s.keyOf)
    ensures var s' := Do(cfg, s, step); AskedOK(s'.callers, s'.flights, s'.keyOf)
  {
    hide DoCaller, DoFlight, DoSwap, CallerReady, FlightReady, UniqueNames, GroupOf, SnapshotOK, KeysGrow;
    match step
    case StartCall(live, i, _, _, _) => BackendStore(live, s.keyOf, i);
    case ByCaller(c, act) => CallerFrame(cfg, s, c, act);
    case ByFlight(f, act) => FlightFrame(cfg, s, f, act);
    case Swap(table, accepts) =>
      SwapFrame(s, table, accepts);
      SwapKeepsStores(s, table, accepts);
      AskedGrows(s.callers, s.flights, s.keyOf, DoSwap(s, table, accepts).keyOf);
    case _ =>
  }

  // ---- answers and where they came from ----

  // A call's context, once done, stays done.
  ghost predicate StaysDone(callers: map<Id, Caller>, callers': map<Id, Caller>) {
    forall c :: c in callers ==> c in callers' && (callers[c].ctxDone ==> callers'[c].ctxDone)
  }

  ghost predicate Grows(s: State, s': State) {
    && s.now <= s'.now && s.responses <= s'.responses && s.puts <= s'.puts
    && KeysGrow(s.keyOf, s'.keyOf) && Extends(s.flights, s'.flights) && StaysDone(s.callers, s'.callers)
  }

  lemma {:induction false} CallerHears(cfg: Config, s: State, c: Id, act: CallerAct)
    requires CallerReady(cfg, s, c, act)
    ensures s.responses <= DoCaller(cfg, s, c, act).responses
  {
    hide GetState, LookupPhase, ReceivePhase, Taken, Released, SlotFree;
  }

  lemma {:induction false} FlightHears(cfg: Config, s: State, f: Id, act: FlightAct)
    requires FlightReady(cfg, s, f, act)
    ensures s.responses <= DoFlight(cfg, s, f, act).responses && s.puts <= DoFlight(cfg, s, f, act).puts
  {
    hide GetState, RecheckPhase, StoreCache, GroupOf, Taken, Released, SlotFree;
  }

  lemma {:induction false} ContextsStay(cfg: Config, s: State, step: Step)
    requires Enabled(cfg, s, step) && IdsOK(s.nextId, s.callers, s.flights)
    ensures StaysDone(s.callers, Do(cfg, s, step).callers)
  {
    hide DoCaller, DoFlight, DoSwap, CallerReady, FlightReady, UniqueNames, GroupOf;
    match step
    case ByCaller(c, act) => CallerFrame(cfg, s, c, act);
    case ByFlight(f, act) => FlightFrame(cfg, s, f, act);
    case Swap(table, accepts) => SwapFrame(s, table, accepts);
    case _ =>
  }

  // History is never rewritten.
  lemma {:induction false} HistoryGrows(cfg: Config, s: State, step: Step)
    requires Enabled(cfg, s, step) && StoresOK(s.live, s.seen, s.nextStore, s.keyOf)
    requires IdsOK(s.nextId, s.callers, s.flights)
    ensures Grows(s, Do(cfg, s, step))
  {
    hide DoCaller, DoFlight, DoSwap, CallerReady, FlightReady, UniqueNames, GroupOf, StoresOK, IdsOK, Extends, KeysGrow, StaysDone;
    FlightsExtend(cfg, s, step);
    ContextsStay(cfg, s, step);
    StoresKept(cfg, s, step);
    match step
    case ByCaller(c, act) =>
      CallerFrame(cfg, s, c, act);
      CallerHears(cfg, s, c, act);
    case ByFlight(f, act) =>
      FlightFrame(cfg, s, f, act);
      FlightHears(cfg, s, f, act);
    case Swap(table, accepts) => SwapFrame(s, table, accepts);
    case _ =>
  }

  lemma {:induction false} PutGrows(s: State, s': State, p: PutRec)
    requires PutOK(s.now, s.responses, s.keyOf, p) && Grows(s, s')
    ensures PutOK(s'.now, s'.responses, s'.keyOf, p)
  {
  }

  lemma {:induction false} FlightGrows(cfg: Config, s: State, s': State, f: Flight)
    requires FlightOK(cfg, s, f) && Grows(s, s')
    ensures FlightOK(cfg, s', f)
  {
    hide Extends;
  }

  lemma {:induction false} CallerGrows(cfg: Config, s: State, s': State, caller: Caller)
    requires CallerOK(cfg, s, caller) && Grows(s, s')
    ensures CallerOK(cfg, s', caller)
  {
  }

  // Only a store adds a put, and it puts the answer its flight fetched.
  lemma {:induction false} PutsKept(cfg: Config, s: State, step: Step)
    requires Enabled(cfg, s, step) && Inv(cfg, s)
    ensures var s' := Do(cfg, s, step); PutsOK(s'.now, s'.responses, s'.keyOf, s'.puts)
  {
    hide DoCaller, DoFlight, DoSwap, CallerReady, UniqueNames, GroupOf, Grows, PutOK, WellFormed, SlotsOK, JoinsOK, VacantOK,
      GroupsOK, PathsOK, StoresOK, AskedOK, EntriesOK, IdsOK;
    HistoryGrows(cfg, s, step);
    var s' := Do(cfg, s, step);
    forall p | p in s.puts ensures PutOK(s'.now, s'.responses, s'.keyOf, p) { PutGrows(s, s', p); }
    match step
    case ByCaller(c, act) => CallerFrame(cfg, s, c, act);
    case ByFlight(f, act) =>
      FlightFrame(cfg, s, f, act);
      if act.Store? { StorePutOK(cfg, s, f); }
    case Swap(table, accepts) => SwapFrame(s, table, accepts);
    case _ =>
  }

  lemma {:induction false} StorePutOK(cfg: Config, s: State, f: Id)
    requires FlightReady(cfg, s, f, Store) && FlightOK(cfg, s, s.flights[f])
    ensures var s' := DoFlight(cfg, s, f, Store);
            forall p :: p in s'.puts && p !in s.puts ==> PutOK(s'.now, s'.responses, s'.keyOf, p)
  {
    hide StoreCache;
  }

  lemma {:induction false} StoreKeepsEntries(cfg: Config, cache: seq<Entry>, k: CacheKey, res: Res, now: int, puts: set<PutRec>)
    requires WellFormed(cache, cfg.max) && EntriesOK(cfg.ttl, cache, puts)
    ensures EntriesOK(cfg.ttl, StoreCache(cfg, cache, k, res, now), StorePuts(puts, k, res, now))
  {
    hide StoreCache, WellFormed;
    forall e | e in StoreCache(cfg, cache, k, res, now) ensures EntryOK(cfg.ttl, StorePuts(puts, k, res, now), e) {
      StoreCacheHolds(cfg, cache, k, res, now, e);
    }
  }

  lemma {:induction false} GetKeepsEntries(ttl: int, cache: seq<Entry>, k: CacheKey, now: int, max: nat, puts: set<PutRec>)
    requires WellFormed(cache, max) && EntriesOK(ttl, cache, puts)
    ensures EntriesOK(ttl, GetState(cache, k, now), puts)
  {
    hide GetState, WellFormed, EntryOK;
    forall e | e in GetState(cache, k, now) ensures EntryOK(ttl, puts, e) {
      GetHolds(cache, k, now, max, e);
    }
  }

  lemma {:induction false} StoreFrame(cfg: Config, s: State, f: Id)
    requires FlightReady(cfg, s, f, Store)
    ensures DoFlight(cfg, s, f, Store).puts
            == StorePuts(s.puts, s.flights[f].key, s.flights[f].phase.res, s.now)
  {
    hide StoreCache, StorePuts;
  }

  lemma {:induction false} EntriesKept(cfg: Config, s: State, step: Step)
    requires Enabled(cfg, s, step) && WellFormed(s.cache, cfg.max) && EntriesOK(cfg.ttl, s.cache, s.puts)
    ensures var s' := Do(cfg, s, step); EntriesOK(cfg.ttl, s'.cache, s'.puts)
  {
    hide DoCaller, DoFlight, DoSwap, CallerReady, UniqueNames, GroupOf, WellFormed, EntriesOK, GetState, StoreCache, StorePuts;
    CacheFrame(cfg, s, step);
    match step
    case ByCaller(c, act) =>
      CallerFrame(cfg, s, c, act);
      GetKeepsEntries(cfg.ttl, s.cache, s.callers[c].req.key, s.now, cfg.max, s.puts);
    case ByFlight(f, act) =>
      FlightFrame(cfg, s, f, act);
      GetKeepsEntries(cfg.ttl, s.cache, s.flights[f].key, s.now, cfg.max, s.puts);
      if act.Store? {
        StoreFrame(cfg, s, f);
        StoreKeepsEntries(cfg, s.cache, s.flights[f].key, s.flights[f].phase.res, s.now, s.puts);
      }
    case Swap(table, accepts) => SwapFrame(s, table, accepts);
    case _ =>
  }

  // A hit reads an entry that was put less than the TTL before.
  lemma {:induction false} HitReads(ttl: int, cache: seq<Entry>, k: CacheKey, now: int, puts: set<PutRec>)
    requires EntriesOK(ttl, cache, puts) && GetResult(cache, k, now).Hit?
    ensures Find(cache, k) < |cache|
    ensures ReadOK(ttl, puts, k, GetResult(cache, k, now).vec, now, cache[Find(cache, k)].expires)
  {
    hide Find;
    var e := cache[Find(cache, k)];
    assert e in cache && EntryOK(ttl, puts, e);
  }

  lemma {:induction false} FlightMoveOK(cfg: Config, s: State, f: Id, act: FlightAct)
    requires FlightReady(cfg, s, f, act) && FlightOK(cfg, s, s.flights[f]) && EntriesOK(cfg.ttl, s.cache, s.puts)
    ensures var s' := DoFlight(cfg, s, f, act); f in s'.flights && FlightOK(cfg, s', s'.flights[f])
  {
    hide GetState, GetResult, EntriesOK, ReadOK, Find, StoreCache, StorePuts, GroupOf, Taken, Released, SlotFree, Used;
    if act.RecheckCache? && GetResult(s.cache, s.flights[f].key, s.now).Hit? {
      HitReads(cfg.ttl, s.cache, s.flights[f].key, s.now, s.puts);
    }
  }

  lemma {:induction false} CallerMoveOK(cfg: Config, s: State, c: Id, act: CallerAct)
    requires CallerReady(cfg, s, c, act) && CallerOK(cfg, s, s.callers[c]) && EntriesOK(cfg.ttl, s.cache, s.puts)
    ensures var s' := DoCaller(cfg, s, c, act); c in s'.callers && CallerOK(cfg, s', s'.callers[c])
  {
    hide GetState, GetResult, EntriesOK, ReadOK, Find, Taken, Released, SlotFree, Used;
    if act.Lookup? && GetResult(s.cache, s.callers[c].req.key, s.now).Hit? {
      HitReads(cfg.ttl, s.cache, s.callers[c].req.key, s.now, s.puts);
    }
  }

  lemma {:induction false} AnswersKept(cfg: Config, s: State, step: Step)
    requires Enabled(cfg, s, step) && Inv(cfg, s)
    ensures AnswersOK(cfg, Do(cfg, s, step))
  {
    hide DoCaller, DoFlight, DoSwap, CallerReady, FlightReady, UniqueNames, GroupOf, Grows, FlightOK, CallerOK, WellFormed,
      SlotsOK, JoinsOK, VacantOK, GroupsOK, PathsOK, StoresOK, AskedOK, EntriesOK, IdsOK, PutsOK;
    HistoryGrows(cfg, s, step);
    var s' := Do(cfg, s, step);
    forall f | f in s.flights ensures FlightOK(cfg, s', s.flights[f]) { FlightGrows(cfg, s, s', s.flights[f]); }
    forall c | c in s.callers ensures CallerOK(cfg, s', s.callers[c]) { CallerGrows(cfg, s, s', s.callers[c]); }
    match step
    case StartCall(_, _, _, _, _) => UnansweredOK(cfg, s', s'.callers[s.nextId]);
    case Join(c) =>
      UnansweredOK(cfg, s', s'.callers[c]);
      UnfetchedOK(cfg, s', Flight(s.callers[c].req.key, c, Recheck));
    case ByCaller(c, act) =>
      CallerFrame(cfg, s, c, act);
      CallerMoveOK(cfg, s, c, act);
    case ByFlight(f, act) =>
      FlightFrame(cfg, s, f, act);
      FlightMoveOK(cfg, s, f, act);
    case Swap(table, accepts) => SwapFrame(s, table, accepts);
    case _ =>
  }

  lemma {:induction false} UnansweredOK(cfg: Config, s: State, caller: Caller)
    requires !caller.phase.Returned?
    ensures CallerOK(cfg, s, caller)
  {
  }

  lemma {:induction false} UnfetchedOK(cfg: Config, s: State, f: Flight)
    requires f.phase.Recheck?
    ensures FlightOK(cfg, s, f)
  {
  }

  // ---- every run ----

  lemma {:induction false} InitHolds(cfg: Config, s: State)
    requires Init(s)
    ensures Inv(cfg, s)
  {
    hide KeysOf, NamesOf, UniqueNames;
    ServesNothing();
    forall store: nat ensures FlightHolders(s.flights, store) == {} && CallerHolders(s.callers, store) == {} {
    }
  }

  lemma {:induction false} InvKept(cfg: Config, s: State, step: Step)
    requires Inv(cfg, s) && Enabled(cfg, s, step)
    ensures Inv(cfg, Do(cfg, s, step))
  {
    hide Do, Enabled, IdsOK, GroupsOK, WellFormed, VacantOK, SlotsOK, JoinsOK, PathsOK, StoresOK, AskedOK, PutsOK, EntriesOK,
      AnswersOK;
    IdsKept(cfg, s, step);
    GroupsKept(cfg, s, step);
    CacheKept(cfg, s, step);
    VacantKept(cfg, s, step);
    SlotsKept(cfg, s, step);
    JoinsKept(cfg, s, step);
    PathsKept(cfg, s, step);
    StoresKept(cfg, s, step);
    AskedKept(cfg, s, step);
    PutsKept(cfg, s, step);
    EntriesKept(cfg, s, step);
    AnswersKept(cfg, s, step);
  }

  ghost predicate Run(cfg: Config, states: seq<State>, steps: seq<Step>) {
    && |states| == |steps| + 1 && Init(states[0])
    && forall i :: 0 <= i < |steps| ==> Enabled(cfg, states[i], steps[i]) && states[i + 1] == Do(cfg, states[i], steps[i])
  }

  lemma {:induction false} RunsAreSafe(cfg: Config, states: seq<State>, steps: seq<Step>, i: nat)
    requires Run(cfg, states, steps) && i < |states|
    ensures Inv(cfg, states[i])
  {
    hide Inv, Do, Enabled, Init;
    if i == 0 {
      InitHolds(cfg, states[0]);
    } else {
      RunsAreSafe(cfg, states, steps, i - 1);
      InvKept(cfg, states[i - 1], steps[i - 1]);
    }
  }
}
