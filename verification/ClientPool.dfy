// The native client pool (precis_mcp/analytical/resources.py) as a transition system.
// One step per critical section of the pool's or a handle's condition lock; calls made
// outside the locks (factory, query, client.close, client.cancel) are steps of their own.

/** The effect of each `with self._condition` block of `ClientPool` and `PooledQueries`. */
module PoolSections {
  type Client = nat

  datatype IdleEntry = IdleEntry(client: Client, returnedAt: int)
  datatype Limits = Limits(capacity: nat, idleTimeout: int)
  datatype Pool = Pool(idle: seq<IdleEntry>, count: int, closed: bool)

  /** How one pass through the locked block of `acquire` ends. */
  datatype Checkout =
    | Refused               // the pool is closed
    | Reuse(client: Client)
    | Expired(client: Client) // popped, still to be closed by the caller, who then retries
    | Build                 // a slot is reserved; the caller builds a client
    | Full                  // at capacity: wait, or give up after the deadline

  function CheckoutSection(p: Pool, lim: Limits, now: int): (Pool, Checkout) {
    if p.closed then (p, Refused)
    else if p.idle != [] then
      var last := p.idle[|p.idle| - 1];
      var rest := p.(idle := p.idle[..|p.idle| - 1]);
      if now - last.returnedAt < lim.idleTimeout then (rest, Reuse(last.client))
      else (rest.(count := p.count - 1), Expired(last.client))
    else if p.count < lim.capacity then (p.(count := p.count + 1), Build)
    else (p, Full)
  }

  function FactoryFailureSection(p: Pool): Pool {
    p.(count := p.count - 1)
  }

  function Discards(p: Pool, reusable: bool): bool {
    p.closed || !reusable
  }

  function ReleaseSection(p: Pool, client: Client, reusable: bool, now: int): Pool {
    if Discards(p, reusable) then p.(count := p.count - 1)
    else p.(idle := p.idle + [IdleEntry(client, now)])
  }

  function CloseSection(p: Pool): Pool {
    Pool([], p.count - |p.idle|, true)
  }

  function Clients(idle: seq<IdleEntry>): (cs: seq<Client>)
    ensures |cs| == |idle|
    ensures forall i :: 0 <= i < |idle| ==> cs[i] == idle[i].client
  {
    seq(|idle|, i requires 0 <= i < |idle| => idle[i].client)
  }

  /** A `PooledQueries` handle. */
  datatype Queries = Queries(closed: bool, inflight: int, active: set<Client>)
}

module PoolSystem {
  import opened Common
  import opened PoolSections

  type Thread = nat
  type HandleId = nat

  /** Where a thread stands between two critical sections. */
  datatype Phase =
    | Seeking(h: HandleId)                               // inside `acquire`, before its locked block
    | Retiring(h: HandleId, client: Client)              // holds an expired client it must close
    | Building(h: HandleId)                              // slot reserved, factory call in progress
    | Failing(h: HandleId)                               // factory raised, slot not yet given back
    | Holding(h: HandleId, client: Client)               // `acquire` returned, not yet in `_active`
    | Running(h: HandleId, client: Client)               // in `_active`, executing SQL
    | Finished(h: HandleId, client: Client, reusable: bool)
    | Returning(h: HandleId, client: Client, reusable: bool) // out of `_active`, before `release`
    | Discarding(h: HandleId, client: Client)            // released for good, still to be closed
    | Leaving(h: HandleId)                               // only `_inflight -= 1` is left
    | Cancelling(h: HandleId, todo: set<Client>)         // inside `cancel`, holding the handle's lock
    | Draining(h: HandleId)                              // inside `PooledQueries.close`, waiting
    | ClosingPool(queue: seq<Client>)                     // inside `ClientPool.close`, after its block

  /** One call of `client.cancel()`. */
  datatype Call = Call(caller: Thread, client: Client)

  datatype System = System(
    limits: Limits,
    pool: Pool,
    handles: map<HandleId, Queries>,
    threads: map<Thread, Phase>,
    clock: int,
    // History: every client the factory returned, every `client.close()` and `client.cancel()`
    // call, and the handles whose `close` has returned.
    built: set<Client>,
    closes: seq<Client>,
    cancels: seq<Call>,
    drained: set<HandleId>)

  datatype Event =
    | Tick(dt: nat)
    | NewHandle(h: HandleId)
    | StartRun(t: Thread, h: HandleId)
    | Acquire(t: Thread, giveUp: bool)
    | CloseExpired(t: Thread)
    | Built(t: Thread, client: Client)
    | BuildFails(t: Thread)
    | GiveBack(t: Thread)
    | Activate(t: Thread)
    | Return(t: Thread, ok: bool)
    | Deactivate(t: Thread)
    | Release(t: Thread)
    | CloseDiscarded(t: Thread)
    | Leave(t: Thread)
    | StartCancel(t: Thread, h: HandleId)
    | CancelOne(t: Thread, client: Client)
    | EndCancel(t: Thread)
    | StartClose(t: Thread, h: HandleId)
    | EndClose(t: Thread)
    | StartPoolClose(t: Thread)
    | CloseIdle(t: Thread)
    | EndPoolClose(t: Thread)

  predicate Locked(s: System, h: HandleId) {
    exists t :: t in s.threads && s.threads[t].Cancelling? && s.threads[t].h == h
  }

  function At(s: System, t: Thread, p: Phase): System {
    s.(threads := s.threads[t := p])
  }

  function Gone(s: System, t: Thread): System {
    s.(threads := s.threads - {t})
  }

  /** One step of one thread; None when the event cannot happen in `s`. */
  function Step(s: System, e: Event): Option<System> {
    match e
    case Tick(dt) => Some(s.(clock := s.clock + dt))
    case NewHandle(h) =>
      if h in s.handles then None else Some(s.(handles := s.handles[h := Queries(false, 0, {})]))
    case StartRun(t, h) => StepStartRun(s, t, h)
    case Acquire(t, giveUp) => StepAcquire(s, t, giveUp)
    case CloseExpired(t) => StepCloseExpired(s, t)
    case Built(t, client) =>
      if t in s.threads && s.threads[t].Building? && client !in s.built then
        Some(At(s, t, Holding(s.threads[t].h, client)).(built := s.built + {client}))
      else None
    case BuildFails(t) =>
      if t in s.threads && s.threads[t].Building? then Some(At(s, t, Failing(s.threads[t].h))) else None
    case GiveBack(t) =>
      if t in s.threads && s.threads[t].Failing? then
        Some(At(s, t, Leaving(s.threads[t].h)).(pool := FactoryFailureSection(s.pool)))
      else None
    case Activate(t) => StepActivate(s, t)
    case Return(t, ok) =>
      if t in s.threads && s.threads[t].Running? then
        Some(At(s, t, Finished(s.threads[t].h, s.threads[t].client, ok)))
      else None
    case Deactivate(t) => StepDeactivate(s, t)
    case Release(t) => StepRelease(s, t)
    case CloseDiscarded(t) => StepCloseDiscarded(s, t)
    case Leave(t) => StepLeave(s, t)
    case StartCancel(t, h) =>
      if t !in s.threads && h in s.handles && !Locked(s, h) then
        Some(At(s, t, Cancelling(h, s.handles[h].active)))
      else None
    case CancelOne(t, client) =>
      if t in s.threads && s.threads[t].Cancelling? && client in s.threads[t].todo then
        Some(At(s, t, Cancelling(s.threads[t].h, s.threads[t].todo - {client}))
          .(cancels := s.cancels + [Call(t, client)]))
      else None
    case EndCancel(t) =>
      if t in s.threads && s.threads[t].Cancelling? && s.threads[t].todo == {} then Some(Gone(s, t)) else None
    case StartClose(t, h) =>
      if t !in s.threads && h in s.handles && !Locked(s, h) then
        Some(At(s, t, Draining(h)).(handles := s.handles[h := s.handles[h].(closed := true)]))
      else None
    case EndClose(t) =>
      if t in s.threads && s.threads[t].Draining? && s.threads[t].h in s.handles
         && !Locked(s, s.threads[t].h) && s.handles[s.threads[t].h].inflight == 0 then
        Some(Gone(s, t).(drained := s.drained + {s.threads[t].h}))
      else None
    case StartPoolClose(t) =>
      if t !in s.threads then
        Some(At(s, t, ClosingPool(Clients(s.pool.idle))).(pool := CloseSection(s.pool)))
      else None
    case CloseIdle(t) => StepCloseIdle(s, t)
    case EndPoolClose(t) =>
      if t in s.threads && s.threads[t].ClosingPool? && s.threads[t].queue == [] then Some(Gone(s, t)) else None
  }

  /** `_run` enters: refused on a closed handle, otherwise counted in `_inflight`. */
  function StepStartRun(s: System, t: Thread, h: HandleId): Option<System> {
    if t in s.threads || h !in s.handles || Locked(s, h) then None
    else if s.handles[h].closed then Some(s)
    else
      var q := s.handles[h];
      Some(At(s, t, Seeking(h)).(handles := s.handles[h := q.(inflight := q.inflight + 1)]))
  }

  function StepAcquire(s: System, t: Thread, giveUp: bool): Option<System> {
    if t !in s.threads || !s.threads[t].Seeking? then None
    else
      var h := s.threads[t].h;
      var (pool, outcome) := CheckoutSection(s.pool, s.limits, s.clock);
      var s1 := s.(pool := pool);
      match outcome
      case Refused => Some(At(s1, t, Leaving(h)))
      case Reuse(c) => Some(At(s1, t, Holding(h, c)))
      case Expired(c) => Some(At(s1, t, Retiring(h, c)))
      case Build => Some(At(s1, t, Building(h)))
      case Full => if giveUp then Some(At(s1, t, Leaving(h))) else Some(s)
  }

  function StepActivate(s: System, t: Thread): Option<System> {
    if t in s.threads && s.threads[t].Holding? && s.threads[t].h in s.handles && !Locked(s, s.threads[t].h) then
      var p := s.threads[t];
      var q := s.handles[p.h];
      Some(At(s, t, Running(p.h, p.client)).(handles := s.handles[p.h := q.(active := q.active + {p.client})]))
    else None
  }

  function StepDeactivate(s: System, t: Thread): Option<System> {
    if t in s.threads && s.threads[t].Finished? && s.threads[t].h in s.handles && !Locked(s, s.threads[t].h) then
      var p := s.threads[t];
      var q := s.handles[p.h];
      Some(At(s, t, Returning(p.h, p.client, p.reusable))
        .(handles := s.handles[p.h := q.(active := q.active - {p.client})]))
    else None
  }

  function StepRelease(s: System, t: Thread): Option<System> {
    if t in s.threads && s.threads[t].Returning? then
      var p := s.threads[t];
      var s1 := s.(pool := ReleaseSection(s.pool, p.client, p.reusable, s.clock));
      Some(At(s1, t, if Discards(s.pool, p.reusable) then Discarding(p.h, p.client) else Leaving(p.h)))
    else None
  }

  function StepCloseExpired(s: System, t: Thread): Option<System> {
    if t in s.threads && s.threads[t].Retiring? then
      Some(At(s, t, Seeking(s.threads[t].h)).(closes := s.closes + [s.threads[t].client]))
    else None
  }

  function StepCloseDiscarded(s: System, t: Thread): Option<System> {
    if t in s.threads && s.threads[t].Discarding? then
      Some(At(s, t, Leaving(s.threads[t].h)).(closes := s.closes + [s.threads[t].client]))
    else None
  }

  function StepCloseIdle(s: System, t: Thread): Option<System> {
    if t in s.threads && s.threads[t].ClosingPool? && s.threads[t].queue != [] then
      var queue := s.threads[t].queue;
      Some(At(s, t, ClosingPool(queue[1..])).(closes := s.closes + [queue[0]]))
    else None
  }

  function StepLeave(s: System, t: Thread): Option<System> {
    if t in s.threads && s.threads[t].Leaving? && s.threads[t].h in s.handles && !Locked(s, s.threads[t].h) then
      var h := s.threads[t].h;
      var q := s.handles[h];
      Some(Gone(s, t).(handles := s.handles[h := q.(inflight := q.inflight - 1)]))
    else None
  }

  function Initial(limits: Limits): System {
    System(limits, Pool([], 0, false), map[], map[], 0, {}, [], [], {})
  }

  /** The state after a whole run; None when some event was not possible where it stands. */
  function Run(s: System, events: seq<Event>): Option<System>
    decreases |events|
  {
    if events == [] then Some(s)
    else
      var next := Step(s, events[0]);
      if next.None? then None else Run(next.value, events[1..])
  }
}
