/** Invariants of the client pool over every run, and what they give. */
module PoolProofs {
  import opened Common
  import opened PoolSections
  import opened PoolSystem

  /** How often `c` occurs in `cs`. */
  function Occurs(cs: seq<Client>, c: Client): nat {
    if cs == [] then 0
    else Occurs(cs[..|cs| - 1], c) + (if cs[|cs| - 1] == c then 1 else 0)
  }

  /** The clients a phase holds exclusively: a loan, or clients waiting to be closed. */
  function Held(p: Phase): seq<Client> {
    match p
    case Retiring(_, c) => [c]
    case Holding(_, c) => [c]
    case Running(_, c) => [c]
    case Finished(_, c, _) => [c]
    case Returning(_, c, _) => [c]
    case Discarding(_, c) => [c]
    case ClosingPool(queue) => queue
    case _ => []
  }

  function Hand(s: System, t: Thread, c: Client): nat {
    if t in s.threads then Occurs(Held(s.threads[t]), c) else 0
  }

  /** Occurrences of `c` that no thread holds: in the idle list, and in the log of `client.close()` calls. */
  function Unheld(s: System, c: Client): nat {
    Occurs(Clients(s.pool.idle), c) + Occurs(s.closes, c)
  }

  /** The phases whose thread occupies one unit of `_count`. */
  predicate UsesSlot(p: Phase) {
    p.Building? || p.Failing? || OnLoan(p)
  }

  predicate OnLoan(p: Phase) {
    p.Holding? || p.Running? || p.Finished? || p.Returning?
  }

  predicate InActive(p: Phase) {
    p.Running? || p.Finished?
  }

  /** The phases counted in `_inflight` of handle `h`. */
  predicate RunsOn(p: Phase, h: HandleId) {
    !p.ClosingPool? && !p.Cancelling? && !p.Draining? && p.h == h
  }

  ghost function SlotThreads(s: System): set<Thread> {
    set t | t in s.threads && UsesSlot(s.threads[t])
  }

  ghost function RunThreads(s: System, h: HandleId): set<Thread> {
    set t | t in s.threads && RunsOn(s.threads[t], h)
  }

  /** `_count` = idle + on loan + under construction, never above capacity; none idle once closed. */
  ghost predicate CountInv(s: System) {
    && s.pool.count == |s.pool.idle| + |SlotThreads(s)|
    && s.pool.count <= s.limits.capacity
    && (s.pool.closed ==> s.pool.idle == [])
  }

  /** Every client ever built is idle, or held by one thread, or closed: in one of these, once. */
  ghost predicate PlaceInv(s: System) {
    forall c :: OnePlace(s, c)
  }

  ghost predicate OnePlace(s: System, c: Client) {
    && (forall t :: Unheld(s, c) + Hand(s, t, c) <= 1)
    && (forall t, u :: t != u ==> Hand(s, t, c) + Hand(s, u, c) <= 1)
    && (c in s.built <==> Unheld(s, c) == 1 || exists t :: Hand(s, t, c) == 1)
  }

  /** Thread `t` is between its two handle sections on `h`, with client `c`. */
  predicate ActiveAt(s: System, t: Thread, h: HandleId, c: Client) {
    t in s.threads && InActive(s.threads[t]) && s.threads[t].h == h && s.threads[t].client == c
  }

  /** `_active` is exactly the set of clients whose thread is between its two handle sections. */
  ghost predicate ActiveInv(s: System) {
    && (forall t :: t in s.threads && !s.threads[t].ClosingPool? ==> s.threads[t].h in s.handles)
    && (forall t, h, c :: ActiveAt(s, t, h, c) ==> h in s.handles && c in s.handles[h].active)
    && (forall h, c :: h in s.handles && c in s.handles[h].active ==> exists t :: ActiveAt(s, t, h, c))
  }

  ghost predicate CancelInv(s: System) {
    && (forall t :: t in s.threads && s.threads[t].Cancelling? ==>
          s.threads[t].h in s.handles && s.threads[t].todo <= s.handles[s.threads[t].h].active)
    && (forall t, u ::
          (t in s.threads && u in s.threads && s.threads[t].Cancelling? && s.threads[u].Cancelling? &&
           s.threads[t].h == s.threads[u].h) ==> t == u)
  }

  ghost predicate InflightInv(s: System) {
    && (forall h :: h in s.handles ==> s.handles[h].inflight == |RunThreads(s, h)|)
    && (forall t :: t in s.threads && s.threads[t].Draining? ==>
          s.threads[t].h in s.handles && s.handles[s.threads[t].h].closed)
    && (forall h :: h in s.drained ==> h in s.handles && s.handles[h].closed && RunThreads(s, h) == {})
  }

  ghost predicate Inv(s: System) {
    CountInv(s) && PlaceInv(s) && ActiveInv(s) && CancelInv(s) && InflightInv(s)
  }

  lemma InitialInv(limits: Limits)
    ensures Inv(Initial(limits))
  {
    var s := Initial(limits);
    assert SlotThreads(s) == {};
  }

  function SlotsOf(s: System, t: Thread): nat {
    if t in s.threads && UsesSlot(s.threads[t]) then 1 else 0
  }

  function RunsOf(s: System, t: Thread, h: HandleId): nat {
    if t in s.threads && RunsOn(s.threads[t], h) then 1 else 0
  }

  /** Only thread `t` may differ between `s` and `s'`. */
  ghost predicate OnlyThread(s: System, s': System, t: Thread) {
    forall u :: u != t ==> (u in s.threads <==> u in s'.threads) && (u in s.threads ==> s'.threads[u] == s.threads[u])
  }

  lemma ThreadCounts(s: System, s': System, t: Thread, h: HandleId)
    requires OnlyThread(s, s', t)
    ensures |SlotThreads(s')| - SlotsOf(s', t) == |SlotThreads(s)| - SlotsOf(s, t)
    ensures |RunThreads(s', h)| - RunsOf(s', t, h) == |RunThreads(s, h)| - RunsOf(s, t, h)
  {
    Without(SlotThreads(s), SlotThreads(s'), t);
    Without(RunThreads(s, h), RunThreads(s', h), t);
  }

  lemma Without(a: set<Thread>, b: set<Thread>, t: Thread)
    requires forall u :: u != t ==> (u in a <==> u in b)
    ensures |a| - (if t in a then 1 else 0) == |b| - (if t in b then 1 else 0)
  {
    assert a - {t} == b - {t};
    assert |a - {t}| == |a| - (if t in a then 1 else 0);
    assert |b - {t}| == |b| - (if t in b then 1 else 0);
  }

  /** The thread an event belongs to (any thread for the events that belong to none). */
  function Actor(e: Event): Thread {
    match e
    case Tick(_) => 0
    case NewHandle(_) => 0
    case _ => e.t
  }

  lemma StepOnlyThread(s: System, e: Event, s': System)
    requires Step(s, e) == Some(s')
    ensures OnlyThread(s, s', Actor(e))
  {
  }

  lemma StepCount(s: System, e: Event, s': System)
    requires Step(s, e) == Some(s')
    requires s.pool.closed ==> s.pool.idle == []
    ensures s'.limits == s.limits
    ensures s'.pool.closed ==> s'.pool.idle == []
    ensures s'.pool.count - |s'.pool.idle| - SlotsOf(s', Actor(e))
            == s.pool.count - |s.pool.idle| - SlotsOf(s, Actor(e))
    ensures s'.pool.count <= s.pool.count || s'.pool.count <= s.limits.capacity
  {
  }

  lemma StepRuns(s: System, e: Event, s': System, h: HandleId)
    requires Step(s, e) == Some(s') && h in s.handles
    ensures h in s'.handles
    ensures s'.handles[h].inflight - RunsOf(s', Actor(e), h) == s.handles[h].inflight - RunsOf(s, Actor(e), h)
    ensures s.handles[h].closed ==> s'.handles[h].closed && RunsOf(s', Actor(e), h) <= RunsOf(s, Actor(e), h)
  {
  }

  lemma CountKept(s: System, e: Event, s': System)
    requires CountInv(s) && Step(s, e) == Some(s')
    ensures CountInv(s')
  {
    StepOnlyThread(s, e, s');
    StepCount(s, e, s');
    ThreadCounts(s, s', Actor(e), 0);
  }

  lemma StepHandles(s: System, e: Event, s': System)
    requires Step(s, e) == Some(s')
    ensures forall h :: h in s.handles ==> h in s'.handles
    ensures forall h :: h in s'.handles && h !in s.handles ==>
                          s'.handles[h] == Queries(false, 0, {}) && s'.threads == s.threads && s'.drained == s.drained
  {
  }

  predicate Drains(s: System, t: Thread, h: HandleId) {
    t in s.threads && s.threads[t].Draining? && s.threads[t].h == h
  }

  lemma StepDrains(s: System, e: Event, s': System, h: HandleId)
    requires Step(s, e) == Some(s') && Drains(s', Actor(e), h) && !Drains(s, Actor(e), h)
    ensures h in s'.handles && s'.handles[h].closed
  {
  }

  lemma StepDrained(s: System, e: Event, s': System, h: HandleId)
    requires Step(s, e) == Some(s') && h in s'.drained
    ensures h in s.drained ||
            (h in s.handles && s.handles[h].inflight == 0 && s'.handles == s.handles && Drains(s, Actor(e), h))
  {
  }

  lemma InflightKept(s: System, e: Event, s': System)
    requires InflightInv(s) && ActiveInv(s) && Step(s, e) == Some(s')
    ensures InflightInv(s')
  {
    StepOnlyThread(s, e, s');
    StepHandles(s, e, s');
    forall h | h in s'.handles
      ensures s'.handles[h].inflight == |RunThreads(s', h)|
    {
      ThreadCounts(s, s', Actor(e), h);
      if h in s.handles {
        StepRuns(s, e, s', h);
      } else {
        assert RunThreads(s', h) == {};
      }
    }
    forall t | t in s'.threads && s'.threads[t].Draining?
      ensures s'.threads[t].h in s'.handles && s'.handles[s'.threads[t].h].closed
    {
      var h := s'.threads[t].h;
      if Drains(s, t, h) {
        StepRuns(s, e, s', h);
      } else {
        StepDrains(s, e, s', h);
      }
    }
    forall h | h in s'.drained
      ensures h in s'.handles && s'.handles[h].closed && RunThreads(s', h) == {}
    {
      StepDrained(s, e, s', h);
      StepRuns(s, e, s', h);
      ThreadCounts(s, s', Actor(e), h);
    }
  }

  /** A step changes whether `c` is in `_active` of `h` only together with its own thread's phase. */
  lemma StepActive(s: System, e: Event, s': System, h: HandleId, c: Client)
    requires Step(s, e) == Some(s') && h in s.handles
    ensures h in s'.handles
    ensures !ActiveAt(s, Actor(e), h, c) && !ActiveAt(s', Actor(e), h, c) ==>
              (c in s.handles[h].active <==> c in s'.handles[h].active)
    ensures ActiveAt(s', Actor(e), h, c) && !ActiveAt(s, Actor(e), h, c) ==> c in s'.handles[h].active
    ensures ActiveAt(s', Actor(e), h, c) && ActiveAt(s, Actor(e), h, c) ==>
              (c in s.handles[h].active <==> c in s'.handles[h].active)
    ensures ActiveAt(s, Actor(e), h, c) && !ActiveAt(s', Actor(e), h, c) ==> c !in s'.handles[h].active
  {
  }

  /** At most one thread is between its handle sections with a given client. */
  lemma ActiveOnce(s: System, t: Thread, u: Thread, h: HandleId, k: HandleId, c: Client)
    requires PlaceInv(s) && ActiveAt(s, t, h, c) && ActiveAt(s, u, k, c)
    ensures t == u && h == k
  {
    assert OnePlace(s, c) && Hand(s, t, c) == 1 && Hand(s, u, c) == 1;
  }

  lemma ActiveKept(s: System, e: Event, s': System)
    requires ActiveInv(s) && PlaceInv(s) && Step(s, e) == Some(s')
    ensures ActiveInv(s')
  {
    StepOnlyThread(s, e, s');
    StepHandles(s, e, s');
    StepPhaseHandle(s, e, s');
    forall t, h, c | ActiveAt(s', t, h, c)
      ensures h in s'.handles && c in s'.handles[h].active
    {
      StepActive(s, e, s', h, c);
      if t != Actor(e) {
        assert ActiveAt(s, t, h, c);
        if ActiveAt(s, Actor(e), h, c) {
          ActiveOnce(s, t, Actor(e), h, h, c);
        }
      } else if ActiveAt(s, t, h, c) {
      }
    }
    forall h, c | h in s'.handles && c in s'.handles[h].active
      ensures exists t :: ActiveAt(s', t, h, c)
    {
      if ActiveAt(s', Actor(e), h, c) {
      } else {
        StepActive(s, e, s', h, c);
        var t :| ActiveAt(s, t, h, c);
        assert ActiveAt(s', t, h, c);
      }
    }
  }

  lemma StepPhaseHandle(s: System, e: Event, s': System)
    requires Step(s, e) == Some(s') && ActiveInv(s)
    ensures var t := Actor(e); t in s'.threads && !s'.threads[t].ClosingPool? ==> s'.threads[t].h in s'.handles
  {
  }

  lemma OccursAppend(cs: seq<Client>, x: Client, c: Client)
    ensures Occurs(cs + [x], c) == Occurs(cs, c) + (if x == c then 1 else 0)
  {
    assert (cs + [x])[..|cs|] == cs;
  }

  lemma {:induction false} OccursHead(cs: seq<Client>, c: Client)
    requires cs != []
    ensures Occurs(cs, c) == Occurs(cs[1..], c) + (if cs[0] == c then 1 else 0)
  {
    var n := |cs| - 1;
    if n > 0 {
      OccursHead(cs[..n], c);
      assert cs[..n][1..] == cs[1..][..n - 1];
    }
  }

  lemma IdleAppend(idle: seq<IdleEntry>, entry: IdleEntry, c: Client)
    ensures Occurs(Clients(idle + [entry]), c) == Occurs(Clients(idle), c) + (if entry.client == c then 1 else 0)
  {
    assert Clients(idle + [entry]) == Clients(idle) + [entry.client];
    OccursAppend(Clients(idle), entry.client, c);
  }

  /** How often `c` occurs outside the hands of every thread but `t`. */
  function Places(s: System, t: Thread, c: Client): nat {
    Unheld(s, c) + Hand(s, t, c)
  }

  lemma AcquireConserves(s: System, t: Thread, giveUp: bool, s': System, c: Client)
    requires StepAcquire(s, t, giveUp) == Some(s')
    ensures Places(s', t, c) == Places(s, t, c)
  {
    if s.pool.idle != [] && !s.pool.closed {
      var n := |s.pool.idle| - 1;
      assert s.pool.idle == s.pool.idle[..n] + [s.pool.idle[n]];
      IdleAppend(s.pool.idle[..n], s.pool.idle[n], c);
    }
  }

  lemma ReleaseConserves(s: System, t: Thread, s': System, c: Client)
    requires StepRelease(s, t) == Some(s')
    ensures Places(s', t, c) == Places(s, t, c)
  {
    IdleAppend(s.pool.idle, IdleEntry(s.threads[t].client, s.clock), c);
  }

  lemma CloseConserves(s: System, t: Thread, s': System, c: Client)
    requires StepCloseIdle(s, t) == Some(s') || StepCloseExpired(s, t) == Some(s')
             || StepCloseDiscarded(s, t) == Some(s')
    ensures Places(s', t, c) == Places(s, t, c)
  {
    var held := Held(s.threads[t]);
    assert s'.closes == s.closes + [held[0]] && s'.pool == s.pool && t in s'.threads;
    assert Held(s'.threads[t]) == held[1..];
    CloseFirst(s.closes, held, c);
  }

  lemma CloseFirst(closes: seq<Client>, held: seq<Client>, c: Client)
    requires held != []
    ensures Occurs(closes + [held[0]], c) + Occurs(held[1..], c) == Occurs(closes, c) + Occurs(held, c)
  {
    OccursAppend(closes, held[0], c);
    OccursHead(held, c);
  }

  /** A client moves between the idle list, the acting thread and the closed ones; only the factory adds one. */
  lemma StepConserves(s: System, e: Event, s': System, c: Client)
    requires Step(s, e) == Some(s')
    ensures Places(s', Actor(e), c) == Places(s, Actor(e), c) + (if e.Built? && c == e.client then 1 else 0)
    ensures s'.built == if e.Built? then s.built + {e.client} else s.built
    ensures e.Built? ==> e.client !in s.built
  {
    match e
    case Acquire(t, giveUp) => AcquireConserves(s, t, giveUp, s', c);
    case Release(t) => ReleaseConserves(s, t, s', c);
    case CloseIdle(_) => CloseConserves(s, e.t, s', c);
    case CloseExpired(_) => CloseConserves(s, e.t, s', c);
    case CloseDiscarded(_) => CloseConserves(s, e.t, s', c);
    case StartPoolClose(t) =>
      assert Held(s'.threads[t]) == Clients(s.pool.idle) && Clients(s'.pool.idle) == [];
    case _ => OtherConserves(s, e, s', c);
  }

  lemma OtherConserves(s: System, e: Event, s': System, c: Client)
    requires Step(s, e) == Some(s')
    requires !e.Acquire? && !e.Release? && !e.CloseIdle? && !e.CloseExpired? && !e.CloseDiscarded? && !e.StartPoolClose?
    ensures Places(s', Actor(e), c) == Places(s, Actor(e), c) + (if e.Built? && c == e.client then 1 else 0)
  {
    assert s'.closes == s.closes && s'.pool.idle == s.pool.idle;
    HeldAlike(s, e, s');
    if e.Built? {
      OccursAppend([], e.client, c);
    }
  }

  /** The events that leave every client where it is. */
  lemma HeldAlike(s: System, e: Event, s': System)
    requires Step(s, e) == Some(s')
    requires !e.Acquire? && !e.Release? && !e.CloseIdle? && !e.CloseExpired? && !e.CloseDiscarded? && !e.StartPoolClose?
    ensures var t := Actor(e);
            var before := if t in s.threads then Held(s.threads[t]) else [];
            var after := if t in s'.threads then Held(s'.threads[t]) else [];
            if e.Built? then before == [] && after == [e.client] else after == before
  {
  }

  lemma OnePlaceKept(s: System, s': System, a: Thread, c: Client, added: nat)
    requires OnePlace(s, c) && added <= 1
    requires forall t :: t != a ==> Hand(s', t, c) == Hand(s, t, c)
    requires Places(s', a, c) == Places(s, a, c) + added
    requires added == 1 ==> c !in s.built
    requires c in s'.built <==> c in s.built || added == 1
    ensures OnePlace(s', c)
  {
    assert Unheld(s, c) + Hand(s, a, c) <= 1;
    forall t | t != a
      ensures Places(s', a, c) + Hand(s', t, c) <= 1
    {
      assert Unheld(s, c) + Hand(s, t, c) <= 1 && Hand(s, a, c) + Hand(s, t, c) <= 1;
      assert Hand(s, t, c) == 1 ==> c in s.built;
    }
    if c in s'.built && Places(s', a, c) == 0 {
      var t :| Hand(s, t, c) == 1;
      assert Hand(s', t, c) == 1;
    }
  }

  lemma PlaceKept(s: System, e: Event, s': System)
    requires PlaceInv(s) && Step(s, e) == Some(s')
    ensures PlaceInv(s')
  {
    forall c
      ensures OnePlace(s', c)
    {
      StepOnlyThread(s, e, s');
      StepConserves(s, e, s', c);
      OnePlaceKept(s, s', Actor(e), c, if e.Built? && c == e.client then 1 else 0);
    }
  }

  lemma StepFreezes(s: System, e: Event, s': System, t: Thread)
    requires CancelInv(s) && Step(s, e) == Some(s') && t in s.threads && s.threads[t].Cancelling?
    ensures s.threads[t].h in s'.handles && s'.handles[s.threads[t].h] == s.handles[s.threads[t].h]
    ensures s.threads[t].h in s'.drained ==> s.threads[t].h in s.drained
  {
    assert Locked(s, s.threads[t].h);
  }

  lemma StepCancelling(s: System, e: Event, s': System)
    requires CancelInv(s) && Step(s, e) == Some(s')
    requires Actor(e) in s'.threads && s'.threads[Actor(e)].Cancelling?
    ensures var p := s'.threads[Actor(e)]; p.h in s'.handles && p.todo <= s'.handles[p.h].active
    ensures Locked(s, s'.threads[Actor(e)].h) ==>
              Actor(e) in s.threads && s.threads[Actor(e)].Cancelling?
              && s.threads[Actor(e)].h == s'.threads[Actor(e)].h
  {
  }

  lemma CancelKept(s: System, e: Event, s': System)
    requires CancelInv(s) && Step(s, e) == Some(s')
    ensures CancelInv(s')
  {
    StepOnlyThread(s, e, s');
    forall t | t in s'.threads && s'.threads[t].Cancelling?
      ensures s'.threads[t].h in s'.handles && s'.threads[t].todo <= s'.handles[s'.threads[t].h].active
    {
      if t == Actor(e) {
        StepCancelling(s, e, s');
      } else {
        StepFreezes(s, e, s', t);
      }
    }
    forall t, u |
      t in s'.threads && u in s'.threads && s'.threads[t].Cancelling? && s'.threads[u].Cancelling? &&
      s'.threads[t].h == s'.threads[u].h
      ensures t == u
    {
      if t == Actor(e) || u == Actor(e) {
        StepCancelling(s, e, s');
      }
      if t != u {
        assert Locked(s, s'.threads[t].h);
      }
    }
  }

  /** The invariant survives every event, hence every run. */
  lemma StepKeepsInv(s: System, e: Event, s': System)
    requires Inv(s) && Step(s, e) == Some(s')
    ensures Inv(s')
  {
    CountKept(s, e, s');
    PlaceKept(s, e, s');
    ActiveKept(s, e, s');
    CancelKept(s, e, s');
    InflightKept(s, e, s');
  }

  lemma StepClock(s: System, e: Event, s': System)
    requires Step(s, e) == Some(s')
    ensures s'.clock >= s.clock
  {
  }

  lemma {:induction false} RunKeepsInv(s: System, events: seq<Event>, s': System)
    requires Inv(s) && Run(s, events) == Some(s')
    ensures Inv(s') && s'.limits == s.limits && s'.clock >= s.clock
    decreases |events|
  {
    if events != [] {
      var next := Step(s, events[0]).value;
      StepKeepsInv(s, events[0], next);
      StepCount(s, events[0], next);
      StepClock(s, events[0], next);
      RunKeepsInv(next, events[1..], s');
    }
  }

  ghost predicate Reachable(s: System) {
    exists limits, events :: Run(Initial(limits), events) == Some(s)
  }

  lemma ReachableInv(s: System)
    requires Reachable(s)
    ensures Inv(s)
  {
    var limits, events :| Run(Initial(limits), events) == Some(s);
    InitialInv(limits);
    RunKeepsInv(Initial(limits), events, s);
  }

  /** Conservation: `_count` adds up and stays within capacity; a built client is in exactly one place. */
  lemma PoolConservation(s: System)
    requires Reachable(s)
    ensures s.pool.count == |s.pool.idle| + |SlotThreads(s)|
    ensures 0 <= s.pool.count <= s.limits.capacity
    ensures forall c :: Occurs(s.closes, c) <= 1
    ensures forall t, c :: Hand(s, t, c) + Occurs(Clients(s.pool.idle), c) + Occurs(s.closes, c) <= 1
    ensures forall t, u, c :: t != u ==> Hand(s, t, c) + Hand(s, u, c) <= 1
    ensures forall c :: c in s.built ==>
      Occurs(Clients(s.pool.idle), c) == 1 || Occurs(s.closes, c) == 1 || exists t :: Hand(s, t, c) == 1
  {
    ReachableInv(s);
    forall c
      ensures Occurs(s.closes, c) <= 1
      ensures c in s.built ==>
        Occurs(Clients(s.pool.idle), c) == 1 || Occurs(s.closes, c) == 1 || exists t :: Hand(s, t, c) == 1
    {
      assert OnePlace(s, c);
      assert Unheld(s, c) + Hand(s, 0, c) <= 1;
    }
    forall t, c
      ensures Hand(s, t, c) + Occurs(Clients(s.pool.idle), c) + Occurs(s.closes, c) <= 1
    {
      assert OnePlace(s, c) && Unheld(s, c) + Hand(s, t, c) <= 1;
    }
    forall t, u, c | t != u
      ensures Hand(s, t, c) + Hand(s, u, c) <= 1
    {
      assert OnePlace(s, c);
    }
  }

  /** Once the pool is closed and no thread is left with a slot or a client, nothing leaks. */
  lemma ClosedPoolIsEmpty(s: System)
    requires Reachable(s) && s.pool.closed
    requires forall t :: t in s.threads ==> !UsesSlot(s.threads[t]) && Held(s.threads[t]) == []
    ensures s.pool.count == 0
    ensures forall c :: c in s.built <==> Occurs(s.closes, c) == 1
  {
    ReachableInv(s);
    assert SlotThreads(s) == {};
    forall c
      ensures c in s.built <==> Occurs(s.closes, c) == 1
    {
      assert OnePlace(s, c);
      assert Clients(s.pool.idle) == [];
      assert forall t :: Hand(s, t, c) == 0;
      assert Unheld(s, c) + Hand(s, 0, c) <= 1;
    }
  }

  /** The `_active` sets of different handles are disjoint from each other and from the idle list. */
  lemma ActiveSetsDisjoint(s: System, h: HandleId, k: HandleId)
    requires Reachable(s) && h in s.handles && k in s.handles && h != k
    ensures s.handles[h].active !! s.handles[k].active
    ensures forall c :: c in s.handles[h].active ==> Occurs(Clients(s.pool.idle), c) == 0 && Occurs(s.closes, c) == 0
  {
    ReachableInv(s);
    forall c | c in s.handles[h].active
      ensures c !in s.handles[k].active && Occurs(Clients(s.pool.idle), c) == 0 && Occurs(s.closes, c) == 0
    {
      var t :| ActiveAt(s, t, h, c);
      OccursAppend([], c, c);
      assert Hand(s, t, c) == 1 && OnePlace(s, c);
      if c in s.handles[k].active {
        var u :| ActiveAt(s, u, k, c);
        ActiveOnce(s, t, u, h, k, c);
      }
    }
  }

  /**
   * At every point of a `cancel` call, each client it has still to reach is on loan to a run of that
   * same handle, and to nobody else: not idle, not closed, not held by another thread.
   */
  lemma CancelReachesOwnLoans(s: System, t: Thread, c: Client)
    requires Reachable(s) && t in s.threads && s.threads[t].Cancelling? && c in s.threads[t].todo
    ensures exists u :: ActiveAt(s, u, s.threads[t].h, c) && forall v :: v != u ==> Hand(s, v, c) == 0
    ensures Occurs(Clients(s.pool.idle), c) == 0 && Occurs(s.closes, c) == 0
  {
    ReachableInv(s);
    var u :| ActiveAt(s, u, s.threads[t].h, c);
    OccursAppend([], c, c);
    assert OnePlace(s, c) && Hand(s, u, c) == 1;
    forall v | v != u
      ensures Hand(s, v, c) == 0
    {
      assert Hand(s, u, c) + Hand(s, v, c) <= 1;
    }
  }

  // ----- A whole cancellation --------------------------------------------------------------------

  /** How often thread `t` has called `cancel()` of `c`. */
  function Calls(log: seq<Call>, t: Thread, c: Client): nat {
    if log == [] then 0
    else Calls(log[..|log| - 1], t, c) + (if log[|log| - 1] == Call(t, c) then 1 else 0)
  }

  /** The calls made, and the one still to be made. */
  function CallsDue(s: System, t: Thread, c: Client): nat
    requires t in s.threads && s.threads[t].Cancelling?
  {
    Calls(s.cancels, t, c) + (if c in s.threads[t].todo then 1 else 0)
  }

  lemma CallsAppend(log: seq<Call>, call: Call, t: Thread, c: Client)
    ensures Calls(log + [call], t, c) == Calls(log, t, c) + (if call == Call(t, c) then 1 else 0)
  {
    assert (log + [call])[..|log|] == log;
  }

  lemma CancelStep(s: System, e: Event, s': System, t: Thread, c: Client)
    requires CancelInv(s) && Step(s, e) == Some(s') && e != EndCancel(t)
    requires t in s.threads && s.threads[t].Cancelling?
    ensures t in s'.threads && s'.threads[t].Cancelling? && s'.threads[t].h == s.threads[t].h
    ensures CallsDue(s', t, c) == CallsDue(s, t, c)
  {
    if e.CancelOne? {
      CallsAppend(s.cancels, Call(e.t, e.client), t, c);
    }
  }

  lemma {:induction false} CancelRuns(s: System, events: seq<Event>, s': System, t: Thread, c: Client)
    requires Inv(s) && Run(s, events) == Some(s') && EndCancel(t) !in events
    requires t in s.threads && s.threads[t].Cancelling?
    ensures var h := s.threads[t].h;
            && t in s'.threads && s'.threads[t].Cancelling? && s'.threads[t].h == h
            && h in s.handles && h in s'.handles && s'.handles[h] == s.handles[h]
            && (h in s'.drained ==> h in s.drained)
            && CallsDue(s', t, c) == CallsDue(s, t, c)
    decreases |events|
  {
    if events != [] {
      var next := Step(s, events[0]).value;
      CancelStep(s, events[0], next, t, c);
      StepFreezes(s, events[0], next, t);
      StepKeepsInv(s, events[0], next);
      CancelRuns(next, events[1..], s', t, c);
    }
  }

  /**
   * From its start to its end, whatever else happens meanwhile, a `cancel` of `h` calls `cancel()`
   * once on each client that was active on `h` when it started, and on no other; and nothing of `h`
   * changes: no run of `h` starts, takes up or gives back a client, or ends, and no `close` returns.
   */
  lemma CancelReachesAll(s: System, t: Thread, h: HandleId, s1: System, events: seq<Event>, s2: System, c: Client)
    requires Reachable(s) && Step(s, StartCancel(t, h)) == Some(s1)
    requires Run(s1, events) == Some(s2) && EndCancel(t) !in events && Step(s2, EndCancel(t)).Some?
    ensures h in s.handles && h in s2.handles && s2.handles[h] == s.handles[h]
    ensures h in s2.drained ==> h in s.drained
    ensures Calls(s2.cancels, t, c) == Calls(s.cancels, t, c) + (if c in s.handles[h].active then 1 else 0)
  {
    ReachableInv(s);
    StepKeepsInv(s, StartCancel(t, h), s1);
    CancelRuns(s1, events, s2, t, c);
  }

  // ----- Clients that are done with --------------------------------------------------------------

  /** The thread is about to close `c`: an expired, failed or retired client. */
  predicate AboutToClose(p: Phase, c: Client) {
    match p
    case Retiring(_, client) => client == c
    case Finished(_, client, reusable) => client == c && !reusable
    case Returning(_, client, reusable) => client == c && !reusable
    case Discarding(_, client) => client == c
    case ClosingPool(queue) => c in queue
    case _ => false
  }

  /** `c` is closed, or some thread is about to close it. */
  ghost predicate Done(s: System, c: Client) {
    Occurs(s.closes, c) > 0 || exists t :: t in s.threads && AboutToClose(s.threads[t], c)
  }

  lemma {:induction false} OccursIn(cs: seq<Client>, c: Client)
    ensures Occurs(cs, c) > 0 <==> c in cs
  {
    if cs != [] {
      var n := |cs| - 1;
      OccursIn(cs[..n], c);
      assert cs == cs[..n] + [cs[n]];
    }
  }

  lemma ClosesGrow(s: System, e: Event, s': System, c: Client)
    requires Step(s, e) == Some(s')
    ensures Occurs(s'.closes, c) >= Occurs(s.closes, c)
  {
    if s'.closes != s.closes {
      OccursAppend(s.closes, s'.closes[|s.closes|], c);
    }
  }

  /** A step of a thread about to close a pool's clients closes the first of them, or none. */
  lemma ClosingPoolOn(s: System, e: Event, s': System)
    requires Step(s, e) == Some(s') && Actor(e) in s.threads && s.threads[Actor(e)].ClosingPool?
    requires s.threads[Actor(e)].queue != []
    ensures Actor(e) in s'.threads && s'.threads[Actor(e)].ClosingPool?
    ensures var queue := s.threads[Actor(e)].queue;
            || (s'.threads[Actor(e)].queue == queue && s'.closes == s.closes)
            || (s'.threads[Actor(e)].queue == queue[1..] && s'.closes == s.closes + [queue[0]])
  {
  }

  /** A step of a thread about to close one client closes it, or goes on to. */
  lemma ClosingOneOn(s: System, e: Event, s': System, c: Client)
    requires Step(s, e) == Some(s') && Actor(e) in s.threads && !s.threads[Actor(e)].ClosingPool?
    requires AboutToClose(s.threads[Actor(e)], c)
    ensures (Actor(e) in s'.threads && AboutToClose(s'.threads[Actor(e)], c)) || s'.closes == s.closes + [c]
  {
  }

  lemma ClosingOn(s: System, e: Event, s': System, c: Client)
    requires Step(s, e) == Some(s') && Actor(e) in s.threads && AboutToClose(s.threads[Actor(e)], c)
    ensures (Actor(e) in s'.threads && AboutToClose(s'.threads[Actor(e)], c)) || Occurs(s'.closes, c) > 0
  {
    var p := s.threads[Actor(e)];
    if p.ClosingPool? {
      ClosingPoolOn(s, e, s');
      OccursAppend(s.closes, p.queue[0], c);
    } else {
      ClosingOneOn(s, e, s', c);
      OccursAppend(s.closes, c, c);
    }
  }

  lemma DoneKept(s: System, e: Event, s': System, c: Client)
    requires Done(s, c) && Step(s, e) == Some(s')
    ensures Done(s', c)
  {
    StepOnlyThread(s, e, s');
    ClosesGrow(s, e, s', c);
    if Occurs(s.closes, c) == 0 {
      var t :| t in s.threads && AboutToClose(s.threads[t], c);
      if t == Actor(e) {
        ClosingOn(s, e, s', c);
      } else {
        assert t in s'.threads && AboutToClose(s'.threads[t], c);
      }
    }
  }

  lemma {:induction false} DoneForGood(s: System, events: seq<Event>, s': System, c: Client)
    requires Done(s, c) && Run(s, events) == Some(s')
    ensures Done(s', c)
    decreases |events|
  {
    if events != [] {
      var next := Step(s, events[0]).value;
      DoneKept(s, events[0], next, c);
      DoneForGood(next, events[1..], s', c);
    }
  }

  /** A client that is done with is not idle, and no thread holds it to run a query. */
  lemma DoneIsOut(s: System, c: Client)
    requires Inv(s) && Done(s, c)
    ensures Occurs(Clients(s.pool.idle), c) == 0
    ensures forall t :: t in s.threads && (s.threads[t].Holding? || s.threads[t].Running?) ==> s.threads[t].client != c
  {
    assert OnePlace(s, c);
    if Occurs(s.closes, c) == 0 {
      var t :| t in s.threads && AboutToClose(s.threads[t], c);
      OccursIn(Held(s.threads[t]), c);
      assert Hand(s, t, c) == 1;
    } else {
      assert Unheld(s, c) + Hand(s, 0, c) <= 1;
    }
    forall t | t in s.threads && (s.threads[t].Holding? || s.threads[t].Running?)
      ensures s.threads[t].client != c
    {
      OccursAppend([], s.threads[t].client, c);
      assert Unheld(s, c) + Hand(s, t, c) <= 1;
    }
  }

  /** A client whose query failed is never idle and never lent again. */
  lemma FailedIsNeverReused(s: System, t: Thread, s1: System, events: seq<Event>, s2: System)
    requires Reachable(s) && Step(s, Return(t, false)) == Some(s1) && Run(s1, events) == Some(s2)
    ensures var c := s.threads[t].client;
            && Occurs(Clients(s2.pool.idle), c) == 0
            && forall u :: u in s2.threads && (s2.threads[u].Holding? || s2.threads[u].Running?) ==>
                             s2.threads[u].client != c
  {
    ReachableInv(s);
    StepKeepsInv(s, Return(t, false), s1);
    RunKeepsInv(s1, events, s2);
    assert t in s1.threads && AboutToClose(s1.threads[t], s.threads[t].client);
    DoneForGood(s1, events, s2, s.threads[t].client);
    DoneIsOut(s2, s.threads[t].client);
  }

  lemma {:induction false} ClosedStays(s: System, events: seq<Event>, s': System)
    requires s.pool.closed && Run(s, events) == Some(s')
    ensures s'.pool.closed
    decreases |events|
  {
    if events != [] {
      ClosedStays(Step(s, events[0]).value, events[1..], s');
    }
  }

  /** Once `ClientPool.close` has begun, nothing is idle and nobody gets or builds a client. */
  lemma ClosedPoolLendsNothing(
    s: System, t: Thread, s1: System, events: seq<Event>, s2: System, u: Thread, giveUp: bool, s3: System)
    requires Reachable(s) && Step(s, StartPoolClose(t)) == Some(s1) && Run(s1, events) == Some(s2)
    requires Step(s2, Acquire(u, giveUp)) == Some(s3)
    ensures s2.pool.idle == [] && s3.pool == s2.pool && s3.threads == s2.threads[u := Leaving(s2.threads[u].h)]
  {
    ReachableInv(s);
    StepKeepsInv(s, StartPoolClose(t), s1);
    RunKeepsInv(s1, events, s2);
    ClosedStays(s1, events, s2);
  }

  /** After a handle's `close` has returned, it has no run in flight, ever again, and starts none. */
  lemma ClosedHandleStaysQuiet(s: System, events: seq<Event>, s': System, h: HandleId, t: Thread)
    requires Reachable(s) && h in s.drained && Run(s, events) == Some(s')
    ensures h in s'.drained && h in s'.handles
    ensures s'.handles[h].inflight == 0 && s'.handles[h].active == {} && RunThreads(s', h) == {}
    ensures Step(s', StartRun(t, h)) in {None, Some(s')}
  {
    ReachableInv(s);
    RunKeepsInv(s, events, s');
    DrainedMonotone(s, events, s', h);
    NoRunsNoActive(s', h);
  }

  lemma NoRunsNoActive(s: System, h: HandleId)
    requires ActiveInv(s) && h in s.handles && RunThreads(s, h) == {}
    ensures s.handles[h].active == {}
  {
    assert forall u, c :: ActiveAt(s, u, h, c) ==> u in RunThreads(s, h);
    assert forall c :: c !in s.handles[h].active;
  }

  lemma {:induction false} DrainedMonotone(s: System, events: seq<Event>, s': System, h: HandleId)
    requires h in s.drained && Run(s, events) == Some(s')
    ensures h in s'.drained
    decreases |events|
  {
    if events != [] {
      DrainedMonotone(Step(s, events[0]).value, events[1..], s', h);
    }
  }

  // ----- A run with nobody in its way ------------------------------------------------------------

  lemma Then(s: System, e: Event, s1: System, events: seq<Event>, s': System)
    requires Step(s, e) == Some(s1) && Run(s1, events) == Some(s')
    ensures Run(s, [e] + events) == Some(s')
  {
    assert ([e] + events)[1..] == events;
  }

  /** What a run does once it has its client, up to the release. */
  function Borrowed(t: Thread, ok: bool): seq<Event> {
    [Activate(t)] + ([Return(t, ok)] + ([Deactivate(t)] + ([Release(t)] + After(t, ok))))
  }

  function After(t: Thread, ok: bool): seq<Event> {
    if ok then [Leave(t)] else [CloseDiscarded(t)] + [Leave(t)]
  }

  /** A successful query's client is the next to be lent; a failed one's is closed and its slot is free. */
  function Returned(s: System, c: Client, ok: bool): System {
    if ok then s.(pool := s.pool.(idle := s.pool.idle + [IdleEntry(c, s.clock)]))
    else s.(pool := s.pool.(count := s.pool.count - 1), closes := s.closes + [c])
  }

  /** The handle `h` has one run more in flight. */
  function Entered(s: System, h: HandleId): System
    requires h in s.handles
  {
    s.(handles := s.handles[h := s.handles[h].(inflight := s.handles[h].inflight + 1)])
  }

  lemma LeavesAlone(s: System, t: Thread, h: HandleId, c: Client, ok: bool)
    requires t !in s.threads && h in s.handles && !Locked(s, h)
    ensures Run(At(Entered(s, h), t, if ok then Leaving(h) else Discarding(h, c)), After(t, ok)) ==
            Some(if ok then s else s.(closes := s.closes + [c]))
  {
    var leaving := At(Entered(s, h), t, Leaving(h));
    var closed := if ok then s else s.(closes := s.closes + [c]);
    var last := if ok then leaving else leaving.(closes := closed.closes);
    assert last.handles[h := s.handles[h]] == s.handles && last.threads - {t} == s.threads;
    assert !Locked(last, h);
    assert Step(last, Leave(t)) == Some(closed) && [Leave(t)][1..] == [];
    assert Run(last, [Leave(t)]) == Some(closed);
    if !ok {
      var discarding := At(Entered(s, h), t, Discarding(h, c));
      assert discarding.threads[t := Leaving(h)] == leaving.threads;
      Then(discarding, CloseDiscarded(t), last, [Leave(t)], closed);
    }
  }

  lemma AtTwice(s: System, t: Thread, p: Phase, q: Phase)
    ensures At(At(s, t, p), t, q) == At(s, t, q)
  {
  }

  /** `c` is in `_active` of `h`. */
  function Activated(s: System, h: HandleId, c: Client): System
    requires h in s.handles
  {
    s.(handles := s.handles[h := s.handles[h].(active := s.handles[h].active + {c})])
  }

  lemma BorrowedAlone(s: System, t: Thread, h: HandleId, c: Client, ok: bool)
    requires t !in s.threads && h in s.handles && !Locked(s, h) && !s.pool.closed && c !in s.handles[h].active
    ensures Run(At(Entered(s, h), t, Holding(h, c)), Borrowed(t, ok)) == Some(Returned(s, c, ok))
  {
    var inside, active := Entered(s, h), Activated(Entered(s, h), h, c);
    var done := Returned(s, c, ok);
    ReleasedAlone(s, t, h, c, ok);
    DeactivatedStep(inside, t, h, c, ok);
    Then(At(active, t, Finished(h, c, ok)), Deactivate(t), At(inside, t, Returning(h, c, ok)),
         [Release(t)] + After(t, ok), done);
    AtTwice(active, t, Running(h, c), Finished(h, c, ok));
    Then(At(active, t, Running(h, c)), Return(t, ok), At(active, t, Finished(h, c, ok)),
         [Deactivate(t)] + ([Release(t)] + After(t, ok)), done);
    ActivatedStep(inside, t, h, c);
    Then(At(inside, t, Holding(h, c)), Activate(t), At(active, t, Running(h, c)),
         [Return(t, ok)] + ([Deactivate(t)] + ([Release(t)] + After(t, ok))), done);
  }

  lemma ActivatedStep(s: System, t: Thread, h: HandleId, c: Client)
    requires t !in s.threads && h in s.handles && !Locked(s, h)
    ensures Step(At(s, t, Holding(h, c)), Activate(t)) == Some(At(Activated(s, h, c), t, Running(h, c)))
  {
    var holding := At(s, t, Holding(h, c));
    assert !Locked(holding, h);
    AtTwice(Activated(s, h, c), t, Holding(h, c), Running(h, c));
  }

  lemma DeactivatedStep(s: System, t: Thread, h: HandleId, c: Client, ok: bool)
    requires t !in s.threads && h in s.handles && !Locked(s, h) && c !in s.handles[h].active
    ensures Step(At(Activated(s, h, c), t, Finished(h, c, ok)), Deactivate(t)) == Some(At(s, t, Returning(h, c, ok)))
  {
    var finished := At(Activated(s, h, c), t, Finished(h, c, ok));
    assert !Locked(finished, h);
    assert s.handles[h].active + {c} - {c} == s.handles[h].active;
    assert finished.handles[h := s.handles[h]] == s.handles;
    AtTwice(s, t, Finished(h, c, ok), Returning(h, c, ok));
  }

  lemma ReleasedAlone(s: System, t: Thread, h: HandleId, c: Client, ok: bool)
    requires t !in s.threads && h in s.handles && !Locked(s, h) && !s.pool.closed
    ensures Run(At(Entered(s, h), t, Returning(h, c, ok)), [Release(t)] + After(t, ok)) == Some(Returned(s, c, ok))
  {
    var released := s.(pool := if ok then s.pool.(idle := s.pool.idle + [IdleEntry(c, s.clock)])
                               else s.pool.(count := s.pool.count - 1));
    var next := if ok then Leaving(h) else Discarding(h, c);
    LeavesAlone(released, t, h, c, ok);
    AtTwice(Entered(released, h), t, Returning(h, c, ok), next);
    Then(At(Entered(s, h), t, Returning(h, c, ok)), Release(t), At(Entered(released, h), t, next), After(t, ok),
         Returned(s, c, ok));
  }

  lemma StartAlone(s: System, t: Thread, h: HandleId, events: seq<Event>, s': System)
    requires t !in s.threads && h in s.handles && !Locked(s, h) && !s.handles[h].closed
    requires Run(At(Entered(s, h), t, Seeking(h)), events) == Some(s')
    ensures Run(s, [StartRun(t, h)] + events) == Some(s')
  {
    Then(s, StartRun(t, h), At(Entered(s, h), t, Seeking(h)), events, s');
  }

  /** With a fresh client on top of the idle list, a run borrows it and gives it back, or discards it. */
  lemma ReuseAlone(s: System, t: Thread, h: HandleId, rest: seq<IdleEntry>, top: IdleEntry, ok: bool)
    requires t !in s.threads && h in s.handles && !s.handles[h].closed && !s.pool.closed
    requires forall u :: u in s.threads && s.threads[u].Cancelling? ==> s.threads[u].h != h
    requires s.pool.idle == rest + [top] && s.clock - top.returnedAt < s.limits.idleTimeout
    requires top.client !in s.handles[h].active
    ensures Run(s, [StartRun(t, h)] + ([Acquire(t, false)] + Borrowed(t, ok))) ==
            Some(Returned(s.(pool := s.pool.(idle := rest)), top.client, ok))
  {
    var lent := s.(pool := s.pool.(idle := rest));
    assert (rest + [top])[..|rest|] == rest;
    BorrowedAlone(lent, t, h, top.client, ok);
    AtTwice(Entered(lent, h), t, Seeking(h), Holding(h, top.client));
    Then(At(Entered(s, h), t, Seeking(h)), Acquire(t, false), At(Entered(lent, h), t, Holding(h, top.client)),
         Borrowed(t, ok), Returned(lent, top.client, ok));
    StartAlone(s, t, h, [Acquire(t, false)] + Borrowed(t, ok), Returned(lent, top.client, ok));
  }

  /** With no idle client and a free slot, a run builds one. */
  lemma BuildAlone(s: System, t: Thread, h: HandleId, c: Client, ok: bool)
    requires t !in s.threads && h in s.handles && !s.handles[h].closed && !s.pool.closed
    requires forall u :: u in s.threads && s.threads[u].Cancelling? ==> s.threads[u].h != h
    requires s.pool.idle == [] && s.pool.count < s.limits.capacity && c !in s.built && c !in s.handles[h].active
    ensures Run(s, [StartRun(t, h)] + ([Acquire(t, false)] + ([Built(t, c)] + Borrowed(t, ok)))) ==
            Some(Returned(s.(pool := s.pool.(count := s.pool.count + 1), built := s.built + {c}), c, ok))
  {
    var taken := s.(pool := s.pool.(count := s.pool.count + 1));
    var made := taken.(built := s.built + {c});
    BorrowedAlone(made, t, h, c, ok);
    AtTwice(Entered(made, h), t, Building(h), Holding(h, c));
    Then(At(Entered(taken, h), t, Building(h)), Built(t, c), At(Entered(made, h), t, Holding(h, c)),
         Borrowed(t, ok), Returned(made, c, ok));
    AtTwice(Entered(taken, h), t, Seeking(h), Building(h));
    Then(At(Entered(s, h), t, Seeking(h)), Acquire(t, false), At(Entered(taken, h), t, Building(h)),
         [Built(t, c)] + Borrowed(t, ok), Returned(made, c, ok));
    StartAlone(s, t, h, [Acquire(t, false)] + ([Built(t, c)] + Borrowed(t, ok)), Returned(made, c, ok));
  }

  /** With no idle client and no free slot, a run waits, or gives up and leaves nothing behind. */
  lemma FullWaits(s: System, t: Thread, h: HandleId)
    requires t in s.threads && s.threads[t] == Seeking(h)
    requires !s.pool.closed && s.pool.idle == [] && s.pool.count >= s.limits.capacity
    ensures Step(s, Acquire(t, false)) == Some(s)
    ensures Step(s, Acquire(t, true)) == Some(s.(threads := s.threads[t := Leaving(h)]))
  {
  }

  lemma TimePasses(s: System, dt: nat)
    ensures Step(s, Tick(dt)) == Some(s.(clock := s.clock + dt))
  {
  }

  /** A new handle is open, and has no run and no client. */
  lemma NewHandleAlone(s: System, h: HandleId)
    requires h !in s.handles
    ensures Step(s, NewHandle(h)) == Some(s.(handles := s.handles[h := Queries(false, 0, {})]))
  {
  }

  /** A slot is reserved. */
  function Taken(s: System): System {
    s.(pool := s.pool.(count := s.pool.count + 1))
  }

  lemma FailedBuildAlone(s: System, t: Thread, h: HandleId)
    requires t !in s.threads && h in s.handles && !Locked(s, h)
    ensures Run(At(Entered(Taken(s), h), t, Building(h)), [BuildFails(t)] + ([GiveBack(t)] + [Leave(t)])) == Some(s)
  {
    var inside, taken := Entered(s, h), Entered(Taken(s), h);
    LeavesAlone(s, t, h, 0, true);
    AtTwice(inside, t, Failing(h), Leaving(h));
    Then(At(taken, t, Failing(h)), GiveBack(t), At(inside, t, Leaving(h)), [Leave(t)], s);
    AtTwice(taken, t, Building(h), Failing(h));
    Then(At(taken, t, Building(h)), BuildFails(t), At(taken, t, Failing(h)), [GiveBack(t)] + [Leave(t)], s);
  }

  /** A factory that fails leaves everything as it was, the slot included. */
  lemma BuildFailsAlone(s: System, t: Thread, h: HandleId)
    requires t !in s.threads && h in s.handles && !s.handles[h].closed && !s.pool.closed
    requires forall u :: u in s.threads && s.threads[u].Cancelling? ==> s.threads[u].h != h
    requires s.pool.idle == [] && s.pool.count < s.limits.capacity
    ensures Run(s, [StartRun(t, h)] + ([Acquire(t, false)] + ([BuildFails(t)] + ([GiveBack(t)] + [Leave(t)])))) ==
            Some(s)
  {
    var inside, taken := Entered(s, h), Entered(Taken(s), h);
    assert !Locked(s, h);
    FailedBuildAlone(s, t, h);
    AtTwice(taken, t, Seeking(h), Building(h));
    Then(At(inside, t, Seeking(h)), Acquire(t, false), At(taken, t, Building(h)),
         [BuildFails(t)] + ([GiveBack(t)] + [Leave(t)]), s);
    StartAlone(s, t, h, [Acquire(t, false)] + ([BuildFails(t)] + ([GiveBack(t)] + [Leave(t)])), s);
  }

  function Cancels(t: Thread, clients: seq<Client>): seq<Event> {
    if clients == [] then [EndCancel(t)] else [CancelOne(t, clients[0])] + Cancels(t, clients[1..])
  }

  function CallsTo(t: Thread, clients: seq<Client>): (calls: seq<Call>)
    ensures |calls| == |clients|
  {
    seq(|clients|, i requires 0 <= i < |clients| => Call(t, clients[i]))
  }

  function ClientSet(clients: seq<Client>): set<Client> {
    set c | c in clients
  }

  lemma CancelOneAlone(s: System, t: Thread, h: HandleId, todo: set<Client>, c: Client)
    requires c in todo
    ensures Step(At(s, t, Cancelling(h, todo)), CancelOne(t, c)) ==
            Some(At(s.(cancels := s.cancels + [Call(t, c)]), t, Cancelling(h, todo - {c})))
  {
    AtTwice(s.(cancels := s.cancels + [Call(t, c)]), t, Cancelling(h, todo), Cancelling(h, todo - {c}));
  }

  lemma EndCancelAlone(s: System, t: Thread, h: HandleId)
    requires t !in s.threads
    ensures Run(At(s, t, Cancelling(h, {})), [EndCancel(t)]) == Some(s)
  {
    var here := At(s, t, Cancelling(h, {}));
    assert here.threads - {t} == s.threads;
    assert [EndCancel(t)][1..] == [] && Step(here, EndCancel(t)) == Some(s);
  }

  lemma {:induction false} CancellingAlone(s: System, t: Thread, h: HandleId, clients: seq<Client>)
    requires t !in s.threads && forall i, j :: 0 <= i < j < |clients| ==> clients[i] != clients[j]
    ensures Run(At(s, t, Cancelling(h, ClientSet(clients))), Cancels(t, clients)) ==
            Some(s.(cancels := s.cancels + CallsTo(t, clients)))
    decreases |clients|
  {
    if clients == [] {
      assert ClientSet(clients) == {} && s.cancels + [] == s.cancels;
      EndCancelAlone(s, t, h);
    } else {
      var c, rest := clients[0], clients[1..];
      var later := s.(cancels := s.cancels + [Call(t, c)]);
      assert ClientSet(clients) - {c} == ClientSet(rest);
      CancelOneAlone(s, t, h, ClientSet(clients), c);
      CancellingAlone(later, t, h, rest);
      assert s.cancels + [Call(t, c)] + CallsTo(t, rest) == s.cancels + CallsTo(t, clients);
      Then(At(s, t, Cancelling(h, ClientSet(clients))), CancelOne(t, c), At(later, t, Cancelling(h, ClientSet(rest))),
           Cancels(t, rest), s.(cancels := s.cancels + CallsTo(t, clients)));
    }
  }

  /** A `cancel` can go through its handle's active clients in any order, and end. */
  lemma CancelAlone(s: System, t: Thread, h: HandleId, clients: seq<Client>)
    requires t !in s.threads && h in s.handles
    requires forall u :: u in s.threads && s.threads[u].Cancelling? ==> s.threads[u].h != h
    requires s.handles[h].active == ClientSet(clients)
    requires forall i, j :: 0 <= i < j < |clients| ==> clients[i] != clients[j]
    ensures Run(s, [StartCancel(t, h)] + Cancels(t, clients)) == Some(s.(cancels := s.cancels + CallsTo(t, clients)))
  {
    CancellingAlone(s, t, h, clients);
    assert !Locked(s, h);
    Then(s, StartCancel(t, h), At(s, t, Cancelling(h, ClientSet(clients))), Cancels(t, clients),
         s.(cancels := s.cancels + CallsTo(t, clients)));
  }

  /** The `close` of a handle without runs returns, and has closed it. */
  lemma CloseAlone(s: System, t: Thread, h: HandleId)
    requires t !in s.threads && h in s.handles && s.handles[h].inflight == 0
    requires forall u :: u in s.threads && s.threads[u].Cancelling? ==> s.threads[u].h != h
    ensures Run(s, [StartClose(t, h)] + [EndClose(t)]) ==
            Some(s.(handles := s.handles[h := s.handles[h].(closed := true)], drained := s.drained + {h}))
  {
    var closed := s.(handles := s.handles[h := s.handles[h].(closed := true)]);
    var draining := At(closed, t, Draining(h));
    assert draining.threads - {t} == s.threads && !Locked(draining, h);
    assert [EndClose(t)][1..] == [] && Step(draining, EndClose(t)) == Some(closed.(drained := s.drained + {h}));
    assert Run(draining, [EndClose(t)]) == Some(closed.(drained := s.drained + {h}));
    Then(s, StartClose(t, h), draining, [EndClose(t)], closed.(drained := s.drained + {h}));
  }

  function Closings(t: Thread, n: nat): seq<Event> {
    if n == 0 then [EndPoolClose(t)] else [CloseIdle(t)] + Closings(t, n - 1)
  }

  lemma {:induction false} ClosingAlone(s: System, t: Thread, queue: seq<Client>)
    requires t !in s.threads
    ensures Run(At(s, t, ClosingPool(queue)), Closings(t, |queue|)) == Some(s.(closes := s.closes + queue))
    decreases |queue|
  {
    var here := At(s, t, ClosingPool(queue));
    if queue == [] {
      assert here.threads - {t} == s.threads && s.closes + [] == s.closes;
      assert [EndPoolClose(t)][1..] == [] && Step(here, EndPoolClose(t)) == Some(s);
    } else {
      var later := s.(closes := s.closes + [queue[0]]);
      AtTwice(later, t, ClosingPool(queue), ClosingPool(queue[1..]));
      ClosingAlone(later, t, queue[1..]);
      assert s.closes + [queue[0]] + queue[1..] == s.closes + queue;
      Then(here, CloseIdle(t), At(later, t, ClosingPool(queue[1..])), Closings(t, |queue| - 1),
           s.(closes := s.closes + queue));
    }
  }

  /** `ClientPool.close` closes every idle client, gives their slots back and leaves the others on loan. */
  lemma PoolCloseAlone(s: System, t: Thread)
    requires t !in s.threads
    ensures Run(s, [StartPoolClose(t)] + Closings(t, |s.pool.idle|)) ==
            Some(s.(pool := Pool([], s.pool.count - |s.pool.idle|, true), closes := s.closes + Clients(s.pool.idle)))
  {
    var closed := s.(pool := Pool([], s.pool.count - |s.pool.idle|, true));
    ClosingAlone(closed, t, Clients(s.pool.idle));
    Then(s, StartPoolClose(t), At(closed, t, ClosingPool(Clients(s.pool.idle))), Closings(t, |s.pool.idle|),
         closed.(closes := s.closes + Clients(s.pool.idle)));
  }
}
