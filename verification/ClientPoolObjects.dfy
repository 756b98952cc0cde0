/** `ClientPool` and `PooledQueries` as objects: their locked blocks update the fields in place. */
module PoolObjects {
  import opened PoolSections

  datatype Acquired = Closed | Busy | FactoryFailed | Client(client: Client)

  class ClientPool {
    const limits: Limits
    var idle: seq<IdleEntry>
    var count: int
    var closed: bool

    function State(): Pool
      reads this
    {
      Pool(idle, count, closed)
    }

    constructor (limits: Limits)
      ensures this.limits == limits && State() == Pool([], 0, false)
    {
      this.limits := limits;
      idle, count, closed := [], 0, false;
    }

    /** One pass through the locked block of `acquire`. */
    method CheckOut(now: int) returns (outcome: Checkout)
      modifies this
      ensures (State(), outcome) == CheckoutSection(old(State()), limits, now)
    {
      if closed {
        return Refused;
      }
      if idle != [] {
        var last := idle[|idle| - 1];
        idle := idle[..|idle| - 1];
        if now - last.returnedAt < limits.idleTimeout {
          return Reuse(last.client);
        }
        count := count - 1;
        return Expired(last.client);
      }
      if count < limits.capacity {
        count := count + 1;
        return Build;
      }
      return Full;
    }

    method FactoryFailure()
      modifies this
      ensures State() == FactoryFailureSection(old(State()))
    {
      count := count - 1;
    }

    method Release(client: Client, reusable: bool, now: int) returns (discard: bool)
      modifies this
      ensures discard == Discards(old(State()), reusable)
      ensures State() == ReleaseSection(old(State()), client, reusable, now)
    {
      discard := closed || !reusable;
      if discard {
        count := count - 1;
      } else {
        idle := idle + [IdleEntry(client, now)];
      }
    }

    method Close() returns (retired: seq<Client>)
      modifies this
      ensures retired == Clients(old(idle))
      ensures State() == CloseSection(old(State()))
    {
      closed := true;
      retired := Clients(idle);
      count := count - |idle|;
      idle := [];
    }

    /**
     * The whole retry loop of `acquire` when no other thread intervenes and the wait has no time
     * left: it closes exactly the expired clients above the newest fresh one, hands that one out
     * if there is one, and otherwise builds a client if a slot is free.
     */
    method Acquire(now: int, built: Client, factoryFails: bool) returns (r: Acquired, expired: seq<Client>)
      modifies this
      ensures closed == old(closed)
      ensures closed ==> r == Closed && expired == [] && State() == old(State())
      ensures !closed ==>
        var kept := |old(idle)| - |expired|;
        && 0 <= kept
        && (forall i :: 0 <= i < |expired| ==> expired[i] == old(idle)[|old(idle)| - 1 - i].client)
        && (forall i :: kept <= i < |old(idle)| ==> now - old(idle)[i].returnedAt >= limits.idleTimeout)
        && (kept > 0 ==> now - old(idle)[kept - 1].returnedAt < limits.idleTimeout
                         && r == Client(old(idle)[kept - 1].client) && idle == old(idle)[..kept - 1]
                         && count == old(count) - |expired|)
        && (kept == 0 ==> idle == [])
        && (kept == 0 && old(count) - |expired| >= limits.capacity ==> r == Busy && count == old(count) - |expired|)
        && (kept == 0 && old(count) - |expired| < limits.capacity ==>
              if factoryFails then r == FactoryFailed && count == old(count) - |expired|
              else r == Client(built) && count == old(count) - |expired| + 1)
    {
      expired := [];
      while true
        invariant closed == old(closed)
        invariant closed ==> expired == [] && State() == old(State())
        invariant |expired| <= |old(idle)| && idle == old(idle)[..|old(idle)| - |expired|]
        invariant count == old(count) - |expired|
        invariant forall i :: 0 <= i < |expired| ==> expired[i] == old(idle)[|old(idle)| - 1 - i].client
        invariant forall i :: |idle| <= i < |old(idle)| ==> now - old(idle)[i].returnedAt >= limits.idleTimeout
        decreases |idle|
      {
        var outcome := CheckOut(now);
        match outcome {
          case Refused =>
            return Closed, expired;
          case Reuse(client) =>
            return Client(client), expired;
          case Expired(client) =>
            expired := expired + [client];
          case Build =>
            if factoryFails {
              FactoryFailure();
              return FactoryFailed, expired;
            }
            return Client(built), expired;
          case Full =>
            return Busy, expired;
        }
      }
    }
  }

  class PooledQueries {
    var closed: bool
    var inflight: int
    var active: set<PoolSections.Client>

    function State(): Queries
      reads this
    {
      Queries(closed, inflight, active)
    }

    constructor ()
      ensures State() == Queries(false, 0, {})
    {
      closed, inflight, active := false, 0, {};
    }

    method Enter() returns (entered: bool)
      modifies this
      ensures entered == !old(closed)
      ensures State() == if entered then old(State()).(inflight := old(inflight) + 1) else old(State())
    {
      entered := !closed;
      if entered {
        inflight := inflight + 1;
      }
    }

    method Activate(client: PoolSections.Client)
      modifies this`active
      ensures active == old(active) + {client}
    {
      active := active + {client};
    }

    method Deactivate(client: PoolSections.Client)
      modifies this`active
      ensures active == old(active) - {client}
    {
      active := active - {client};
    }

    method Leave()
      modifies this`inflight
      ensures inflight == old(inflight) - 1
    {
      inflight := inflight - 1;
    }

    /**
     * The whole of `_run`, with no other thread about: the handle is left as it was, and the pool
     * with as many clients on loan or under construction as before, whichever way the run ends.
     */
    method RunQuery(pool: ClientPool, now: int, built: PoolSections.Client, factoryFails: bool, queryFails: bool)
      returns (r: Acquired)
      modifies this, pool
      ensures closed == old(closed) && inflight == old(inflight) && pool.closed == old(pool.closed)
      ensures pool.count - |pool.idle| == old(pool.count) - |old(pool.idle)|
      ensures old(closed) ==> r == Closed && pool.State() == old(pool.State())
      ensures r.Client? && r.client in old(active) ==> active == old(active) - {r.client}
      ensures r.Client? && r.client !in old(active) ==> active == old(active)
      ensures !r.Client? ==> active == old(active)
      ensures r.Client? && !queryFails ==> pool.idle != [] && pool.idle[|pool.idle| - 1] == IdleEntry(r.client, now)
      ensures r.Client? && queryFails ==> |pool.idle| <= |old(pool.idle)| && pool.idle <= old(pool.idle)
    {
      var entered := Enter();
      if !entered {
        return Closed;
      }
      var expired;
      r, expired := pool.Acquire(now, built, factoryFails);
      if r.Client? {
        Activate(r.client);
        Deactivate(r.client);
        var _ := pool.Release(r.client, !queryFails, now);
      }
      Leave();
    }
  }
}
