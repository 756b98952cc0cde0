// The bounded snapshot cache (precis_mcp/datasets.py): one user's Redis keys and any number of
// workers, each between two Redis commands. EXEC is atomic and runs only if no watched key was
// written since its WATCH; a watched key that merely expired does not stop it.

module SnapshotCache {
  import opened Common
  import opened Totals

  type Ref = nat
  type WorkerId = nat
  type Time = real

  /** The PRECIS_DATASET_* limits; `_limit` rejects a value that is not positive. */
  datatype Limits = Limits(idle: nat, maxAge: nat, maxBytes: nat, userBytes: nat, userCount: nat) {
    ghost predicate Valid() {
      idle > 0 && maxAge > 0 && maxBytes > 0 && userBytes > 0 && userCount > 0
    }

    function Ttl(): nat {
      if idle <= maxAge then idle else maxAge
    }
  }

  /** A snapshot key: its payload's size and `expires_at`, and when its TTL runs out. */
  datatype Snapshot = Snapshot(size: nat, expiresAt: Time, end: Time)

  /** Write counters stand for what WATCH compares. */
  datatype Redis = Redis(
    snapshots: map<Ref, Snapshot>,
    index: map<Ref, Time>, indexEnd: Time, indexWrites: nat,
    sizes: map<Ref, nat>, sizesEnd: Time, sizesWrites: nat,
    keyWrites: map<Ref, nat>)

  predicate Live(r: Redis, k: Ref, t: Time) {
    k in r.snapshots && t < r.snapshots[k].end
  }

  function IndexAt(r: Redis, t: Time): map<Ref, Time> {
    if t < r.indexEnd then r.index else map[]
  }

  function SizesAt(r: Redis, t: Time): map<Ref, nat> {
    if t < r.sizesEnd then r.sizes else map[]
  }

  function Writes(r: Redis, k: Ref): nat {
    if k in r.keyWrites then r.keyWrites[k] else 0
  }

  function Touch(writes: map<Ref, nat>, ks: set<Ref>): map<Ref, nat> {
    map k | k in writes.Keys + ks :: (if k in writes then writes[k] else 0) + (if k in ks then 1 else 0)
  }

  function SizeOf(): nat -> nat {
    (n: nat) => n
  }

  /** `zrangebyscore(index, -inf, now)`. */
  function DueBy(index: map<Ref, Time>, now: Time): set<Ref> {
    set k | k in index && index[k] <= now
  }

  datatype CachePhase =
    | CStart
    | CWatched(iw: nat, sw: nat)
    | CDue(iw: nat, sw: nat, due: set<Ref>)
    | CReady(iw: nat, sw: nat, due: set<Ref>, active: map<Ref, nat>)
  datatype FetchPhase =
    | FStart
    | FWatched(kw: nat, iw: nat, sw: nat)
    | FReady(kw: nat, iw: nat, sw: nat, now: Time, ttl: nat)

  /** `now` of a cache request is read once, before its up to five attempts. */
  datatype Worker =
    | Caching(ref: Ref, size: nat, now: Time, tries: nat, cAt: CachePhase)
    | Fetching(ref: Ref, tries: nat, fAt: FetchPhase)

  /** A key's last SETEX or EXPIRE: the clock reading it is based on, when it took effect, and its TTL. */
  datatype Renewal = Renewal(read: Time, at: Time, window: nat)

  /** `refs` are the references drawn so far; `renewals` is history, which no command reads. */
  datatype System = System(
    limits: Limits, redis: Redis, clock: Time, refs: set<Ref>, workers: map<WorkerId, Worker>,
    renewals: map<Ref, Renewal>)

  datatype Event =
    | Tick(dt: Time)
    | BeginCache(w: WorkerId, ref: Ref, size: nat)
    | BeginFetch(w: WorkerId, ref: Ref)
    | Command(w: WorkerId)      // the worker's next Redis command, EXEC included
    | Interrupt(w: WorkerId)    // EXEC refused: WatchError, the next attempt
    | Abandon(w: WorkerId)      // an error, a permission mismatch, a crash

  /** The MULTI block of `cache_read_result`, at Redis time `t`. */
  function ExecCache(lim: Limits, r: Redis, t: Time, ref: Ref, size: nat, now: Time, due: set<Ref>): Redis {
    Redis((r.snapshots - due)[ref := Snapshot(size, now + lim.maxAge as real, t + lim.Ttl() as real)],
          (IndexAt(r, t) - due)[ref := now + lim.Ttl() as real], t + lim.maxAge as real, r.indexWrites + 1,
          (SizesAt(r, t) - due)[ref := size], t + lim.maxAge as real, r.sizesWrites + 1,
          Touch(r.keyWrites, due + {ref}))
  }

  /**
   * The MULTI block of `fetch_cached_read_result`; EXPIRE has no effect on a key that is gone, and
   * a watcher of that key is then not disturbed.
   */
  function ExecFetch(lim: Limits, r: Redis, t: Time, ref: Ref, now: Time, ttl: nat): Redis {
    var live := Live(r, ref, t);
    var sizes := SizesAt(r, t);
    Redis(if live then r.snapshots[ref := r.snapshots[ref].(end := t + ttl as real)] else r.snapshots,
          IndexAt(r, t)[ref := now + ttl as real], t + lim.maxAge as real, r.indexWrites + 1,
          sizes,
          if sizes == map[] then r.sizesEnd else t + lim.maxAge as real,
          if sizes == map[] then r.sizesWrites else r.sizesWrites + 1,
          if live then Touch(r.keyWrites, {ref}) else r.keyWrites)
  }

  function Put(s: System, w: WorkerId, worker: Worker): System {
    s.(workers := s.workers[w := worker])
  }

  function Drop(s: System, w: WorkerId): System {
    s.(workers := s.workers - {w})
  }

  ghost function CacheCommand(s: System, w: WorkerId, worker: Worker): Option<System>
    requires worker.Caching?
  {
    var r := s.redis;
    match worker.cAt
    case CStart =>
      if worker.tries == 0 then Some(Drop(s, w))
      else Some(Put(s, w, worker.(tries := worker.tries - 1, cAt := CWatched(r.indexWrites, r.sizesWrites))))
    case CWatched(iw, sw) =>
      Some(Put(s, w, worker.(cAt := CDue(iw, sw, DueBy(IndexAt(r, s.clock), worker.now)))))
    case CDue(iw, sw, due) =>
      var active := SizesAt(r, s.clock) - due;
      if Total(active, SizeOf()) + worker.size > s.limits.userBytes || |active| >= s.limits.userCount
      then Some(Drop(s, w))
      else Some(Put(s, w, worker.(cAt := CReady(iw, sw, due, active))))
    case CReady(iw, sw, due, _) =>
      if r.indexWrites == iw && r.sizesWrites == sw then
        Some(Drop(s, w).(redis := ExecCache(s.limits, r, s.clock, worker.ref, worker.size, worker.now, due),
                         renewals := s.renewals[worker.ref := Renewal(worker.now, s.clock, s.limits.Ttl())]))
      else None
  }

  function FetchCommand(s: System, w: WorkerId, worker: Worker): Option<System>
    requires worker.Fetching?
  {
    var r := s.redis;
    match worker.fAt
    case FStart =>
      if worker.tries == 0 then Some(Drop(s, w))
      else
        Some(Put(s, w, worker.(tries := worker.tries - 1,
                               fAt := FWatched(Writes(r, worker.ref), r.indexWrites, r.sizesWrites))))
    case FWatched(kw, iw, sw) =>
      if !Live(r, worker.ref, s.clock) then Some(Drop(s, w))
      else
        var remaining := (r.snapshots[worker.ref].expiresAt - s.clock).Floor;
        if remaining <= 0 then Some(Drop(s, w))
        else
          var ttl := if s.limits.idle <= remaining then s.limits.idle else remaining;
          Some(Put(s, w, worker.(fAt := FReady(kw, iw, sw, s.clock, ttl))))
    case FReady(kw, iw, sw, now, ttl) =>
      if Writes(r, worker.ref) == kw && r.indexWrites == iw && r.sizesWrites == sw then
        Some(Drop(s, w).(redis := ExecFetch(s.limits, r, s.clock, worker.ref, now, ttl),
                         renewals := s.renewals[worker.ref := Renewal(now, s.clock, ttl)]))
      else None
  }

  ghost function Step(s: System, e: Event): Option<System> {
    match e
    case Tick(dt) => if dt < 0.0 then None else Some(s.(clock := s.clock + dt))
    case BeginCache(w, ref, size) =>
      if w in s.workers || ref in s.refs || size > s.limits.maxBytes then None
      else Some(Put(s, w, Caching(ref, size, s.clock, 5, CStart)).(refs := s.refs + {ref}))
    case BeginFetch(w, ref) =>
      if w in s.workers then None else Some(Put(s, w, Fetching(ref, 5, FStart)))
    case Command(w) =>
      if w !in s.workers then None
      else if s.workers[w].Caching? then CacheCommand(s, w, s.workers[w]) else FetchCommand(s, w, s.workers[w])
    case Interrupt(w) =>
      if w !in s.workers then None
      else
        var worker := s.workers[w];
        if worker.Caching? && worker.cAt.CReady? then Some(Put(s, w, worker.(cAt := CStart)))
        else if worker.Fetching? && worker.fAt.FReady? then Some(Put(s, w, worker.(fAt := FStart)))
        else None
    case Abandon(w) => if w in s.workers then Some(Drop(s, w)) else None
  }

  function Initial(limits: Limits): System {
    System(limits, Redis(map[], map[], 0.0, 0, map[], 0.0, 0, map[]), 0.0, {}, map[], map[])
  }

  ghost function Run(s: System, events: seq<Event>): Option<System>
    decreases |events|
  {
    if events == [] then Some(s)
    else
      var next := Step(s, events[0]);
      if next.None? then None else Run(next.value, events[1..])
  }

  // ----- Invariant -------------------------------------------------------------------------------

  /** The sizes hash stays within both caps. */
  ghost predicate CapsInv(s: System) {
    Total(s.redis.sizes, SizeOf()) <= s.limits.userBytes && |s.redis.sizes| <= s.limits.userCount
  }

  /** A live snapshot's size is recorded, in a hash that outlives it. */
  ghost predicate RecordedInv(s: System) {
    forall k :: Live(s.redis, k, s.clock) ==> Recorded(s, k)
  }

  predicate Recorded(s: System, k: Ref)
    requires k in s.redis.snapshots
  {
    var snapshot := s.redis.snapshots[k];
    && k in s.redis.sizes && s.redis.sizes[k] == snapshot.size <= s.limits.maxBytes
    && k in s.redis.index && snapshot.end <= s.redis.indexEnd
    && snapshot.end <= s.redis.sizesEnd && snapshot.end <= s.clock + s.limits.maxAge as real
    && snapshot.expiresAt <= s.clock + s.limits.maxAge as real
  }

  /** A live key's end, its score in the index and its window come from its last renewal. */
  ghost predicate RenewedInv(s: System) {
    forall k :: Live(s.redis, k, s.clock) ==> Renewed(s, k)
  }

  predicate Renewed(s: System, k: Ref)
    requires k in s.redis.snapshots
  {
    && k in s.renewals && k in s.redis.index
    && s.redis.index[k] == s.renewals[k].read + s.renewals[k].window as real
    && s.redis.snapshots[k].end == s.renewals[k].at + s.renewals[k].window as real
    && s.renewals[k].window == Window(s.limits, s.redis.snapshots[k].expiresAt, s.renewals[k].read)
  }

  /** min(idle, int(expires_at - now)). */
  function Window(lim: Limits, expiresAt: Time, now: Time): int {
    var remaining := (expiresAt - now).Floor;
    if lim.idle <= remaining then lim.idle else remaining
  }

  /** Keys in Redis come from references already drawn; a reference being cached is in Redis nowhere. */
  ghost predicate RefsInv(s: System) {
    && s.redis.snapshots.Keys <= s.refs && s.redis.sizes.Keys <= s.refs
    && (forall w :: w in s.workers && s.workers[w].Caching? ==>
          s.workers[w].ref in s.refs && s.workers[w].now <= s.clock && s.workers[w].size <= s.limits.maxBytes
          && s.workers[w].ref !in s.redis.snapshots && s.workers[w].ref !in s.redis.sizes)
    && (forall v, w ::
          v in s.workers && w in s.workers && v != w && s.workers[v].Caching? && s.workers[w].Caching? ==>
            s.workers[v].ref != s.workers[w].ref)
  }

  /** What a worker has read still holds, unless a watched key was written or the hash expired. */
  ghost predicate Knows(s: System, worker: Worker) {
    match worker
    case Caching(_, size, _, _, CReady(iw, sw, due, active)) =>
      && sw <= s.redis.sizesWrites && iw <= s.redis.indexWrites
      && Total(active, SizeOf()) + size <= s.limits.userBytes && |active| < s.limits.userCount
      && (s.redis.sizesWrites == sw ==> s.clock >= s.redis.sizesEnd || active == s.redis.sizes - due)
      && (s.redis.indexWrites == iw ==> s.clock >= s.redis.indexEnd || due == DueBy(s.redis.index, worker.now))
    case Caching(_, _, now, _, CDue(iw, sw, due)) =>
      && sw <= s.redis.sizesWrites && iw <= s.redis.indexWrites
      && (s.redis.indexWrites == iw ==> s.clock >= s.redis.indexEnd || due == DueBy(s.redis.index, now))
    case Caching(_, _, _, _, CWatched(iw, sw)) => sw <= s.redis.sizesWrites && iw <= s.redis.indexWrites
    case Fetching(ref, _, FReady(_, iw, _, now, ttl)) =>
      && ttl <= s.limits.maxAge && now <= s.clock && iw <= s.redis.indexWrites
      && (s.redis.indexWrites == iw ==> Reads(s, ref, now, ttl))
    case Fetching(_, _, FWatched(_, iw, _)) => iw <= s.redis.indexWrites
    case _ => true
  }

  /** The window computed from a live key, by a clock reading later than its last renewal. */
  predicate Reads(s: System, ref: Ref, now: Time, ttl: nat) {
    && (Live(s.redis, ref, s.clock) ==> ttl == Window(s.limits, s.redis.snapshots[ref].expiresAt, now))
    && (ref in s.renewals ==> s.renewals[ref].at <= now)
  }

  /** No renewal is later than the clock. */
  ghost predicate PastInv(s: System) {
    forall k :: k in s.renewals ==> s.renewals[k].read <= s.renewals[k].at <= s.clock
  }

  /** While the index is not written, neither is any other watched key. */
  predicate Watches(s: System, worker: Worker) {
    match worker
    case Caching(_, _, _, _, CWatched(iw, sw)) => s.redis.indexWrites == iw ==> s.redis.sizesWrites == sw
    case Caching(_, _, _, _, CDue(iw, sw, _)) => s.redis.indexWrites == iw ==> s.redis.sizesWrites == sw
    case Caching(_, _, _, _, CReady(iw, sw, _, _)) => s.redis.indexWrites == iw ==> s.redis.sizesWrites == sw
    case Fetching(ref, _, FWatched(kw, iw, sw)) => s.redis.indexWrites == iw ==> Unwritten(s, ref, kw, sw)
    case Fetching(ref, _, FReady(kw, iw, sw, _, _)) => s.redis.indexWrites == iw ==> Unwritten(s, ref, kw, sw)
    case _ => true
  }

  predicate Unwritten(s: System, ref: Ref, kw: nat, sw: nat) {
    Writes(s.redis, ref) == kw && s.redis.sizesWrites == sw
  }

  ghost predicate WorkersInv(s: System) {
    forall w :: w in s.workers ==> Knows(s, s.workers[w]) && Watches(s, s.workers[w])
  }

  ghost predicate Inv(s: System) {
    s.limits.Valid() && CapsInv(s) && RecordedInv(s) && RenewedInv(s) && PastInv(s) && RefsInv(s) && WorkersInv(s)
  }

  // ----- Proofs ----------------------------------------------------------------------------------

  lemma TickKeeps(s: System, dt: Time)
    requires Inv(s) && dt >= 0.0
    ensures Inv(s.(clock := s.clock + dt))
  {
    var s' := s.(clock := s.clock + dt);
    forall k | Live(s'.redis, k, s'.clock)
      ensures Recorded(s', k)
    {
      assert Live(s.redis, k, s.clock) && Recorded(s, k);
    }
    forall k | Live(s'.redis, k, s'.clock)
      ensures Renewed(s', k)
    {
      assert Live(s.redis, k, s.clock) && Renewed(s, k);
    }
    forall w | w in s'.workers
      ensures Knows(s', s'.workers[w]) && Watches(s', s'.workers[w])
    {
      assert Knows(s, s.workers[w]);
    }
  }

  /** What fitted when the sizes were read still fits when they are written. */
  lemma AddedSizeFits(kept: map<Ref, nat>, active: map<Ref, nat>, ref: Ref, size: nat, lim: Limits)
    requires kept == active || kept == map[]
    requires Total(active, SizeOf()) + size <= lim.userBytes && |active| < lim.userCount
    requires ref !in kept
    ensures Total(kept[ref := size], SizeOf()) <= lim.userBytes && |kept[ref := size]| <= lim.userCount
  {
    var w := SizeOf();
    assert Total(kept, w) <= Total(active, w) && |kept| <= |active|;
    Added(kept, w, ref, size);
  }

  lemma Added(kept: map<Ref, nat>, w: nat -> nat, ref: Ref, size: nat)
    requires ref !in kept
    ensures Total(kept[ref := size], w) == Total(kept, w) + w(size) && |kept[ref := size]| == |kept| + 1
  {
    TotalInsert(kept, w, ref, size);
    assert kept - {ref} == kept;
    assert kept[ref := size].Keys == kept.Keys + {ref};
    assert |kept[ref := size]| == |kept[ref := size].Keys|;
  }

  /** The state after a cache request's EXEC. */
  ghost function CacheExec(s: System, w: WorkerId): System
    requires w in s.workers && s.workers[w].Caching? && s.workers[w].cAt.CReady?
  {
    var worker := s.workers[w];
    Drop(s, w).(
      redis := ExecCache(s.limits, s.redis, s.clock, worker.ref, worker.size, worker.now, worker.cAt.due),
      renewals := s.renewals[worker.ref := Renewal(worker.now, s.clock, s.limits.Ttl())])
  }

  ghost function FetchExec(s: System, w: WorkerId): System
    requires w in s.workers && s.workers[w].Fetching? && s.workers[w].fAt.FReady?
  {
    var worker := s.workers[w];
    Drop(s, w).(
      redis := ExecFetch(s.limits, s.redis, s.clock, worker.ref, worker.fAt.now, worker.fAt.ttl),
      renewals := s.renewals[worker.ref := Renewal(worker.fAt.now, s.clock, worker.fAt.ttl)])
  }

  lemma CacheRecords(s: System, w: WorkerId)
    requires Inv(s) && w in s.workers && s.workers[w].Caching? && s.workers[w].cAt.CReady?
    ensures RecordedInv(CacheExec(s, w))
  {
    var s' := CacheExec(s, w);
    forall k | Live(s'.redis, k, s'.clock)
      ensures Recorded(s', k)
    {
      if k != s.workers[w].ref {
        assert Live(s.redis, k, s.clock) && Recorded(s, k);
      }
    }
  }

  /** A new key's window. */
  lemma FirstWindow(lim: Limits, now: Time)
    ensures Window(lim, now + lim.maxAge as real, now) == lim.Ttl()
  {
    assert now + lim.maxAge as real - now == lim.maxAge as real;
  }

  lemma CacheRenewsNew(s: System, w: WorkerId)
    requires RefsInv(s) && w in s.workers && s.workers[w].Caching? && s.workers[w].cAt.CReady?
    ensures Renewed(CacheExec(s, w), s.workers[w].ref)
  {
    FirstWindow(s.limits, s.workers[w].now);
  }

  lemma CacheRenewsOther(s: System, w: WorkerId, k: Ref)
    requires Inv(s) && w in s.workers && s.workers[w].Caching? && s.workers[w].cAt.CReady?
    requires k != s.workers[w].ref && Live(CacheExec(s, w).redis, k, s.clock)
    ensures Renewed(CacheExec(s, w), k)
  {
    var s' := CacheExec(s, w);
    assert Live(s.redis, k, s.clock) && Recorded(s, k) && Renewed(s, k);
    assert s'.redis.snapshots[k] == s.redis.snapshots[k] && s'.renewals[k] == s.renewals[k];
  }

  lemma CacheRenews(s: System, w: WorkerId)
    requires Inv(s) && w in s.workers && s.workers[w].Caching? && s.workers[w].cAt.CReady?
    ensures RenewedInv(CacheExec(s, w)) && PastInv(CacheExec(s, w))
  {
    var s' := CacheExec(s, w);
    assert s'.clock == s.clock;
    forall k | Live(s'.redis, k, s'.clock)
      ensures Renewed(s', k)
    {
      if k == s.workers[w].ref {
        CacheRenewsNew(s, w);
      } else {
        CacheRenewsOther(s, w, k);
      }
    }
  }

  lemma FetchRecords(s: System, w: WorkerId)
    requires Inv(s) && w in s.workers && s.workers[w].Fetching? && s.workers[w].fAt.FReady?
    ensures RecordedInv(FetchExec(s, w))
  {
    var s' := FetchExec(s, w);
    assert Knows(s, s.workers[w]);
    forall k | Live(s'.redis, k, s'.clock)
      ensures Recorded(s', k)
    {
      assert Live(s.redis, k, s.clock) && Recorded(s, k);
    }
  }

  lemma FetchRenews(s: System, w: WorkerId)
    requires Inv(s) && w in s.workers && s.workers[w].Fetching? && s.workers[w].fAt.FReady?
    requires s.redis.indexWrites == s.workers[w].fAt.iw
    ensures RenewedInv(FetchExec(s, w)) && PastInv(FetchExec(s, w))
  {
    var s' := FetchExec(s, w);
    assert Knows(s, s.workers[w]);
    forall k | Live(s'.redis, k, s'.clock)
      ensures Renewed(s', k)
    {
      assert Live(s.redis, k, s.clock) && Recorded(s, k) && Renewed(s, k);
    }
  }

  /** A worker's own transaction bumps the counters that the others compare. */
  lemma ExecKnows(s: System, s': System, worker: Worker)
    requires Knows(s, worker) && Watches(s, worker) && s'.limits == s.limits && s'.clock == s.clock
    requires s'.redis.indexWrites == s.redis.indexWrites + 1
    requires s'.redis.sizesWrites == s.redis.sizesWrites + 1
             || (s'.redis.sizesWrites == s.redis.sizesWrites && s'.redis.sizesEnd == s.redis.sizesEnd
                 && s'.redis.sizes == map[] && SizesAt(s.redis, s.clock) == map[])
    ensures Knows(s', worker) && Watches(s', worker)
  {
  }

  lemma CacheExecKeeps(s: System, w: WorkerId, s': System)
    requires Inv(s) && w in s.workers && s.workers[w].Caching? && s.workers[w].cAt.CReady?
    requires CacheCommand(s, w, s.workers[w]) == Some(s')
    ensures Inv(s')
  {
    var worker := s.workers[w];
    var kept := SizesAt(s.redis, s.clock) - worker.cAt.due;
    assert Knows(s, worker);
    AddedSizeFits(kept, worker.cAt.active, worker.ref, worker.size, s.limits);
    CacheRecords(s, w);
    CacheRenews(s, w);
    forall v | v in s'.workers
      ensures Knows(s', s'.workers[v]) && Watches(s', s'.workers[v])
    {
      ExecKnows(s, s', s.workers[v]);
    }
    CacheRefs(s, w, s');
  }

  lemma CacheRefs(s: System, w: WorkerId, s': System)
    requires RefsInv(s) && w in s.workers && s.workers[w].Caching? && s.workers[w].cAt.CReady?
    requires CacheCommand(s, w, s.workers[w]) == Some(s')
    ensures RefsInv(s')
  {
  }

  lemma FetchExecKeeps(s: System, w: WorkerId, s': System)
    requires Inv(s) && w in s.workers && s.workers[w].Fetching? && s.workers[w].fAt.FReady?
    requires FetchCommand(s, w, s.workers[w]) == Some(s')
    ensures Inv(s')
  {
    var none: map<Ref, nat> := map[];
    assert Total(none, SizeOf()) == 0;
    FetchRecords(s, w);
    FetchRenews(s, w);
    forall v | v in s'.workers
      ensures Knows(s', s'.workers[v]) && Watches(s', s'.workers[v])
    {
      ExecKnows(s, s', s.workers[v]);
    }
  }

  /** Steps that write nothing to Redis need to show only what the workers then know. */
  lemma UnwrittenKeeps(s: System, s': System)
    requires Inv(s) && s'.redis == s.redis && s'.clock == s.clock && s'.limits == s.limits
    requires s'.renewals == s.renewals && RefsInv(s') && WorkersInv(s')
    ensures Inv(s')
  {
    assert forall k :: Live(s.redis, k, s.clock) ==> Recorded(s, k) && Recorded(s', k);
    assert forall k :: Live(s.redis, k, s.clock) ==> Renewed(s, k) && Renewed(s', k);
  }

  lemma KnowsDepends(s: System, s': System, worker: Worker)
    requires Knows(s, worker) && Watches(s, worker)
    requires s'.redis == s.redis && s'.clock == s.clock && s'.limits == s.limits && s'.renewals == s.renewals
    ensures Knows(s', worker) && Watches(s', worker)
  {
  }

  lemma CacheReads(s: System, w: WorkerId, s': System)
    requires w in s.workers && s.workers[w].Caching? && !s.workers[w].cAt.CReady?
    requires Knows(s, s.workers[w]) && Watches(s, s.workers[w])
    requires CacheCommand(s, w, s.workers[w]) == Some(s') && w in s'.workers
    ensures Knows(s', s'.workers[w]) && Watches(s', s'.workers[w])
  {
  }

  lemma CacheReadRefs(s: System, w: WorkerId, s': System)
    requires RefsInv(s) && w in s.workers && s.workers[w].Caching? && !s.workers[w].cAt.CReady?
    requires CacheCommand(s, w, s.workers[w]) == Some(s')
    ensures RefsInv(s')
  {
  }

  lemma CacheReadKeeps(s: System, w: WorkerId, s': System)
    requires Inv(s) && w in s.workers && s.workers[w].Caching? && !s.workers[w].cAt.CReady?
    requires CacheCommand(s, w, s.workers[w]) == Some(s')
    ensures Inv(s')
  {
    forall v | v in s'.workers
      ensures Knows(s', s'.workers[v]) && Watches(s', s'.workers[v])
    {
      if v == w {
        CacheReads(s, w, s');
      } else {
        KnowsDepends(s, s', s.workers[v]);
      }
    }
    CacheReadRefs(s, w, s');
    UnwrittenKeeps(s, s');
  }

  lemma FetchReadKeeps(s: System, w: WorkerId, s': System)
    requires Inv(s) && w in s.workers && s.workers[w].Fetching? && !s.workers[w].fAt.FReady?
    requires FetchCommand(s, w, s.workers[w]) == Some(s')
    ensures Inv(s')
  {
    var worker := s.workers[w];
    assert Live(s.redis, worker.ref, s.clock) ==> Recorded(s, worker.ref);
    forall v | v in s'.workers
      ensures Knows(s', s'.workers[v]) && Watches(s', s'.workers[v])
    {
      if v != w {
        KnowsDepends(s, s', s.workers[v]);
      }
    }
    UnwrittenKeeps(s, s');
  }

  lemma OtherKeeps(s: System, e: Event, s': System)
    requires Inv(s) && Step(s, e) == Some(s') && !e.Tick? && !e.Command?
    ensures Inv(s')
  {
    assert s'.redis == s.redis && s'.clock == s.clock && s'.limits == s.limits && s'.renewals == s.renewals;
    OtherRefs(s, e, s');
    forall v | v in s'.workers
      ensures Knows(s', s'.workers[v]) && Watches(s', s'.workers[v])
    {
      if v in s.workers && s'.workers[v] == s.workers[v] {
        KnowsDepends(s, s', s.workers[v]);
      }
    }
    UnwrittenKeeps(s, s');
  }

  lemma OtherRefs(s: System, e: Event, s': System)
    requires RefsInv(s) && Step(s, e) == Some(s') && !e.Tick? && !e.Command?
    ensures RefsInv(s')
  {
  }

  lemma StepKeepsInv(s: System, e: Event)
    requires Inv(s) && Step(s, e).Some?
    ensures Inv(Step(s, e).value)
  {
    var s' := Step(s, e).value;
    match e
    case Tick(dt) => TickKeeps(s, dt);
    case Command(w) =>
      var worker := s.workers[w];
      if worker.Caching? {
        if worker.cAt.CReady? {
          CacheExecKeeps(s, w, s');
        } else {
          CacheReadKeeps(s, w, s');
        }
      } else if worker.fAt.FReady? {
        FetchExecKeeps(s, w, s');
      } else {
        FetchReadKeeps(s, w, s');
      }
    case _ => OtherKeeps(s, e, s');
  }

  lemma StepClock(s: System, e: Event)
    ensures Step(s, e).Some? ==> Step(s, e).value.clock >= s.clock
  {
  }

  lemma {:induction false} RunKeepsInv(s: System, events: seq<Event>, s': System)
    requires Inv(s) && Run(s, events) == Some(s')
    ensures Inv(s') && s'.limits == s.limits && s'.clock >= s.clock
    decreases |events|
  {
    if events != [] {
      var next := Step(s, events[0]).value;
      StepKeepsInv(s, events[0]);
      StepClock(s, events[0]);
      RunKeepsInv(next, events[1..], s');
    }
  }

  ghost predicate Reachable(limits: Limits, s: System) {
    exists events :: Run(Initial(limits), events) == Some(s)
  }

  lemma ReachableInv(limits: Limits, s: System)
    requires limits.Valid() && Reachable(limits, s)
    ensures Inv(s) && s.limits == limits
  {
    var events :| Run(Initial(limits), events) == Some(s);
    assert Inv(Initial(limits));
    RunKeepsInv(Initial(limits), events, s);
  }

  // ----- Main results ----------------------------------------------------------------------------

  ghost function LiveSnapshots(s: System): map<Ref, Snapshot> {
    map k | k in s.redis.snapshots && Live(s.redis, k, s.clock) :: s.redis.snapshots[k]
  }

  function SnapshotSize(): Snapshot -> nat {
    (snapshot: Snapshot) => snapshot.size
  }

  /** In every interleaving: the hash keeps to both caps, records every live snapshot, and so bounds live bytes. */
  lemma LiveBytesBounded(limits: Limits, s: System)
    requires limits.Valid() && Reachable(limits, s)
    ensures Total(s.redis.sizes, SizeOf()) <= limits.userBytes && |s.redis.sizes| <= limits.userCount
    ensures forall k :: Live(s.redis, k, s.clock) ==>
      k in SizesAt(s.redis, s.clock) && s.redis.sizes[k] == s.redis.snapshots[k].size <= limits.maxBytes
    ensures Total(LiveSnapshots(s), SnapshotSize()) <= limits.userBytes && |LiveSnapshots(s)| <= limits.userCount
  {
    ReachableInv(limits, s);
    assert forall k :: Live(s.redis, k, s.clock) ==> Recorded(s, k);
    TotalPart(LiveSnapshots(s), SnapshotSize(), s.redis.sizes, SizeOf());
  }

  /**
   * A live key's end and its score come from its last renewal: the clock was read, min(idle,
   * remaining) was added for the score, and the EXPIRE counts from the EXEC. So the end is later
   * than the score by the delay between the two.
   */
  lemma ScoreIsRenewal(limits: Limits, s: System, k: Ref)
    requires limits.Valid() && Reachable(limits, s) && Live(s.redis, k, s.clock)
    ensures k in s.renewals && k in IndexAt(s.redis, s.clock)
    ensures var renewal, remaining := s.renewals[k], (s.redis.snapshots[k].expiresAt - s.renewals[k].read).Floor;
            && renewal.window == (if limits.idle <= remaining then limits.idle else remaining)
            && s.redis.index[k] == renewal.read + renewal.window as real
            && s.redis.snapshots[k].end == renewal.at + renewal.window as real
            && s.redis.snapshots[k].end == s.redis.index[k] + (renewal.at - renewal.read)
            && renewal.read <= renewal.at <= s.clock
  {
    ReachableInv(limits, s);
    assert Recorded(s, k) && Renewed(s, k);
  }

  /** The window of the last renewal is still open at `now`. */
  predicate RenewedPast(s: System, k: Ref, now: Time) {
    k in s.renewals && s.renewals[k].read + s.renewals[k].window as real > now
  }

  /** The index a request writes has its own key, and of the others those that were not due. */
  lemma CacheIndexes(s: System, w: WorkerId, s': System, k: Ref)
    requires Inv(s) && w in s.workers && s.workers[w].Caching? && s.workers[w].cAt.CReady?
    requires Step(s, Command(w)) == Some(s')
    ensures k in s'.redis.index <==>
      k == s.workers[w].ref || (k in IndexAt(s.redis, s.clock) && s.redis.index[k] > s.workers[w].now)
  {
    assert Knows(s, s.workers[w]);
  }

  /** A cache request's EXEC stores its snapshot for the idle window. */
  lemma CacheStores(limits: Limits, s: System, w: WorkerId, s': System)
    requires w in s.workers && s.workers[w].Caching? && s.workers[w].cAt.CReady? && s.limits == limits
    requires Step(s, Command(w)) == Some(s')
    ensures var worker, ttl := s.workers[w], if limits.idle <= limits.maxAge then limits.idle else limits.maxAge;
            && worker.ref in s'.redis.snapshots && s'.clock == s.clock
            && s'.redis.snapshots[worker.ref] ==
               Snapshot(worker.size, worker.now + limits.maxAge as real, s.clock + ttl as real)
  {
  }

  lemma DueIsClosed(s: System, w: WorkerId, k: Ref)
    requires Inv(s) && w in s.workers && s.workers[w].Caching? && s.workers[w].cAt.CReady?
    requires s.redis.indexWrites == s.workers[w].cAt.iw && Live(s.redis, k, s.clock)
    ensures k != s.workers[w].ref && (k in s.workers[w].cAt.due <==> !RenewedPast(s, k, s.workers[w].now))
  {
    assert Knows(s, s.workers[w]);
    assert Recorded(s, k) && Renewed(s, k);
  }

  lemma CacheKeepsRest(s: System, w: WorkerId, s': System, k: Ref)
    requires w in s.workers && s.workers[w].Caching? && s.workers[w].cAt.CReady? && k != s.workers[w].ref
    requires Step(s, Command(w)) == Some(s')
    ensures s.redis.indexWrites == s.workers[w].cAt.iw && s'.clock == s.clock
    ensures k in s'.redis.snapshots <==> k in s.redis.snapshots && k !in s.workers[w].cAt.due
    ensures k in s'.redis.snapshots ==> s'.redis.snapshots[k] == s.redis.snapshots[k]
  {
  }

  /** It deletes exactly the live snapshots whose last renewal's window had closed when it began. */
  lemma CachePurgesDue(limits: Limits, s: System, w: WorkerId, s': System, k: Ref)
    requires limits.Valid() && Reachable(limits, s)
    requires w in s.workers && s.workers[w].Caching? && s.workers[w].cAt.CReady? && Step(s, Command(w)) == Some(s')
    requires Live(s.redis, k, s.clock)
    ensures k != s.workers[w].ref
    ensures Live(s'.redis, k, s'.clock) <==> RenewedPast(s, k, s.workers[w].now)
    ensures Live(s'.redis, k, s'.clock) ==> s'.redis.snapshots[k] == s.redis.snapshots[k]
  {
    ReachableInv(limits, s);
    assert s.redis.indexWrites == s.workers[w].cAt.iw;
    DueIsClosed(s, w, k);
    CacheKeepsRest(s, w, s', k);
  }

  /**
   * No renewal is lost: whatever command a cache request carries out, it deletes a live snapshot only
   * if the window of its last renewal, counted from that renewal's clock reading, had closed when
   * the request began.
   */
  lemma PurgeSparesRenewed(limits: Limits, s: System, w: WorkerId, s': System, k: Ref)
    requires limits.Valid() && Reachable(limits, s)
    requires w in s.workers && s.workers[w].Caching? && Step(s, Command(w)) == Some(s')
    requires Live(s.redis, k, s.clock) && !Live(s'.redis, k, s'.clock)
    ensures k in s.renewals && s.renewals[k].read + s.renewals[k].window as real <= s.workers[w].now
  {
    ScoreIsRenewal(limits, s, k);
    if s.workers[w].cAt.CReady? {
      CachePurgesDue(limits, s, w, s', k);
    }
  }

  /** A fetch's EXEC keeps its key alive for min(idle, remaining) from then on, and changes no other key. */
  lemma FetchRenewsKey(limits: Limits, s: System, w: WorkerId, s': System, k: Ref)
    requires limits.Valid() && Reachable(limits, s)
    requires w in s.workers && s.workers[w].Fetching? && s.workers[w].fAt.FReady? && Step(s, Command(w)) == Some(s')
    ensures s'.clock == s.clock && s'.redis.snapshots.Keys == s.redis.snapshots.Keys
    ensures k != s.workers[w].ref && k in s.redis.snapshots ==> s'.redis.snapshots[k] == s.redis.snapshots[k]
    ensures k == s.workers[w].ref && Live(s.redis, k, s.clock) ==>
      var remaining := (s.redis.snapshots[k].expiresAt - s.workers[w].fAt.now).Floor;
      var ttl := if limits.idle <= remaining then limits.idle else remaining;
      && s'.redis.snapshots[k] == s.redis.snapshots[k].(end := s.clock + ttl as real)
      && k in s'.renewals && s'.renewals[k] == Renewal(s.workers[w].fAt.now, s.clock, ttl)
      && k in s'.redis.index && s'.redis.index[k] == s.workers[w].fAt.now + ttl as real
  {
    ReachableInv(limits, s);
    assert Knows(s, s.workers[w]);
  }

  /**
   * Every transaction writes the index, so watching it alone refuses the same ones: an EXEC succeeds
   * exactly when the index was not written since its WATCH.
   */
  lemma IndexWatchDecides(limits: Limits, s: System, w: WorkerId)
    requires limits.Valid() && Reachable(limits, s) && w in s.workers
    ensures s.workers[w].Caching? && s.workers[w].cAt.CReady? ==>
      (Step(s, Command(w)).Some? <==> s.redis.indexWrites == s.workers[w].cAt.iw)
    ensures s.workers[w].Fetching? && s.workers[w].fAt.FReady? ==>
      (Step(s, Command(w)).Some? <==> s.redis.indexWrites == s.workers[w].fAt.iw)
  {
    ReachableInv(limits, s);
    assert Watches(s, s.workers[w]);
  }

  // ----- Fetched snapshots over runs -------------------------------------------------------------

  /** The key is no longer being cached, and its `expires_at` is fixed. */
  predicate Settled(s: System, k: Ref, expiresAt: Time) {
    && k in s.refs && k in s.renewals && (k in s.redis.snapshots ==> s.redis.snapshots[k].expiresAt == expiresAt)
    && forall w :: w in s.workers && s.workers[w].Caching? ==> s.workers[w].ref != k
  }

  lemma SettledStep(s: System, e: Event, s': System, k: Ref, expiresAt: Time)
    requires Inv(s) && Settled(s, k, expiresAt) && Step(s, e) == Some(s')
    ensures Settled(s', k, expiresAt)
    ensures s'.renewals[k].read >= s.renewals[k].read
  {
    assert e.Command? && e.w in s.workers ==> Knows(s, s.workers[e.w]);
  }

  lemma {:induction false} SettledRun(s: System, events: seq<Event>, s': System, k: Ref, expiresAt: Time)
    requires Inv(s) && Settled(s, k, expiresAt) && Run(s, events) == Some(s')
    ensures Settled(s', k, expiresAt)
    ensures s'.renewals[k].read >= s.renewals[k].read
    decreases |events|
  {
    if events != [] {
      var next := Step(s, events[0]).value;
      SettledStep(s, events[0], next, k, expiresAt);
      StepKeepsInv(s, events[0]);
      SettledRun(next, events[1..], s', k, expiresAt);
    }
  }

  /** A later renewal can end earlier than one before it, by the rounding of the remaining time. */
  lemma LaterWindow(lim: Limits, expiresAt: Time, a: Time, b: Time)
    requires a <= b
    ensures b + Window(lim, expiresAt, b) as real > a + Window(lim, expiresAt, a) as real - 1.0
  {
  }

  /**
   * A snapshot fetched with clock reading n and window ttl is deleted by no cache request, however much
   * later it runs, that began before n + ttl - 1.
   */
  lemma FetchedSurvives(
    limits: Limits, s: System, w: WorkerId, s1: System, events: seq<Event>, s2: System, v: WorkerId, s3: System)
    requires limits.Valid() && Reachable(limits, s)
    requires w in s.workers && s.workers[w].Fetching? && s.workers[w].fAt.FReady? && Step(s, Command(w)) == Some(s1)
    requires Live(s.redis, s.workers[w].ref, s.clock) && Run(s1, events) == Some(s2)
    requires v in s2.workers && s2.workers[v].Caching? && Step(s2, Command(v)) == Some(s3)
    requires s2.workers[v].now <= s.workers[w].fAt.now + s.workers[w].fAt.ttl as real - 1.0
    requires Live(s2.redis, s.workers[w].ref, s2.clock)
    ensures Live(s3.redis, s.workers[w].ref, s3.clock)
  {
    var k := s.workers[w].ref;
    var expiresAt := s.redis.snapshots[k].expiresAt;
    ReachableInv(limits, s);
    FetchRenewsKey(limits, s, w, s1, k);
    assert Knows(s, s.workers[w]);
    StepKeepsInv(s, Command(w));
    SettledRun(s1, events, s2, k, expiresAt);
    RunKeepsInv(s1, events, s2);
    assert Renewed(s2, k);
    LaterWindow(limits, expiresAt, s1.renewals[k].read, s2.renewals[k].read);
    LaterReachable(limits, s, Command(w), s1, events, s2);
    if !Live(s3.redis, k, s3.clock) {
      PurgeSparesRenewed(limits, s2, v, s3, k);
    }
  }

  lemma {:induction false} RunJoins(s: System, events: seq<Event>, m: System, more: seq<Event>, s': System)
    requires Run(s, events) == Some(m) && Run(m, more) == Some(s')
    ensures Run(s, events + more) == Some(s')
    decreases |events|
  {
    if events == [] {
      assert [] + more == more;
    } else {
      RunJoins(Step(s, events[0]).value, events[1..], m, more, s');
      assert (events + more)[1..] == events[1..] + more;
    }
  }

  lemma LaterReachable(limits: Limits, s: System, e: Event, s1: System, events: seq<Event>, s2: System)
    requires Reachable(limits, s) && Step(s, e) == Some(s1) && Run(s1, events) == Some(s2)
    ensures Reachable(limits, s2)
  {
    var first :| Run(Initial(limits), first) == Some(s);
    assert ([e] + events)[1..] == events;
    RunJoins(Initial(limits), first, s, [e] + events, s2);
  }

  // ----- Requests with nobody in their way -------------------------------------------------------

  lemma Then(s: System, e: Event, s1: System, events: seq<Event>, s': System)
    requires Step(s, e) == Some(s1) && Run(s1, events) == Some(s')
    ensures Run(s, [e] + events) == Some(s')
  {
    assert ([e] + events)[1..] == events;
  }

  lemma Once(s: System, e: Event, s': System)
    requires Step(s, e) == Some(s')
    ensures Run(s, [e]) == Some(s')
  {
    assert [e][1..] == [];
  }

  ghost function DueNow(s: System): set<Ref> {
    DueBy(IndexAt(s.redis, s.clock), s.clock)
  }

  /** There is room beside the snapshots that are not due. */
  ghost predicate Fits(s: System, size: nat) {
    var active := SizesAt(s.redis, s.clock) - DueNow(s);
    size <= s.limits.maxBytes && Total(active, SizeOf()) + size <= s.limits.userBytes && |active| < s.limits.userCount
  }

  /** The request is about to send its EXEC. */
  ghost function Prepared(s: System, w: WorkerId, ref: Ref, size: nat): System {
    var at := CReady(s.redis.indexWrites, s.redis.sizesWrites, DueNow(s), SizesAt(s.redis, s.clock) - DueNow(s));
    Put(s, w, Caching(ref, size, s.clock, 4, at)).(refs := s.refs + {ref})
  }

  lemma PutTwice(s: System, w: WorkerId, a: Worker, b: Worker)
    ensures Put(Put(s, w, a), w, b) == Put(s, w, b)
  {
  }

  lemma PrepareAlone(s: System, w: WorkerId, ref: Ref, size: nat)
    requires w !in s.workers && ref !in s.refs && Fits(s, size)
    ensures Run(s, [BeginCache(w, ref, size)] + ([Command(w)] + ([Command(w)] + [Command(w)]))) ==
            Some(Prepared(s, w, ref, size))
  {
    var r, drawn := s.redis, s.(refs := s.refs + {ref});
    var begun := Caching(ref, size, s.clock, 5, CStart);
    var watched := Caching(ref, size, s.clock, 4, CWatched(r.indexWrites, r.sizesWrites));
    var due := watched.(cAt := CDue(r.indexWrites, r.sizesWrites, DueNow(s)));
    var ready := Prepared(s, w, ref, size);
    PutTwice(drawn, w, due, ready.workers[w]);
    Once(Put(drawn, w, due), Command(w), ready);
    PutTwice(drawn, w, watched, due);
    Then(Put(drawn, w, watched), Command(w), Put(drawn, w, due), [Command(w)], ready);
    PutTwice(drawn, w, begun, watched);
    Then(Put(drawn, w, begun), Command(w), Put(drawn, w, watched), [Command(w)] + [Command(w)], ready);
    Then(s, BeginCache(w, ref, size), Put(drawn, w, begun), [Command(w)] + ([Command(w)] + [Command(w)]), ready);
  }

  /** The system once the request is carried out. */
  ghost function Stored(s: System, ref: Ref, size: nat): System {
    s.(redis := ExecCache(s.limits, s.redis, s.clock, ref, size, s.clock, DueNow(s)), refs := s.refs + {ref},
       renewals := s.renewals[ref := Renewal(s.clock, s.clock, s.limits.Ttl())])
  }

  lemma FinishAlone(s: System, w: WorkerId, ref: Ref, size: nat)
    requires w !in s.workers
    ensures Run(Prepared(s, w, ref, size), [Command(w)]) == Some(Stored(s, ref, size))
  {
    var ready := Prepared(s, w, ref, size);
    assert ready.workers - {w} == s.workers;
    Once(ready, Command(w), Stored(s, ref, size));
  }

  /** A cache request that fits is carried out; the keys it finds due are gone, its own is there. */
  lemma CacheAlone(s: System, w: WorkerId, ref: Ref, size: nat) returns (events: seq<Event>, s': System)
    requires w !in s.workers && ref !in s.refs && Fits(s, size)
    ensures Run(s, events) == Some(s') && s'.workers == s.workers && s'.clock == s.clock && s'.refs == s.refs + {ref}
    ensures s'.redis.snapshots == (s.redis.snapshots - DueNow(s))[
              ref := Snapshot(size, s.clock + s.limits.maxAge as real, s.clock + s.limits.Ttl() as real)]
    ensures s'.redis.sizes == (SizesAt(s.redis, s.clock) - DueNow(s))[ref := size] && s'.limits == s.limits
    ensures s'.redis.sizesEnd == s.clock + s.limits.maxAge as real
    ensures s'.renewals == s.renewals[ref := Renewal(s.clock, s.clock, s.limits.Ttl())]
  {
    var first := [BeginCache(w, ref, size)] + ([Command(w)] + ([Command(w)] + [Command(w)]));
    PrepareAlone(s, w, ref, size);
    FinishAlone(s, w, ref, size);
    s', events := Stored(s, ref, size), first + [Command(w)];
    RunJoins(s, first, Prepared(s, w, ref, size), [Command(w)], s');
  }

  function Remaining(s: System, ref: Ref): int
    requires ref in s.redis.snapshots
  {
    (s.redis.snapshots[ref].expiresAt - s.clock).Floor
  }

  /** min(idle, remaining). */
  function Renewable(s: System, ref: Ref): int
    requires ref in s.redis.snapshots
  {
    if s.limits.idle <= Remaining(s, ref) then s.limits.idle else Remaining(s, ref)
  }

  /** The fetch is about to send its EXEC. */
  function Fetched(s: System, w: WorkerId, ref: Ref): System
    requires ref in s.redis.snapshots && Remaining(s, ref) > 0
  {
    var r := s.redis;
    Put(s, w, Fetching(ref, 4, FReady(Writes(r, ref), r.indexWrites, r.sizesWrites, s.clock, Renewable(s, ref))))
  }

  lemma ReadAlone(s: System, w: WorkerId, ref: Ref)
    requires w !in s.workers && Live(s.redis, ref, s.clock) && Remaining(s, ref) > 0
    ensures Run(s, [BeginFetch(w, ref)] + ([Command(w)] + [Command(w)])) == Some(Fetched(s, w, ref))
  {
    var r, begun, reading := s.redis, Fetching(ref, 5, FStart), Fetched(s, w, ref);
    var watched := Fetching(ref, 4, FWatched(Writes(r, ref), r.indexWrites, r.sizesWrites));
    PutTwice(s, w, watched, reading.workers[w]);
    Once(Put(s, w, watched), Command(w), reading);
    PutTwice(s, w, begun, watched);
    Then(Put(s, w, begun), Command(w), Put(s, w, watched), [Command(w)], reading);
    Then(s, BeginFetch(w, ref), Put(s, w, begun), [Command(w)] + [Command(w)], reading);
  }

  /** A fetch of a live, unexpired snapshot renews it, here `d` seconds after it reads the clock. */
  lemma FetchAlone(s: System, w: WorkerId, ref: Ref, d: Time) returns (events: seq<Event>, s': System)
    requires w !in s.workers && Live(s.redis, ref, s.clock) && Remaining(s, ref) > 0
    requires d >= 0.0 && Live(s.redis, ref, s.clock + d)
    ensures Run(s, events) == Some(s') && s'.workers == s.workers && s'.clock == s.clock + d && s'.refs == s.refs
    ensures var ttl := if s.limits.idle <= Remaining(s, ref) then s.limits.idle else Remaining(s, ref);
            && s'.redis.snapshots == s.redis.snapshots[ref := s.redis.snapshots[ref].(end := s.clock + d + ttl as real)]
            && s'.renewals == s.renewals[ref := Renewal(s.clock, s.clock + d, ttl)]
    ensures s'.redis.sizes == SizesAt(s.redis, s.clock + d) && s'.limits == s.limits
    ensures s'.redis.sizes != map[] ==> s'.redis.sizesEnd == s.clock + d + s.limits.maxAge as real
  {
    var reading := Fetched(s, w, ref);
    var waited := reading.(clock := s.clock + d);
    ReadAlone(s, w, ref);
    s' := FetchExec(waited, w);
    assert waited.workers - {w} == s.workers;
    Once(waited, Command(w), s');
    Then(reading, Tick(d), waited, [Command(w)], s');
    events := [BeginFetch(w, ref)] + ([Command(w)] + [Command(w)]) + ([Tick(d)] + [Command(w)]);
    RunJoins(s, [BeginFetch(w, ref)] + ([Command(w)] + [Command(w)]), reading, [Tick(d)] + [Command(w)], s');
  }

  // ----- Contention ------------------------------------------------------------------------------

  /** An attempt of a cache request whose EXEC is refused. */
  function CacheAttempt(w: WorkerId): seq<Event> {
    [Command(w)] + ([Command(w)] + ([Command(w)] + [Interrupt(w)]))
  }

  function FetchAttempt(w: WorkerId): seq<Event> {
    [Command(w)] + ([Command(w)] + [Interrupt(w)])
  }

  function Times(events: seq<Event>, n: nat): seq<Event> {
    if n == 0 then [] else events + Times(events, n - 1)
  }

  lemma CacheRefused(s: System, w: WorkerId, ref: Ref, size: nat, tries: nat)
    requires Fits(s, size) && tries > 0
    ensures Run(Put(s, w, Caching(ref, size, s.clock, tries, CStart)), CacheAttempt(w)) ==
            Some(Put(s, w, Caching(ref, size, s.clock, tries - 1, CStart)))
  {
    var r := s.redis;
    var started, again := Caching(ref, size, s.clock, tries, CStart), Caching(ref, size, s.clock, tries - 1, CStart);
    var watched := again.(cAt := CWatched(r.indexWrites, r.sizesWrites));
    var due := again.(cAt := CDue(r.indexWrites, r.sizesWrites, DueNow(s)));
    var ready := again.(cAt := CReady(r.indexWrites, r.sizesWrites, DueNow(s), SizesAt(r, s.clock) - DueNow(s)));
    PutTwice(s, w, ready, again);
    Once(Put(s, w, ready), Interrupt(w), Put(s, w, again));
    PutTwice(s, w, due, ready);
    Then(Put(s, w, due), Command(w), Put(s, w, ready), [Interrupt(w)], Put(s, w, again));
    PutTwice(s, w, watched, due);
    Then(Put(s, w, watched), Command(w), Put(s, w, due), [Command(w)] + [Interrupt(w)], Put(s, w, again));
    PutTwice(s, w, started, watched);
    Then(Put(s, w, started), Command(w), Put(s, w, watched), [Command(w)] + ([Command(w)] + [Interrupt(w)]),
         Put(s, w, again));
  }

  lemma FetchRefused(s: System, w: WorkerId, ref: Ref, tries: nat)
    requires Live(s.redis, ref, s.clock) && Remaining(s, ref) > 0 && tries > 0
    ensures Run(Put(s, w, Fetching(ref, tries, FStart)), FetchAttempt(w)) ==
            Some(Put(s, w, Fetching(ref, tries - 1, FStart)))
  {
    var r, ttl := s.redis, if s.limits.idle <= Remaining(s, ref) then s.limits.idle else Remaining(s, ref);
    var started, again := Fetching(ref, tries, FStart), Fetching(ref, tries - 1, FStart);
    var watched := again.(fAt := FWatched(Writes(r, ref), r.indexWrites, r.sizesWrites));
    var ready := again.(fAt := FReady(Writes(r, ref), r.indexWrites, r.sizesWrites, s.clock, ttl));
    PutTwice(s, w, ready, again);
    Once(Put(s, w, ready), Interrupt(w), Put(s, w, again));
    PutTwice(s, w, watched, ready);
    Then(Put(s, w, watched), Command(w), Put(s, w, ready), [Interrupt(w)], Put(s, w, again));
    PutTwice(s, w, started, watched);
    Then(Put(s, w, started), Command(w), Put(s, w, watched), [Command(w)] + [Interrupt(w)], Put(s, w, again));
  }

  lemma {:induction false} CacheExhausts(s: System, w: WorkerId, ref: Ref, size: nat, tries: nat)
    requires w !in s.workers && Fits(s, size)
    ensures Run(Put(s, w, Caching(ref, size, s.clock, tries, CStart)), Times(CacheAttempt(w), tries) + [Command(w)]) ==
            Some(s)
  {
    var started := Put(s, w, Caching(ref, size, s.clock, tries, CStart));
    if tries == 0 {
      assert started.workers - {w} == s.workers && [] + [Command(w)] == [Command(w)];
      Once(started, Command(w), s);
    } else {
      var rest := Times(CacheAttempt(w), tries - 1) + [Command(w)];
      CacheRefused(s, w, ref, size, tries);
      CacheExhausts(s, w, ref, size, tries - 1);
      RunJoins(started, CacheAttempt(w), Put(s, w, Caching(ref, size, s.clock, tries - 1, CStart)), rest, s);
      assert Times(CacheAttempt(w), tries) + [Command(w)] == CacheAttempt(w) + rest;
    }
  }

  lemma {:induction false} FetchExhausts(s: System, w: WorkerId, ref: Ref, tries: nat)
    requires w !in s.workers && Live(s.redis, ref, s.clock) && Remaining(s, ref) > 0
    ensures Run(Put(s, w, Fetching(ref, tries, FStart)), Times(FetchAttempt(w), tries) + [Command(w)]) == Some(s)
  {
    var started := Put(s, w, Fetching(ref, tries, FStart));
    if tries == 0 {
      assert started.workers - {w} == s.workers && [] + [Command(w)] == [Command(w)];
      Once(started, Command(w), s);
    } else {
      var rest := Times(FetchAttempt(w), tries - 1) + [Command(w)];
      FetchRefused(s, w, ref, tries);
      FetchExhausts(s, w, ref, tries - 1);
      RunJoins(started, FetchAttempt(w), Put(s, w, Fetching(ref, tries - 1, FStart)), rest, s);
      assert Times(FetchAttempt(w), tries) + [Command(w)] == FetchAttempt(w) + rest;
    }
  }

  /** Refused five times, a cache request gives up and has written nothing. */
  lemma CacheGivesUp(s: System, w: WorkerId, ref: Ref, size: nat)
    requires w !in s.workers && ref !in s.refs && Fits(s, size)
    ensures Run(s, [BeginCache(w, ref, size)] + (Times(CacheAttempt(w), 5) + [Command(w)])) ==
            Some(s.(refs := s.refs + {ref}))
  {
    var drawn := s.(refs := s.refs + {ref});
    CacheExhausts(drawn, w, ref, size, 5);
    Then(s, BeginCache(w, ref, size), Put(drawn, w, Caching(ref, size, s.clock, 5, CStart)),
         Times(CacheAttempt(w), 5) + [Command(w)], drawn);
  }

  /** So does a fetch. */
  lemma FetchGivesUp(s: System, w: WorkerId, ref: Ref)
    requires w !in s.workers && Live(s.redis, ref, s.clock) && Remaining(s, ref) > 0
    ensures Run(s, [BeginFetch(w, ref)] + (Times(FetchAttempt(w), 5) + [Command(w)])) == Some(s)
  {
    FetchExhausts(s, w, ref, 5);
    Then(s, BeginFetch(w, ref), Put(s, w, Fetching(ref, 5, FStart)), Times(FetchAttempt(w), 5) + [Command(w)], s);
  }

  // ----- The rounding of the remaining time ------------------------------------------------------

  lemma ReachesOn(limits: Limits, s: System, events: seq<Event>, s': System)
    requires Reachable(limits, s) && Run(s, events) == Some(s')
    ensures Reachable(limits, s')
  {
    var first :| Run(Initial(limits), first) == Some(s);
    RunJoins(Initial(limits), first, s, events, s');
  }

  const TEN_SECONDS := Limits(600, 10, 100, 100, 10)

  lemma Waits(limits: Limits, s: System, dt: Time)
    requires Reachable(limits, s) && dt >= 0.0
    ensures Reachable(limits, s.(clock := s.clock + dt))
  {
    Once(s, Tick(dt), s.(clock := s.clock + dt));
    ReachesOn(limits, s, [Tick(dt)], s.(clock := s.clock + dt));
  }

  /** Snapshot 0, cached at time 0. */
  lemma CachedOnce() returns (s: System)
    ensures Reachable(TEN_SECONDS, s) && s.workers == map[] && s.clock == 0.0 && s.refs == {0}
    ensures s.redis.sizes == map[0 := 1] && s.redis.sizesEnd == 10.0 && s.limits == TEN_SECONDS
    ensures s.redis.snapshots == map[0 := Snapshot(1, 10.0, 10.0)] && 0 in s.renewals
  {
    var s0 := Initial(TEN_SECONDS);
    assert Run(s0, []) == Some(s0);
    var none: map<Ref, nat> := map[];
    assert SizesAt(s0.redis, 0.0) - DueNow(s0) == none && Total(none, SizeOf()) == 0;
    var events;
    events, s := CacheAlone(s0, 0, 0, 1);
    ReachesOn(TEN_SECONDS, s0, events, s);
  }

  /** Snapshot 0, fetched at 0.9 for nine seconds: its window is open until 9.9. */
  lemma FetchedOnce() returns (s: System)
    ensures Reachable(TEN_SECONDS, s) && s.workers == map[] && s.clock == 0.9 && s.refs == {0}
    ensures s.redis.sizes == map[0 := 1] && s.redis.sizesEnd == 10.9 && s.limits == TEN_SECONDS
    ensures s.redis.snapshots == map[0 := Snapshot(1, 10.0, 9.9)]
    ensures 0 in s.renewals && s.renewals[0] == Renewal(0.9, 0.9, 9)
  {
    var s1 := CachedOnce();
    var s2 := s1.(clock := 0.9);
    Waits(TEN_SECONDS, s1, 0.9);
    assert Remaining(s2, 0) == 9;
    var events;
    events, s := FetchAlone(s2, 0, 0, 0.0);
    ReachesOn(TEN_SECONDS, s2, events, s);
  }

  /** Snapshot 0, fetched again at 1.1 for eight seconds, by an EXEC at 2.0; now it is 9.5. */
  lemma FetchedTwice() returns (s: System)
    ensures Reachable(TEN_SECONDS, s) && s.workers == map[] && s.clock == 9.5 && s.refs == {0}
    ensures s.redis.sizes == map[0 := 1] && s.redis.sizesEnd == 12.0 && s.limits == TEN_SECONDS
    ensures s.redis.snapshots == map[0 := Snapshot(1, 10.0, 10.0)]
    ensures 0 in s.renewals && s.renewals[0] == Renewal(1.1, 2.0, 8)
  {
    var s1 := FetchedOnce();
    var s2 := s1.(clock := 1.1);
    Waits(TEN_SECONDS, s1, 0.2);
    assert Remaining(s2, 0) == 8;
    var events, s3 := FetchAlone(s2, 0, 0, 0.9);
    ReachesOn(TEN_SECONDS, s2, events, s3);
    s := s3.(clock := 9.5);
    Waits(TEN_SECONDS, s3, 7.5);
  }

  lemma RoomAgain(s: System)
    requires Reachable(TEN_SECONDS, s) && s.limits == TEN_SECONDS && s.clock == 9.5
    requires s.redis.sizes == map[0 := 1] && Live(s.redis, 0, s.clock)
    requires 0 in s.renewals && s.renewals[0] == Renewal(1.1, 2.0, 8)
    ensures Fits(s, 1)
  {
    ScoreIsRenewal(TEN_SECONDS, s, 0);
    var none: map<Ref, nat> := map[];
    assert 0 in DueNow(s);
    assert SizesAt(s.redis, s.clock) - DueNow(s) == none && Total(none, SizeOf()) == 0;
  }

  /** A request that begins now can be about to delete a live snapshot whose window is closed. */
  lemma ClosedCanBePurged(limits: Limits, s: System, w: WorkerId, ref: Ref, size: nat, k: Ref)
    requires limits.Valid() && Reachable(limits, s) && w !in s.workers && ref !in s.refs && Fits(s, size)
    requires Live(s.redis, k, s.clock) && !RenewedPast(s, k, s.clock)
    ensures var ready := Prepared(s, w, ref, size);
            && Reachable(limits, ready) && Live(ready.redis, k, ready.clock)
            && Step(ready, Command(w)).Some?
            && var after := Step(ready, Command(w)).value; !Live(after.redis, k, after.clock)
  {
    var ready := Prepared(s, w, ref, size);
    PrepareAlone(s, w, ref, size);
    ReachesOn(limits, s, [BeginCache(w, ref, size)] + ([Command(w)] + ([Command(w)] + [Command(w)])), ready);
    FinishAlone(s, w, ref, size);
    var after := Step(ready, Command(w)).value;
    CachePurgesDue(limits, ready, w, after, k);
  }

  /**
   * The second does matter: the first fetch's window is open until 9.9, the second's, rounded, only
   * until 9.1, and a request that begins at 9.5 deletes the snapshot while it is live.
   */
  lemma RoundingLosesSnapshot() returns (s: System, s': System)
    ensures Reachable(TEN_SECONDS, s) && 0 in s.workers && s.workers[0].Caching? && s.workers[0].now == 9.5 < 0.9 + 9.0
    ensures Step(s, Command(0)) == Some(s') && Live(s.redis, 0, s.clock) && !Live(s'.redis, 0, s'.clock)
  {
    var before := FetchedTwice();
    RoomAgain(before);
    ClosedCanBePurged(TEN_SECONDS, before, 0, 1, 1, 0);
    s := Prepared(before, 0, 1, 1);
    s' := Step(s, Command(0)).value;
  }
}
