/** What the protocol guarantees at every point of every run. */
module ArtifactTheorems {
  import opened Common
  import opened ArtifactTables
  import opened ArtifactProtocol
  import opened ArtifactInvariants
  import opened ArtifactRunProofs

  ghost predicate Reachable(t: Timing, s: System) {
    exists events :: Run(Initial(t), events) == Some(s)
  }

  lemma ReachableInv(t: Timing, s: System)
    requires Reachable(t, s)
    ensures Inv(s) && s.timing == t
  {
    var events :| Run(Initial(t), events) == Some(s);
    InitialInv(t);
    RunKeepsInv(Initial(t), events, s);
  }

  /**
   * Quota, in every interleaving and however often an unlink fails: stored files and unfinished
   * reservations stay within the quota; with the retired blobs, within one file of it.
   */
  lemma QuotaBounds(t: Timing, s: System, user: UserId)
    requires Reachable(t, s)
    ensures LiveBytes(s.db, user) <= 100 * 1024 * 1024
    ensures QuotaUsed(s.db, user) <= (100 + 10) * 1024 * 1024
  {
    ReachableInv(t, s);
  }

  ghost predicate Unlinks(s: System, e: Event, p: Path) {
    Step(s, e).Some? && EffectOf(s, e) == Unlink(p)
  }

  /** No visible row of the `files` table references `p`. */
  ghost predicate Unreferenced(s: Store, p: Path) {
    forall f :: f in s.files && s.files[f].path == p ==> !Visible(s.files[f], s.clock)
  }

  /** Every visible file is intact, and the next unlink, whoever makes it, spares every visible file. */
  ghost predicate FilesSafe(s: System) {
    BlobInv(s.db) && forall e, p :: Unlinks(s, e, p) ==> Unreferenced(s.db, p)
  }

  lemma UnlinkIsMove(s: System, e: Event, p: Path)
    requires Unlinks(s, e, p)
    ensures e.Advance? && e.id in s.ops
    ensures NextMove(s, s.ops[e.id], e.choice).Move? && NextMove(s, s.ops[e.id], e.choice).effect == Unlink(p)
  {
  }

  lemma MoveAllowed(s: System, op: Op, move: Move, p: Path)
    requires Sound(s, op, move) && move.Move? && move.effect == Unlink(p)
    ensures AllowedUnlink(s.db, s.timing, ActorOf(op), p)
  {
  }

  lemma InFlightIsReady(s: System, id: OpId)
    requires Inv(s) && id in s.ops
    ensures Ready(s, s.ops[id])
  {
  }

  /** The next unlink is one that the operation making it is entitled to. */
  lemma UnlinkAllowed(s: System, e: Event, p: Path)
    requires Inv(s) && Unlinks(s, e, p)
    ensures e.Advance? && e.id in s.ops && AllowedUnlink(s.db, s.timing, ActorOf(s.ops[e.id]), p)
  {
    UnlinkIsMove(s, e, p);
    var op := s.ops[e.id];
    InFlightIsReady(s, e.id);
    MoveSound(s, op, e.choice);
    MoveAllowed(s, op, NextMove(s, op, e.choice), p);
  }

  /** What may be unlinked is no visible row's blob. */
  lemma AllowedIsUnreferenced(s: Store, t: Timing, me: Actor, p: Path)
    requires t.Timely() && NamesInv(s) && AllowedUnlink(s, t, me, p)
    ensures Unreferenced(s, p)
  {
    if !IsBlob(p) {
      assert forall f :: f in s.files ==> FileNamed(s, f);
    }
  }

  lemma TimelyFilesSafe(t: Timing, s: System)
    requires t.Timely() && Reachable(t, s)
    ensures FilesSafe(s)
  {
    ReachableInv(t, s);
    forall e, p | Unlinks(s, e, p)
      ensures Unreferenced(s.db, p)
    {
      UnlinkAllowed(s, e, p);
      AllowedIsUnreferenced(s.db, s.timing, ActorOf(s.ops[e.id]), p);
    }
  }

  // ----- The orphan threshold is exactly enough ------------------------------------------------

  // A creation and a reconciliation overlap: the snapshot of live paths precedes the commit, the
  // reading of the clock follows it. `Racing(t, k)` is the system after k of the events `Race(t)`.

  const RACER := Creation(0, 0, [], None, None, 0)

  function Race(t: Timing): seq<Event> {
    [Begin(0, Creating(RACER, CWaiting), 0),
     Advance(0, Go), Advance(0, Go), Advance(0, Go), Advance(0, Go),
     Tick(t.write),
     Begin(1, Snapshotting({}, t.write), 0),
     Advance(0, Go),
     Tick(t.query),
     Advance(1, Go)]
  }

  function RacingStore(t: Timing, k: nat): Store {
    var db := EmptyStore().(clock := if k < 6 then 0 else if k < 9 then t.write else t.write + t.query);
    var db := if k >= 1 then db.(issued := map[0 := 0]) else db;
    var db := if k >= 5 then db.(disk := map[Blob(0) := DiskFile([], 0)]) else db;
    if k >= 8 then db.(files := map[0 := FileRow(0, 0, Digest([]), Blob(0), 1, None, false)], used := {0}) else db
  }

  function RacingOps(t: Timing, k: nat): map<OpId, Op> {
    if k == 0 then map[]
    else if k == 1 then map[0 := Creating(RACER, CWaiting)]
    else if k == 2 then map[0 := Creating(RACER, CLocked)]
    else if k == 3 then map[0 := Creating(RACER, CAdmitted)]
    else if k == 4 then map[0 := Creating(RACER, CFits)]
    else if k <= 6 then map[0 := Creating(RACER, CWritten(0))]
    else if k == 7 then map[0 := Creating(RACER, CWritten(0)), 1 := Snapshotting({}, t.write)]
    else if k <= 9 then map[1 := Snapshotting({}, t.write)]
    else map[1 := Sweeping({}, t.write, t.write + t.query - ORPHAN_AGE)]
  }

  function Racing(t: Timing, k: nat): System {
    System(t, RacingStore(t, k), RacingOps(t, k))
  }

  lemma RacingBegins(t: Timing)
    ensures Step(Racing(t, 0), Race(t)[0]) == Some(Racing(t, 1))
  {
    var s, s' := Racing(t, 0), Racing(t, 1);
    assert s.ops[0 := Creating(RACER, CWaiting)] == s'.ops;
    assert s.db.issued[0 := 0] == s'.db.issued;
  }

  lemma AdvanceOnly(s: System, op': Op)
    requires 0 in s.ops && NextMove(s, s.ops[0], Go) == To(op')
    ensures Step(s, Advance(0, Go)) == Some(s.(ops := s.ops[0 := op']))
  {
  }

  lemma RacingLocks(t: Timing)
    ensures Step(Racing(t, 1), Race(t)[1]) == Some(Racing(t, 2))
  {
    var s := Racing(t, 1);
    assert MoveCreate(s, RACER, CWaiting, Go) == To(Creating(RACER, CLocked));
    AdvanceOnly(s, Creating(RACER, CLocked));
    assert s.ops[0 := Creating(RACER, CLocked)] == RacingOps(t, 2);
  }

  lemma RacingAdmits(t: Timing)
    ensures Step(Racing(t, 2), Race(t)[2]) == Some(Racing(t, 3))
  {
    var s := Racing(t, 2);
    AdvanceOnly(s, Creating(RACER, CAdmitted));
    assert s.ops[0 := Creating(RACER, CAdmitted)] == RacingOps(t, 3);
  }

  /** With no row in any table, a creation fits. */
  lemma EmptyStoreFits(s: System, c: Creation, s': System)
    requires s.db.files.Keys == {} && s.db.uploads.Keys == {} && s.db.retired.Keys == {}
    requires c.upload == None && |c.bytes| == 0 && 0 in s.ops && s.ops[0] == Creating(c, CAdmitted)
    requires s' == s.(ops := s.ops[0 := Creating(c, CFits)])
    ensures Step(s, Advance(0, Go)) == Some(s')
  {
    assert s.db.files == map[] && s.db.uploads == map[] && s.db.retired == map[];
    assert QuotaUsed(s.db, c.user) == 0;
    AdvanceOnly(s, Creating(c, CFits));
  }

  lemma RacingFits(t: Timing)
    ensures Step(Racing(t, 3), Race(t)[3]) == Some(Racing(t, 4))
  {
    var s := Racing(t, 3);
    assert s.ops[0 := Creating(RACER, CFits)] == RacingOps(t, 4);
    EmptyStoreFits(s, RACER, Racing(t, 4));
  }

  lemma RacingWrites(t: Timing)
    ensures Step(Racing(t, 4), Race(t)[4]) == Some(Racing(t, 5))
  {
    var s, s' := Racing(t, 4), Racing(t, 5);
    assert s.ops[0 := s'.ops[0]] == s'.ops;
    assert s.db.disk[Blob(0) := DiskFile([], 0)] == s'.db.disk;
  }

  lemma RacingCommits(t: Timing)
    ensures Step(Racing(t, 7), Race(t)[7]) == Some(Racing(t, 8))
  {
    var s := Racing(t, 7);
    assert s.ops - {0} == Racing(t, 8).ops;
    assert s.db.used + {0} == Racing(t, 8).db.used;
    assert CompleteUpload(s.db.uploads, None, 0) == s.db.uploads;
    assert s.db.files[0 := FileRow(0, 0, Digest([]), Blob(0), 1, None, false)] == Racing(t, 8).db.files;
  }

  lemma RacingReconciles(t: Timing, k: nat)
    requires 5 <= k < 10 && k != 7
    ensures Step(Racing(t, k), Race(t)[k]) == Some(Racing(t, k + 1))
  {
    var s, s' := Racing(t, k), Racing(t, k + 1);
    if k == 6 {
      assert LivePaths(s.db) == {};
      assert s.ops[1 := s'.ops[1]] == s'.ops;
    } else if k == 9 {
      assert s.ops[1 := s'.ops[1]] == s'.ops;
    }
  }

  lemma RacingCreates(t: Timing, k: nat)
    requires k < 5
    ensures Step(Racing(t, k), Race(t)[k]) == Some(Racing(t, k + 1))
  {
    if k == 0 {
      RacingBegins(t);
    } else if k == 1 {
      RacingLocks(t);
    } else if k == 2 {
      RacingAdmits(t);
    } else if k == 3 {
      RacingFits(t);
    } else {
      RacingWrites(t);
    }
  }

  lemma RacingStep(t: Timing, k: nat)
    requires k < 10
    ensures Step(Racing(t, k), Race(t)[k]) == Some(Racing(t, k + 1))
  {
    if k < 5 {
      RacingCreates(t, k);
    } else if k == 7 {
      RacingCommits(t);
    } else {
      RacingReconciles(t, k);
    }
  }

  lemma {:induction false} RacingRuns(t: Timing, k: nat)
    requires k <= 10
    ensures Run(Racing(t, k), Race(t)[k..]) == Some(Racing(t, 10))
    decreases 10 - k
  {
    if k < 10 {
      RacingStep(t, k);
      RacingRuns(t, k + 1);
      assert Race(t)[k..] == [Race(t)[k]] + Race(t)[k + 1..];
    }
  }

  /** If the two delays together exceed the threshold, a run ends with a visible file about to be unlinked. */
  lemma LateFilesUnsafe(t: Timing)
    requires !t.Timely()
    ensures exists s :: Reachable(t, s) && !FilesSafe(s)
  {
    var s := Racing(t, 10);
    RacingRuns(t, 0);
    assert Race(t)[0..] == Race(t) && Racing(t, 0) == Initial(t);
    assert Reachable(t, s);
    var e := Advance(1, Target(Blob(0)));
    assert Unlinks(s, e, Blob(0));
    assert s.db.files[0].path == Blob(0) && Visible(s.db.files[0], s.db.clock);
    assert !Unreferenced(s.db, Blob(0));
  }

  /** The exact condition: files are safe in every run if and only if the threshold covers both delays. */
  lemma FilesSafeIffTimely(t: Timing)
    ensures t.write + t.query <= 3600 <==> forall s :: Reachable(t, s) ==> FilesSafe(s)
  {
    if t.Timely() {
      forall s | Reachable(t, s)
        ensures FilesSafe(s)
      {
        TimelyFilesSafe(t, s);
      }
    } else {
      LateFilesUnsafe(t);
    }
  }

  // ----- Upload sessions -------------------------------------------------------------------------

  lemma OneReceiver(t: Timing, s: System, i: OpId, j: OpId)
    requires Reachable(t, s) && i in s.ops && j in s.ops
    requires s.ops[i].ReceivingOp? && s.ops[j].ReceivingOp? && s.ops[i].p.upload == s.ops[j].p.upload
    ensures i == j
  {
    ReachableInv(t, s);
    assert i != j ==> Compatible(s.ops[i], s.ops[j]);
  }

  /** An unexpired `uploaded` session has exactly its reserved bytes staged: those its request received. */
  lemma UploadedBytesStaged(t: Timing, s: System, u: Name)
    requires Reachable(t, s)
    requires u in s.db.uploads && s.db.uploads[u].state == Uploaded && s.db.uploads[u].expires > s.db.clock
    ensures Staged(u) in s.db.disk && |s.db.disk[Staged(u)].bytes| == s.db.uploads[u].size
    ensures u in s.db.staged && s.db.disk[Staged(u)].bytes == s.db.staged[u]
  {
    ReachableInv(t, s);
  }

  /** However completions mix: one file per upload, and every successful one returns that file. */
  lemma CompletionsAgree(t: Timing, s: System, u: Name)
    requires Reachable(t, s)
    ensures forall f, g :: (u, f) in s.db.registered && (u, g) in s.db.registered ==> f == g
    ensures forall f :: (u, f) in s.db.answers ==> (u, f) in s.db.registered
  {
    ReachableInv(t, s);
  }

  /** A registered file that no update has rewritten records the digest of the bytes its upload received. */
  lemma RegisteredIsReceived(t: Timing, s: System, u: Name, f: Name)
    requires Reachable(t, s) && (u, f) in s.db.registered && f in s.db.files && s.db.files[f].version == 1
    ensures u in s.db.staged && s.db.files[f].digest == Digest(s.db.staged[u])
  {
    ReachableInv(t, s);
  }
}
