// Interleaved operations and the procedures that one process runs alone: what an operation commits
// is what its procedure would do at that instant, and with nobody in its way it does just that.

module ArtifactSerial {
  import opened Common
  import opened ArtifactTables
  import opened ArtifactProtocol
  import opened ArtifactInvariants
  import opened ArtifactRunProofs
  import opened ArtifactTheorems
  import opened ArtifactRegistry

  // ----- Every commit is current -----------------------------------------------------------------

  /** The reservation fits, and is recorded as asked for. */
  ghost predicate SerialReserve(s: Store, r: Reservation, e: Effect) {
    && e == InsertUpload(r.upload, UploadRow(r.user, r.size, Pending, r.expires, None))
    && 0 < r.size <= MAX_FILE_BYTES && QuotaUsed(s, r.user) + r.size <= MAX_QUOTA_BYTES && r.upload !in s.used
  }

  /** The upload, if any, is a received one of the caller's, its bytes are the file's, and the file fits. */
  ghost predicate SerialCreate(s: Store, c: Creation, e: Effect) {
    && e == InsertFile(c.file, NewRow(c.user, c.file, c.bytes, c.expires), c.upload)
    && |c.bytes| <= MAX_FILE_BYTES && c.file !in s.used
    && (c.upload.Some? ==>
          && c.upload.value in s.uploads && c.upload.value in s.staged && c.bytes == s.staged[c.upload.value]
          && s.uploads[c.upload.value].owner == c.user && s.uploads[c.upload.value].state == Uploaded
          && s.uploads[c.upload.value].size == |c.bytes| && s.uploads[c.upload.value].expires > c.began)
    && QuotaUsedExcept(s, c.user, c.upload) + |c.bytes| <= MAX_QUOTA_BYTES
  }

  /**
   * The row that is overwritten, not only the one read earlier, has the digest the caller expects; it
   * was visible when the transaction began (a deletion since then does not stop the update).
   */
  ghost predicate SerialUpdate(s: Store, w: Rewrite, e: Effect) {
    && w.file in s.files && s.files[w.file].owner == w.user
    && (w.expected.Some? ==> w.expected.value == s.files[w.file].digest)
    && Visible(s.files[w.file].(deleted := false), w.began)
    && |w.bytes| <= MAX_FILE_BYTES && QuotaUsed(s, w.user) - s.files[w.file].size + |w.bytes| <= MAX_QUOTA_BYTES
    && exists token :: token !in s.used && e == RewriteOf(s, w.file, w.bytes, token)
  }

  /** The bytes received are as many as reserved, and are what the staging file holds. */
  predicate SerialReceive(s: Store, p: Receipt, e: Effect) {
    && e.FinishUpload? && e.upload == p.upload && p.upload in s.uploads && p.upload !in s.staged
    && s.uploads[p.upload].owner == p.user && s.uploads[p.upload].state == Receiving
    && |e.received| == s.uploads[p.upload].size && Holds(s, Staged(p.upload), e.received)
  }

  /** What may be committed when. */
  ghost predicate Serial(s: Store, op: Op, e: Effect) {
    match e
    case InsertUpload(_, _) => op.Reserving? && SerialReserve(s, op.r, e)
    case InsertFile(_, _, _) => op.Creating? && SerialCreate(s, op.c, e)
    case RewriteFile(_, _, _, _, _, _) => op.Updating? && SerialUpdate(s, op.w, e)
    case FinishUpload(_, _) => op.ReceivingOp? && SerialReceive(s, op.p, e)
    case DeleteFile(f) => op.Expiring? && Claimed(s, f) && OffDisk(s, s.files[f].path)
    case MarkDeleted(f) => op.Expiring? && Claimed(s, f)
    case DeleteUpload(u) => op.Closing? && (u in s.uploads ==> Lapsed(s, u))
    case DeleteRetired(p) => op.Retiring? && p in s.retired && p !in s.disk
    case _ => true
  }

  predicate OffDisk(s: Store, p: Path) {
    p !in s.disk && Partial(p) !in s.disk
  }

  lemma UpdateIsSerial(s: System, op: Op, choice: Choice)
    requires Ready(s, op) && op.Updating? && NextMove(s, op, choice).Move?
    ensures Serial(s.db, op, NextMove(s, op, choice).effect)
  {
    var e := NextMove(s, op, choice).effect;
    if e.RewriteFile? {
      assert op.wAt.UWritten? && OwnName(op) == Some(op.wAt.path.token);
      assert e == RewriteOf(s.db, op.w.file, op.w.bytes, op.wAt.path.token);
    }
  }

  lemma CreateIsSerial(s: System, op: Op, choice: Choice)
    requires Ready(s, op) && op.Creating? && NextMove(s, op, choice).Move?
    ensures Serial(s.db, op, NextMove(s, op, choice).effect)
  {
    var e := NextMove(s, op, choice).effect;
    if e.InsertFile? {
      assert op.cAt.CWritten? && OwnName(op) == Some(op.c.file);
    }
  }

  lemma ReserveIsSerial(s: System, op: Op, choice: Choice)
    requires Ready(s, op) && op.Reserving? && NextMove(s, op, choice).Move?
    ensures Serial(s.db, op, NextMove(s, op, choice).effect)
  {
    assert OwnName(op) == Some(op.r.upload);
  }

  lemma ExpireIsSerial(s: System, op: Op, choice: Choice)
    requires Ready(s, op) && (op.Expiring? || op.Closing? || op.Retiring?) && NextMove(s, op, choice).Move?
    ensures Serial(s.db, op, NextMove(s, op, choice).effect)
  {
  }

  lemma ReceiveIsSerial(s: System, op: Op, choice: Choice)
    requires Ready(s, op) && op.ReceivingOp? && NextMove(s, op, choice).Move?
    ensures Serial(s.db, op, NextMove(s, op, choice).effect)
  {
  }

  /** The other operations commit nothing to a table but answers. */
  lemma OtherIsSerial(s: System, op: Op, choice: Choice)
    requires op.CleaningUp? || op.Snapshotting? || op.Sweeping? || op.Completing?
    requires NextMove(s, op, choice).Move?
    ensures Serial(s.db, op, NextMove(s, op, choice).effect)
  {
  }

  lemma MoveIsSerial(s: System, op: Op, choice: Choice)
    requires Ready(s, op) && NextMove(s, op, choice).Move?
    ensures Serial(s.db, op, NextMove(s, op, choice).effect)
  {
    if op.Reserving? {
      ReserveIsSerial(s, op, choice);
    } else if op.Creating? {
      CreateIsSerial(s, op, choice);
    } else if op.Updating? {
      UpdateIsSerial(s, op, choice);
    } else if op.Expiring? || op.Closing? || op.Retiring? {
      ExpireIsSerial(s, op, choice);
    } else if op.ReceivingOp? {
      ReceiveIsSerial(s, op, choice);
    } else {
      OtherIsSerial(s, op, choice);
    }
  }

  /** In every reachable state, whatever an operation commits next is what its procedure would do then. */
  lemma CommitsAreSerial(t: Timing, s: System, id: OpId, choice: Choice)
    requires Reachable(t, s) && id in s.ops
    ensures Serial(s.db, s.ops[id], EffectOf(s, Advance(id, choice)))
  {
    ReachableInv(t, s);
    if NextMove(s, s.ops[id], choice).Move? {
      MoveIsSerial(s, s.ops[id], choice);
    }
  }

  // ----- No lost update --------------------------------------------------------------------------

  /** The event commits contents with digest `d` for the file `f`. */
  ghost predicate RewritesTo(s: System, e: Event, f: Name, d: Digest) {
    EffectOf(s, e).RewriteFile? && EffectOf(s, e).file == f && EffectOf(s, e).digest == d
  }

  /** On the way from `s` through `events` somebody gives `f` contents with digest `d`. */
  ghost predicate Restores(s: System, events: seq<Event>, f: Name, d: Digest) {
    exists k, m :: RestoresAt(s, events, f, d, k, m)
  }

  ghost predicate RestoresAt(s: System, events: seq<Event>, f: Name, d: Digest, k: nat, m: System) {
    k < |events| && Run(s, events[..k]) == Some(m) && RewritesTo(m, events[k], f, d)
  }

  lemma EffectDigest(s: Store, t: Timing, me: Actor, e: Effect, f: Name)
    requires NamesInv(s) && Allowed(s, t, me, e) && f in s.used
    ensures f in Apply(s, e).used
    ensures f in Apply(s, e).files ==>
      && f in s.files
      && (Apply(s, e).files[f].digest == s.files[f].digest
          || (e.RewriteFile? && e.file == f && e.digest == Apply(s, e).files[f].digest))
  {
  }

  lemma StepDigest(s: System, e: Event, s': System, f: Name)
    requires Inv(s) && Step(s, e) == Some(s') && f in s.db.used
    ensures f in s'.db.used
    ensures f in s'.db.files ==>
      && f in s.db.files
      && (s'.db.files[f].digest == s.db.files[f].digest || RewritesTo(s, e, f, s'.db.files[f].digest))
  {
    match e
    case Advance(id, choice) =>
      MoveSound(s, s.ops[id], choice);
      EffectDigest(s.db, s.timing, ActorOf(s.ops[id]), NextMove(s, s.ops[id], choice).effect, f);
    case Begin(_, op, seen) =>
      BeginSound(s, op, seen);
      EffectDigest(s.db, s.timing, NOBODY, BeginEffect(op), f);
    case SoftDelete(_, _) =>
    case Tick(_) =>
    case Crash(_) =>
  }

  /** A file's digest changes only by a committed update to the new one. */
  lemma {:induction false} DigestChanges(s: System, events: seq<Event>, s': System, f: Name)
    requires Inv(s) && Run(s, events) == Some(s') && f in s.db.used && f in s'.db.files
    ensures f in s.db.files
    ensures s.db.files[f].digest == s'.db.files[f].digest || Restores(s, events, f, s'.db.files[f].digest)
    decreases |events|
  {
    if events != [] {
      var s1 := Step(s, events[0]).value;
      StepKeepsInv(s, events[0], s1);
      StepDigest(s, events[0], s1, f);
      DigestChanges(s1, events[1..], s', f);
      var d := s'.db.files[f].digest;
      if s1.db.files[f].digest != d {
        RestoresLater(s, events, f, d, s1);
      } else if s.db.files[f].digest != d {
        assert Run(s, events[..0]) == Some(s);
        assert RestoresAt(s, events, f, d, 0, s);
      }
    }
  }

  lemma RestoresLater(s: System, events: seq<Event>, f: Name, d: Digest, s1: System)
    requires events != [] && Step(s, events[0]) == Some(s1) && Restores(s1, events[1..], f, d)
    ensures Restores(s, events, f, d)
  {
    var k: nat, m :| RestoresAt(s1, events[1..], f, d, k, m);
    assert events[..k + 1][1..] == events[1..][..k];
    assert RestoresAt(s, events, f, d, k + 1, m);
  }

  /** The next step of operation `id` commits an update of `f`, made on the condition that its digest is `d`. */
  ghost predicate CommitsOn(s: System, id: OpId, choice: Choice, f: Name, d: Digest) {
    && id in s.ops && s.ops[id].Updating? && s.ops[id].w.file == f && s.ops[id].w.expected == Some(d)
    && EffectOf(s, Advance(id, choice)).RewriteFile?
  }

  lemma CommitSees(s: System, id: OpId, choice: Choice, f: Name, d: Digest)
    requires Inv(s) && CommitsOn(s, id, choice, f, d)
    ensures f in s.db.files && f in s.db.used && s.db.files[f].digest == d
    ensures exists token :: EffectOf(s, Advance(id, choice)) == RewriteOf(s.db, f, s.ops[id].w.bytes, token)
  {
    MoveIsSerial(s, s.ops[id], choice);
    assert FileNamed(s.db, f);
  }

  lemma CommitLeaves(s: System, id: OpId, choice: Choice, s': System, f: Name, d: Digest)
    requires Inv(s) && CommitsOn(s, id, choice, f, d) && Step(s, Advance(id, choice)) == Some(s')
    ensures f in s'.db.files && f in s'.db.used && s'.db.files[f].digest == Digest(s.ops[id].w.bytes)
  {
    CommitSees(s, id, choice, f, d);
  }

  /**
   * Of two updates made on the same condition only one commits, unless the first changed nothing or
   * somebody restored the expected contents between them.
   */
  lemma NoLostUpdate(
    t: Timing, s: System, i: OpId, choice: Choice, s1: System, events: seq<Event>, s2: System, j: OpId, choice2: Choice,
    f: Name, d: Digest)
    requires Reachable(t, s) && CommitsOn(s, i, choice, f, d) && Step(s, Advance(i, choice)) == Some(s1)
    requires Run(s1, events) == Some(s2) && CommitsOn(s2, j, choice2, f, d)
    ensures Digest(s.ops[i].w.bytes) == d || Restores(s1, events, f, d)
  {
    ReachableInv(t, s);
    CommitLeaves(s, i, choice, s1, f, d);
    StepKeepsInv(s, Advance(i, choice), s1);
    RunKeepsInv(s1, events, s2);
    CommitSees(s2, j, choice2, f, d);
    DigestChanges(s1, events, s2, f);
  }
}
