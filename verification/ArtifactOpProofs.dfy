/** What an operation knows survives every allowed effect of the others. */
module ArtifactOpProofs {
  import opened Common
  import opened ArtifactTables
  import opened ArtifactProtocol
  import opened ArtifactInvariants
  import opened ArtifactTableProofs

  /** The actor `me` is not `op` and holds nothing that `op` holds. */
  predicate Apart(me: Actor, op: Op) {
    && (me.lock.Some? ==> me.lock != LockOf(op))
    && (me.own.Some? ==> me.own != OwnName(op))
    && (me.receipt.Some? ==> me.receipt != ReceiptOf(op))
  }

  lemma OwnKept(s: Store, t: Timing, me: Actor, e: Effect, op: Op)
    requires Allowed(s, t, me, e) && Apart(me, op) && OwnInv(s, op)
    ensures OwnInv(Apply(s, e), op)
  {
  }

  lemma ReserveKept(s: Store, t: Timing, me: Actor, e: Effect, op: Op)
    requires NamesInv(s) && Allowed(s, t, me, e) && Apart(me, op) && op.Reserving? && Knows(s, t, op)
    ensures Knows(Apply(s, e), t, op)
  {
    if op.rAt.RFits? {
      OtherTotals(s, t, me, e, op.r.user);
    }
  }

  lemma WrittenKept(s: Store, t: Timing, me: Actor, e: Effect, p: Path, bytes: Bytes, at: Time)
    requires Allowed(s, t, me, e) && IsBlob(p) && NameOf(p) !in s.used && me.own != Some(NameOf(p))
    requires WrittenBlob(s, t, p, bytes, at)
    ensures WrittenBlob(Apply(s, e), t, p, bytes, at)
  {
  }

  lemma AdmittedKept(s: Store, t: Timing, me: Actor, e: Effect, c: Creation)
    requires NamesInv(s) && Allowed(s, t, me, e) && me.lock != Some(c.user) && AdmittedUpload(s, c)
    ensures AdmittedUpload(Apply(s, e), c)
  {
  }

  lemma FitsKept(s: Store, t: Timing, me: Actor, e: Effect, c: Creation)
    requires NamesInv(s) && Allowed(s, t, me, e)
    requires me.lock != Some(c.user) && AdmittedUpload(s, c) && CreationFits(s, c)
    ensures CreationFits(Apply(s, e), c)
  {
    OtherTotals(s, t, me, e, c.user);
    AdmittedKept(s, t, me, e, c);
    if c.upload.Some? {
      ExceptOf(s, c.user, c.upload.value);
      ExceptOf(Apply(s, e), c.user, c.upload.value);
    }
  }

  lemma CreateKept(s: Store, t: Timing, me: Actor, e: Effect, op: Op)
    requires NamesInv(s) && Allowed(s, t, me, e) && Apart(me, op) && op.Creating? && Knows(s, t, op) && OwnInv(s, op)
    ensures Knows(Apply(s, e), t, op)
  {
    var c, at := op.c, op.cAt;
    assert Apply(s, e).clock == s.clock;
    assert c.file in Apply(s, e).issued && Apply(s, e).issued[c.file] == c.user;
    if at.CAdmitted? || at.CFits? || at.CWritten? {
      AdmittedKept(s, t, me, e, c);
    }
    if at.CFits? || at.CWritten? {
      FitsKept(s, t, me, e, c);
    }
    if at.CWritten? {
      WrittenKept(s, t, me, e, Blob(c.file), c.bytes, at.at);
    }
  }

  /** Without its owner's lock a row can only be marked deleted. */
  lemma RowKept(s: Store, t: Timing, me: Actor, e: Effect, f: Name)
    requires NamesInv(s) && Allowed(s, t, me, e) && f in s.files && me.lock != Some(s.files[f].owner)
    ensures f in Apply(s, e).files && Apply(s, e).files[f] in {s.files[f], s.files[f].(deleted := true)}
    ensures Apply(s, e).clock == s.clock
  {
    assert FileNamed(s, f);
  }

  lemma SameRowKept(s: Store, t: Timing, me: Actor, e: Effect, w: Rewrite, row: FileRow)
    requires NamesInv(s) && Allowed(s, t, me, e) && me.lock != Some(w.user) && SameRow(s, w, row)
    ensures SameRow(Apply(s, e), w, row)
  {
    RowKept(s, t, me, e, w.file);
  }

  lemma UpdateKept(s: Store, t: Timing, me: Actor, e: Effect, op: Op)
    requires NamesInv(s) && Allowed(s, t, me, e) && Apart(me, op) && op.Updating? && Knows(s, t, op) && OwnInv(s, op)
    ensures Knows(Apply(s, e), t, op)
  {
    var w, at := op.w, op.wAt;
    assert Apply(s, e).clock == s.clock;
    if HasRow(at) {
      SameRowKept(s, t, me, e, w, at.row);
      OtherTotals(s, t, me, e, w.user);
    }
    if at.UWritten? {
      WrittenKept(s, t, me, e, at.path, w.bytes, at.at);
    }
  }

  lemma GoneKept(s: Store, t: Timing, me: Actor, e: Effect, f: Name, path: Path)
    requires NamesInv(s) && Allowed(s, t, me, e) && f in s.files
    requires me.lock != Some(s.files[f].owner) && GoneFile(s, f, path)
    ensures GoneFile(Apply(s, e), f, path)
  {
    RowKept(s, t, me, e, f);
  }

  /** A row's blob that is off the disk stays off. */
  lemma MissingKept(s: Store, t: Timing, me: Actor, e: Effect, path: Path)
    requires Allowed(s, t, me, e) && path !in s.disk
    requires (IsBlob(path) && NameOf(path) in s.used) || path.BlobPartial? || path.VersionPartial?
    ensures path !in Apply(s, e).disk
  {
  }

  lemma ClaimedKept(s: Store, t: Timing, me: Actor, e: Effect, f: Name)
    requires NamesInv(s) && Allowed(s, t, me, e) && f in s.files && me.lock != Some(s.files[f].owner)
    requires !Visible(s.files[f], s.clock)
    ensures f in Apply(s, e).files && !Visible(Apply(s, e).files[f], s.clock)
    ensures Apply(s, e).files[f].path == s.files[f].path
  {
    RowKept(s, t, me, e, f);
  }

  lemma ExpireKept(s: Store, t: Timing, me: Actor, e: Effect, op: Op)
    requires NamesInv(s) && Allowed(s, t, me, e) && Apart(me, op) && op.Expiring? && Knows(s, t, op)
    ensures Knows(Apply(s, e), t, op)
  {
    ExpireNamed(s, t, me, e, op);
    if op.eAt.EClaimed? || op.eAt.EHalf? {
      ExpiringKept(s, t, me, e, op);
    } else if op.eAt.EGone? || op.eAt.EKept? {
      ExpiredKept(s, t, me, e, op);
    }
  }

  lemma ExpiringKept(s: Store, t: Timing, me: Actor, e: Effect, op: Op)
    requires op.Expiring? && (op.eAt.EClaimed? || op.eAt.EHalf?)
    requires NamesInv(s) && Allowed(s, t, me, e) && me.lock != Some(op.user) && KnowsExpire(s, op)
    ensures GoneFile(Apply(s, e), op.file, op.eAt.path)
    ensures op.eAt.EHalf? ==> op.eAt.path !in Apply(s, e).disk
  {
    ExpireNamed(s, t, me, e, op);
    GoneKept(s, t, me, e, op.file, op.eAt.path);
    if op.eAt.EHalf? {
      MissingKept(s, t, me, e, op.eAt.path);
    }
  }

  lemma ExpiredKept(s: Store, t: Timing, me: Actor, e: Effect, op: Op)
    requires op.Expiring? && (op.eAt.EGone? || op.eAt.EKept?)
    requires NamesInv(s) && Allowed(s, t, me, e) && me.lock != Some(op.user) && KnowsExpire(s, op)
    ensures op.file in Apply(s, e).files && !Visible(Apply(s, e).files[op.file], s.clock)
    ensures op.eAt.EGone? ==>
      && Apply(s, e).files[op.file].path !in Apply(s, e).disk
      && Partial(Apply(s, e).files[op.file].path) !in Apply(s, e).disk
  {
    ExpireNamed(s, t, me, e, op);
    ClaimedKept(s, t, me, e, op.file);
    if op.eAt.EGone? {
      MissingKept(s, t, me, e, s.files[op.file].path);
      MissingKept(s, t, me, e, Partial(s.files[op.file].path));
    }
  }

  lemma IssuedKept(s: Store, t: Timing, me: Actor, e: Effect, n: Name)
    requires Allowed(s, t, me, e) && n in s.issued
    ensures n in Apply(s, e).issued && Apply(s, e).issued[n] == s.issued[n]
    ensures n in s.used ==> n in Apply(s, e).used
  {
  }

  lemma ExpireNamed(s: Store, t: Timing, me: Actor, e: Effect, op: Op)
    requires NamesInv(s) && Allowed(s, t, me, e) && op.Expiring? && KnowsExpire(s, op)
    ensures op.file in s.files ==> s.files[op.file].owner == op.user && IsBlob(s.files[op.file].path)
    ensures op.file in s.files ==> NameOf(s.files[op.file].path) in s.used
    ensures op.file in Apply(s, e).used && op.file in Apply(s, e).issued && Apply(s, e).issued[op.file] == op.user
    ensures Apply(s, e).clock == s.clock
  {
    IssuedKept(s, t, me, e, op.file);
    if op.file in s.files {
      assert FileNamed(s, op.file);
    }
  }

  lemma CloseKept(s: Store, t: Timing, me: Actor, e: Effect, op: Op)
    requires NamesInv(s) && Allowed(s, t, me, e) && Apart(me, op) && op.Closing? && Knows(s, t, op)
    ensures Knows(Apply(s, e), t, op)
  {
    assert op.upload in Apply(s, e).uploads ==>
      op.upload in s.uploads && Apply(s, e).uploads[op.upload].expires == s.uploads[op.upload].expires;
  }

  lemma RetireKept(s: Store, t: Timing, me: Actor, e: Effect, op: Op)
    requires NamesInv(s) && Allowed(s, t, me, e) && Apart(me, op) && op.Retiring? && Knows(s, t, op)
    ensures Knows(Apply(s, e), t, op)
  {
  }

  lemma YoungKept(s: Store, t: Timing, me: Actor, e: Effect, p: Path, since: Time)
    requires Allowed(s, t, me, e) && Young(s, p, since) && since <= s.clock && !p.Staged?
    ensures Young(Apply(s, e), p, since)
  {
  }

  lemma ReconcileKept(s: Store, t: Timing, me: Actor, e: Effect, live: set<Path>, at: Time)
    requires NamesInv(s) && Allowed(s, t, me, e) && KnowsReconcile(s, t, live, at)
    ensures KnowsReconcile(Apply(s, e), t, live, at)
  {
    var s' := Apply(s, e);
    forall f | f in s'.files
      ensures s'.files[f].path in live || Young(s', s'.files[f].path, at - t.write)
    {
      ReconcileFileKept(s, t, me, e, live, at, f);
    }
  }

  lemma ReconcileFileKept(s: Store, t: Timing, me: Actor, e: Effect, live: set<Path>, at: Time, f: Name)
    requires NamesInv(s) && Allowed(s, t, me, e) && KnowsReconcile(s, t, live, at) && f in Apply(s, e).files
    ensures Apply(s, e).files[f].path in live || Young(Apply(s, e), Apply(s, e).files[f].path, at - t.write)
  {
    if e.InsertFile? && f == e.file {
    } else if e.RewriteFile? && f == e.file {
    } else {
      assert f in s.files && Apply(s, e).files[f].path == s.files[f].path;
      assert FileNamed(s, f);
      if s.files[f].path !in live {
        YoungKept(s, t, me, e, s.files[f].path, at - t.write);
      }
    }
  }

  lemma HoldsKept(s: Store, t: Timing, me: Actor, e: Effect, u: Name, bytes: Bytes)
    requires Allowed(s, t, me, e) && me.receipt != Some(u) && Holds(s, StagedPartial(u), bytes)
    ensures Holds(Apply(s, e), StagedPartial(u), bytes)
  {
  }

  lemma ReceiveKept(s: Store, t: Timing, me: Actor, e: Effect, op: Op)
    requires NamesInv(s) && Allowed(s, t, me, e) && Apart(me, op) && op.ReceivingOp? && Knows(s, t, op)
    ensures Knows(Apply(s, e), t, op)
  {
    var p, at := op.p, op.pAt;
    ReceiveRowKept(s, t, me, e, p);
    if at.PStreaming? || at.PFull? {
      HoldsKept(s, t, me, e, p.upload, at.got);
    } else if at.PPlaced? {
      PlacedKept(s, t, me, e, p, at.got);
    }
  }

  predicate ReceiveRow(s: Store, p: Receipt) {
    p.upload in s.used && p.upload !in s.staged &&
    (p.upload in s.uploads ==>
       s.uploads[p.upload].owner == p.user && s.uploads[p.upload].size == p.expected
       && s.uploads[p.upload].state == Receiving)
  }

  lemma ReceiveRowKept(s: Store, t: Timing, me: Actor, e: Effect, p: Receipt)
    requires NamesInv(s) && Allowed(s, t, me, e) && me.receipt != Some(p.upload) && ReceiveRow(s, p)
    ensures ReceiveRow(Apply(s, e), p)
    ensures p.upload in Apply(s, e).uploads ==>
      p.upload in s.uploads && Apply(s, e).uploads[p.upload].expires == s.uploads[p.upload].expires
  {
  }

  lemma PlacedKept(s: Store, t: Timing, me: Actor, e: Effect, p: Receipt, got: Bytes)
    requires NamesInv(s) && Allowed(s, t, me, e) && me.receipt != Some(p.upload) && ReceiveRow(s, p)
    requires Holds(s, Staged(p.upload), got)
    requires p.upload in s.uploads && s.uploads[p.upload].expires > s.clock ==> Staged(p.upload) in s.disk
    ensures Holds(Apply(s, e), Staged(p.upload), got)
    ensures p.upload in Apply(s, e).uploads && Apply(s, e).uploads[p.upload].expires > s.clock ==>
      Staged(p.upload) in Apply(s, e).disk
  {
    ReceiveRowKept(s, t, me, e, p);
  }

  lemma KnowsKept(s: Store, t: Timing, me: Actor, e: Effect, op: Op)
    requires NamesInv(s) && Allowed(s, t, me, e) && Apart(me, op) && Knows(s, t, op) && OwnInv(s, op)
    ensures Knows(Apply(s, e), t, op) && OwnInv(Apply(s, e), op)
  {
    OwnKept(s, t, me, e, op);
    match op
    case Reserving(_, _) => ReserveKept(s, t, me, e, op);
    case Creating(_, _) => CreateKept(s, t, me, e, op);
    case Updating(_, _) => UpdateKept(s, t, me, e, op);
    case CleaningUp(_, _) =>
    case Expiring(_, _, _, _) => ExpireKept(s, t, me, e, op);
    case Closing(_, _, _, _) => CloseKept(s, t, me, e, op);
    case Retiring(_, _, _) => RetireKept(s, t, me, e, op);
    case Snapshotting(live, at) => ReconcileKept(s, t, me, e, live, at);
    case Sweeping(live, at, _) => ReconcileKept(s, t, me, e, live, at);
    case ReceivingOp(_, _) => ReceiveKept(s, t, me, e, op);
    case Completing(_, _, _) =>
  }
}
