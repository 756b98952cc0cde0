/** What the tables and disk always satisfy, what each phase knows, and which effects are allowed when. */
module ArtifactInvariants {
  import opened Common
  import opened ArtifactTables
  import opened ArtifactProtocol

  // ----- Tables and disk -------------------------------------------------------------------------

  /** Names: every row belongs to the user its name was drawn for, and paths carry their row's name. */
  ghost predicate NamesInv(s: Store) {
    && s.used <= s.issued.Keys
    && (forall f :: f in s.files ==> FileNamed(s, f))
    && (forall u :: u in s.uploads ==> u in s.used && s.issued[u] == s.uploads[u].owner)
    && (forall p :: p in s.retired ==> IsBlob(p) && NameOf(p) in s.used)
    && (forall f, p :: f in s.files && p in s.retired ==> s.files[f].path != p)
    && (forall p :: p in s.disk && p.Staged? ==> p.upload in s.used)
    && (forall p :: p in s.disk && p.StagedPartial? ==> p.upload in s.used)
  }

  ghost predicate FileNamed(s: Store, f: Name)
    requires f in s.files
  {
    var row := s.files[f];
    && f in s.used && f in s.issued && s.issued[f] == row.owner
    && IsBlob(row.path) && row.path.file == f && NameOf(row.path) in s.used
  }

  /** The blob at `path` is on disk with the recorded size and hash. */
  predicate Intact(s: Store, path: Path, size: nat, digest: Digest) {
    path in s.disk && |s.disk[path].bytes| == size && Digest(s.disk[path].bytes) == digest
  }

  /** What every finished upload received is what its staging file holds, as long as there is one. */
  ghost predicate ReceivedInv(s: Store) {
    && (forall u :: u in s.staged ==> u in s.used && Holds(s, Staged(u), s.staged[u]))
    && (forall u :: u in s.uploads && s.uploads[u].state == Uploaded ==>
          u in s.staged && |s.staged[u]| == s.uploads[u].size)
    && (forall u :: u in s.uploads && u in s.staged ==>
          s.uploads[u].state == Uploaded || s.uploads[u].state == Complete)
  }

  /** Every visible row points at a blob with exactly its recorded size and hash. */
  ghost predicate BlobInv(s: Store) {
    forall f :: f in s.files && Visible(s.files[f], s.clock) ==>
      Intact(s, s.files[f].path, s.files[f].size, s.files[f].digest)
  }

  /** Every unexpired uploaded session has a staging file. */
  ghost predicate StagingInv(s: Store) {
    forall u :: u in s.uploads && s.uploads[u].state == Uploaded && s.uploads[u].expires > s.clock ==>
      Staged(u) in s.disk
  }

  /** Sessions live a fixed time, so their staging files are never old while they are unexpired. */
  ghost predicate TtlInv(s: Store) {
    forall u :: u in s.uploads ==> TtlOf(s, u)
  }

  predicate TtlOf(s: Store, u: Name)
    requires u in s.uploads
  {
    && s.uploads[u].expires <= s.clock + UPLOAD_TTL
    && YoungFor(s, Staged(u), s.uploads[u].expires) && YoungFor(s, StagedPartial(u), s.uploads[u].expires)
  }

  /** A file at `path` was written within the life of a session that expires at `expires`. */
  predicate YoungFor(s: Store, path: Path, expires: Time) {
    path in s.disk ==> expires <= s.disk[path].mtime + UPLOAD_TTL
  }

  /** Completions: one file per upload, and only that file is ever returned for it. */
  ghost predicate RegistryInv(s: Store) {
    SingleInv(s) && OriginInv(s)
  }

  /** Registrations are of finished uploads; an unrewritten registered file holds what the upload received. */
  ghost predicate OriginInv(s: Store) {
    && (forall u, f :: (u, f) in s.registered ==> u in s.used && u in s.staged && f in s.used)
    && (forall u, f :: (u, f) in s.registered && f in s.files && s.files[f].version == 1 ==>
          s.files[f].digest == Digest(s.staged[u]))
  }

  ghost predicate SingleInv(s: Store) {
    && (forall u, f, g :: (u, f) in s.registered && (u, g) in s.registered ==> f == g)
    && (forall u, f :: (u, f) in s.registered && u in s.uploads ==> s.uploads[u].state == Complete)
    && (forall u :: u in s.uploads && s.uploads[u].file.Some? ==> (u, s.uploads[u].file.value) in s.registered)
    && s.answers <= s.registered
  }

  ghost predicate SizeInv(s: Store) {
    forall f :: f in s.files ==> s.files[f].size <= MAX_FILE_BYTES && s.files[f].version >= 1
  }

  ghost predicate QuotaInv(s: Store) {
    && (forall user: UserId :: LiveBytes(s, user) <= MAX_QUOTA_BYTES)
    && (forall user: UserId :: QuotaUsed(s, user) <= MAX_QUOTA_BYTES + MAX_FILE_BYTES)
  }

  ghost predicate TableInv(s: Store, t: Timing) {
    && NamesInv(s) && ReceivedInv(s) && RegistryInv(s) && SizeInv(s) && QuotaInv(s) && TtlInv(s) && StagingInv(s)
    && (t.Timely() ==> BlobInv(s))
  }

  // ----- What an operation knows in each phase ---------------------------------------------------

  /** The upload a creation registers is admitted: unexpired, uploaded, with as many bytes as were read. */
  predicate AdmittedUpload(s: Store, c: Creation) {
    c.upload.Some? ==>
      c.upload.value in s.uploads && s.uploads[c.upload.value].owner == c.user
      && s.uploads[c.upload.value].state == Uploaded && s.uploads[c.upload.value].size == |c.bytes|
      && s.uploads[c.upload.value].expires > c.began
  }

  /** A blob written at `at` by an operation that has not committed: safe until its time is up. */
  predicate WrittenBlob(s: Store, t: Timing, path: Path, bytes: Bytes, at: Time) {
    && at <= s.clock
    && (path in s.disk ==> s.disk[path].mtime == at)
    && (t.Timely() && s.clock <= at + t.write ==> path in s.disk && s.disk[path].bytes == bytes)
  }

  ghost predicate CreationFits(s: Store, c: Creation) {
    QuotaUsedExcept(s, c.user, c.upload) + |c.bytes| <= MAX_QUOTA_BYTES
  }

  ghost predicate RewriteFits(s: Store, w: Rewrite, row: FileRow) {
    QuotaUsed(s, w.user) - row.size + |w.bytes| <= MAX_QUOTA_BYTES
  }

  /** The row read under the lock is still current, except perhaps for `deleted_at`. */
  predicate SameRow(s: Store, w: Rewrite, row: FileRow) {
    w.file in s.files && s.files[w.file].owner == w.user && s.files[w.file].(deleted := row.deleted) == row
  }

  /** The caller may rewrite the row: it was visible when the transaction began, and is the one expected. */
  predicate MayRewrite(w: Rewrite, row: FileRow) {
    Visible(row, w.began) && (w.expected.Some? ==> w.expected.value == row.digest)
  }

  predicate GoneFile(s: Store, f: Name, path: Path) {
    f in s.files && s.files[f].path == path && !Visible(s.files[f], s.clock)
  }

  predicate KnowsReserve(s: Store, r: Reservation) {
    && 0 < r.size <= MAX_FILE_BYTES && r.upload in s.issued && s.issued[r.upload] == r.user
    && r.expires <= s.clock + UPLOAD_TTL
  }

  ghost predicate KnowsCreate(s: Store, t: Timing, c: Creation, at: CreatePhase) {
    && |c.bytes| <= MAX_FILE_BYTES && c.began <= s.clock
    && (c.upload.Some? ==>
          c.upload.value in s.used && c.upload.value in s.staged && c.bytes == s.staged[c.upload.value])
    && c.file in s.issued && s.issued[c.file] == c.user
    && (at.CAdmitted? || at.CFits? || at.CWritten? ==> AdmittedUpload(s, c))
    && (at.CFits? || at.CWritten? ==> CreationFits(s, c))
    && (at.CWritten? ==> WrittenBlob(s, t, Blob(c.file), c.bytes, at.at))
  }

  predicate HasRow(at: UpdatePhase) {
    at.USeen? || at.UFits? || at.UNamed? || at.UWritten?
  }

  ghost predicate KnowsUpdate(s: Store, t: Timing, w: Rewrite, at: UpdatePhase) {
    && |w.bytes| <= MAX_FILE_BYTES && w.began <= s.clock
    && (HasRow(at) ==> SameRow(s, w, at.row) && MayRewrite(w, at.row))
    && (HasRow(at) && !at.USeen? ==> RewriteFits(s, w, at.row))
    && (at.UNamed? || at.UWritten? ==>
          at.path.Version? && at.path.file == w.file && at.path.version == at.row.version + 1)
    && (at.UWritten? ==> WrittenBlob(s, t, at.path, w.bytes, at.at))
  }

  predicate KnowsExpire(s: Store, op: Op)
    requires op.Expiring?
  {
    && op.began <= s.clock && op.file in s.used && op.file in s.issued && s.issued[op.file] == op.user
    && (op.eAt.EClaimed? ==> GoneFile(s, op.file, op.eAt.path))
    && (op.eAt.EHalf? ==> GoneFile(s, op.file, op.eAt.path) && op.eAt.path !in s.disk)
    && (op.eAt.EGone? || op.eAt.EKept? ==> op.file in s.files && !Visible(s.files[op.file], s.clock))
    && (op.eAt.EGone? ==> s.files[op.file].path !in s.disk && Partial(s.files[op.file].path) !in s.disk)
  }

  predicate KnowsClose(s: Store, op: Op)
    requires op.Closing?
  {
    && op.began <= s.clock && op.upload in s.used && op.upload in s.issued && s.issued[op.upload] == op.user
    && (op.sAt.SClaimed? || op.sAt.SHalf? || op.sAt.SGone? ==>
          op.upload in s.uploads ==> s.uploads[op.upload].expires <= s.clock)
  }

  ghost predicate KnowsRetire(s: Store, op: Op)
    requires op.Retiring?
  {
    && IsBlob(op.path) && NameOf(op.path) in s.used
    && (forall f :: f in s.files ==> s.files[f].path != op.path)
    && (op.path in s.retired ==> s.retired[op.path].owner == op.user)
    && (op.tAt.TClaimed? || op.tAt.TGone? ==> op.path in s.retired)
    && (op.tAt.TGone? ==> op.path !in s.disk)
  }

  /** A path on disk that a snapshot taken at `at` missed is younger than `since`. */
  predicate Young(s: Store, path: Path, since: Time) {
    path in s.disk ==> s.disk[path].mtime >= since
  }

  /** Whatever the tables reference now was in the snapshot, or reached the disk too late to look old. */
  ghost predicate KnowsReconcile(s: Store, t: Timing, live: set<Path>, at: Time) {
    && at <= s.clock
    && (forall f :: f in s.files ==> s.files[f].path in live || Young(s, s.files[f].path, at - t.write))
  }

  predicate KnowsReceive(s: Store, t: Timing, p: Receipt, at: ReceivePhase) {
    && p.upload in s.used
    && (p.upload in s.uploads ==>
          s.uploads[p.upload].owner == p.user && s.uploads[p.upload].size == p.expected
          && s.uploads[p.upload].state == Receiving)
    && p.upload !in s.staged
    && (at.PStreaming? ==> Holds(s, StagedPartial(p.upload), at.got))
    && (at.PFull? ==> Holds(s, StagedPartial(p.upload), at.got) && |at.got| == p.expected)
    && (at.PPlaced? ==> Holds(s, Staged(p.upload), at.got) && |at.got| == p.expected)
    && (at.PPlaced? && p.upload in s.uploads && s.uploads[p.upload].expires > s.clock ==>
          Staged(p.upload) in s.disk)
  }

  predicate Holds(s: Store, path: Path, bytes: Bytes) {
    path in s.disk ==> s.disk[path].bytes == bytes
  }

  predicate KnowsComplete(s: Store, op: Op)
    requires op.Completing?
  {
    match op.kAt
    case KReading(_) => op.upload in s.used && op.upload in s.staged
    case KLookup(f) => (op.upload, f) in s.registered
    case KRegistered(f) => (op.upload, f) in s.registered
    case KAnswering(f) => (op.upload, f) in s.registered
    case _ => true
  }

  ghost predicate Knows(s: Store, t: Timing, op: Op) {
    match op
    case Reserving(r, at) =>
      KnowsReserve(s, r) && (at.RFits? ==> QuotaUsed(s, r.user) + r.size <= MAX_QUOTA_BYTES)
    case Creating(c, at) => KnowsCreate(s, t, c, at)
    case Updating(w, at) => KnowsUpdate(s, t, w, at)
    case CleaningUp(_, path) => IsBlob(path)
    case Expiring(_, _, _, _) => KnowsExpire(s, op)
    case Closing(_, _, _, _) => KnowsClose(s, op)
    case Retiring(_, _, _) => KnowsRetire(s, op)
    case Snapshotting(live, at) => KnowsReconcile(s, t, live, at)
    case Sweeping(live, at, threshold) =>
      KnowsReconcile(s, t, live, at) && threshold <= at + t.query - ORPHAN_AGE && threshold <= s.clock - ORPHAN_AGE
    case ReceivingOp(p, at) => KnowsReceive(s, t, p, at)
    case Completing(_, _, _) => KnowsComplete(s, op)
  }

  /** A name drawn and not yet committed is in no table. */
  ghost predicate OwnInv(s: Store, op: Op) {
    OwnName(op).Some? ==> OwnName(op).value in s.issued && OwnName(op).value !in s.used
  }

  /** Two operations never hold one user's lock, one fresh name, or one upload's receipt. */
  predicate Compatible(a: Op, b: Op) {
    && (LockOf(a).Some? ==> LockOf(a) != LockOf(b))
    && (OwnName(a).Some? ==> OwnName(a) != OwnName(b))
    && (ReceiptOf(a).Some? ==> ReceiptOf(a) != ReceiptOf(b))
  }

  ghost predicate OpsInv(s: System) {
    && (forall id :: id in s.ops ==> Knows(s.db, s.timing, s.ops[id]) && OwnInv(s.db, s.ops[id]))
    && (forall i, j :: i in s.ops && j in s.ops && i != j ==> Compatible(s.ops[i], s.ops[j]))
  }

  ghost predicate Inv(s: System) {
    TableInv(s.db, s.timing) && OpsInv(s)
  }

  // ----- Effects ---------------------------------------------------------------------------------

  /** What the acting operation holds while it acts. */
  datatype Actor = Actor(lock: Option<UserId>, own: Option<Name>, receipt: Option<Name>)

  function ActorOf(op: Op): Actor {
    Actor(LockOf(op), OwnName(op), ReceiptOf(op))
  }

  ghost predicate AllowedInsertFile(s: Store, t: Timing, me: Actor, f: Name, row: FileRow, from: Option<Name>) {
    && me.own == Some(f) && me.lock == Some(row.owner) && f in s.issued && f !in s.used && s.issued[f] == row.owner
    && row.path == Blob(f) && row.version == 1
    && (t.Timely() ==> Intact(s, row.path, row.size, row.digest))
    && (row.path in s.disk ==> s.disk[row.path].mtime >= s.clock - t.write)
    && (from.Some? ==> from.value in s.staged && row.digest == Digest(s.staged[from.value]))
    && row.size <= MAX_FILE_BYTES
    && (from.Some? ==> from.value in s.uploads && s.uploads[from.value].owner == row.owner
                       && s.uploads[from.value].state == Uploaded && s.uploads[from.value].size == row.size)
    && QuotaUsedExcept(s, row.owner, from) + row.size <= MAX_QUOTA_BYTES
  }

  ghost predicate AllowedRewrite(s: Store, t: Timing, me: Actor, e: Effect)
    requires e.RewriteFile?
  {
    && e.path.Version? && e.path.file == e.file && me.own == Some(e.path.token)
    && e.path.token in s.issued && e.path.token !in s.used
    && e.file in s.files && me.lock == Some(s.files[e.file].owner)
    && s.files[e.file].path == e.oldPath && e.oldRow == RetiredRow(s.files[e.file].owner, s.files[e.file].size)
    && s.files[e.file].version >= 1
    && (t.Timely() ==> Intact(s, e.path, e.size, e.digest))
    && (e.path in s.disk ==> s.disk[e.path].mtime >= s.clock - t.write)
    && e.size <= MAX_FILE_BYTES
    && QuotaUsed(s, s.files[e.file].owner) - s.files[e.file].size + e.size <= MAX_QUOTA_BYTES
  }

  /** Past the time in which its writer could still commit it. */
  predicate Overdue(s: Store, t: Timing, p: Path) {
    p in s.disk && s.disk[p].mtime + t.write < s.clock
  }

  ghost predicate AllowedUnlink(s: Store, t: Timing, me: Actor, p: Path) {
    match p
    case Staged(u) =>
      u in s.uploads ==>
        || s.uploads[u].expires <= s.clock || s.uploads[u].state == Complete
        || (s.uploads[u].state == Receiving && me.receipt == Some(u))
    case StagedPartial(_) => true
    case BlobPartial(_) => true
    case VersionPartial(_, _) => true
    case _ =>
      t.Timely() ==>
      && (me.own == Some(NameOf(p)) || NameOf(p) in s.used || Overdue(s, t, p))
      && (forall f :: f in s.files && s.files[f].path == p ==> !Visible(s.files[f], s.clock))
  }

  ghost predicate AllowedState(s: Store, me: Actor, u: Name, state: UploadState) {
    && u in s.uploads
    && (match state
        case Pending => s.uploads[u].state == Receiving && me.receipt == Some(u)
        case Receiving => s.uploads[u].state == Pending
        case _ => false)
  }

  ghost predicate AllowedFinish(s: Store, t: Timing, me: Actor, u: Name, received: Bytes) {
    && u in s.uploads && s.uploads[u].state == Receiving && me.receipt == Some(u)
    && u !in s.staged && |received| == s.uploads[u].size && Holds(s, Staged(u), received)
    && (s.uploads[u].expires > s.clock ==> Staged(u) in s.disk)
  }

  ghost predicate AllowedWrite(s: Store, me: Actor, p: Path) {
    match p
    case Blob(f) => me.own == Some(f) && f !in s.used
    case Version(_, _, token) => me.own == Some(token) && token !in s.used
    case StagedPartial(u) => me.receipt == Some(u) && u in s.used
    case _ => false
  }

  /** The effects an operation may have, by what it holds and what the tables say. */
  ghost predicate Allowed(s: Store, t: Timing, me: Actor, e: Effect) {
    match e
    case Nothing => true
    case Issue(n, _) => n !in s.issued
    case InsertUpload(u, row) =>
      && me.own == Some(u) && me.lock == Some(row.owner) && u in s.issued && u !in s.used && s.issued[u] == row.owner
      && row.state == Pending && row.file == None && row.expires <= s.clock + UPLOAD_TTL
      && QuotaUsed(s, row.owner) + row.size <= MAX_QUOTA_BYTES
    case InsertFile(f, row, from) => AllowedInsertFile(s, t, me, f, row, from)
    case RewriteFile(_, _, _, _, _, _) => AllowedRewrite(s, t, me, e)
    case MarkDeleted(_) => true
    case DeleteFile(f) =>
      f in s.files ==> me.lock == Some(s.files[f].owner) && !Visible(s.files[f], s.clock)
    case DeleteUpload(u) =>
      u in s.uploads ==> me.lock == Some(s.uploads[u].owner) && s.uploads[u].expires <= s.clock
    case DeleteRetired(p) => p in s.retired ==> me.lock == Some(s.retired[p].owner)
    case SetState(u, state) => AllowedState(s, me, u, state)
    case FinishUpload(u, received) => AllowedFinish(s, t, me, u, received)
    case Write(p, _) => AllowedWrite(s, me, p)
    case Rename(p, to) =>
      p in s.disk && p.StagedPartial? && to == Staged(p.upload) && me.receipt == Some(p.upload)
      && p.upload in s.used && p.upload !in s.staged
      && (p.upload in s.uploads ==> s.uploads[p.upload].state == Receiving)
    case Unlink(p) => AllowedUnlink(s, t, me, p)
    case Answer(u, f) => (u, f) in s.registered
  }
}
