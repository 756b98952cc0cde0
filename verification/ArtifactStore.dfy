// The artifact store protocol (precis_mcp/artifacts/registry.py, uploads.py, routes.py) as a
// transition system: three SQL tables, a disk, and any number of operations, each standing between
// two of its SQL statements or file-system calls. A transaction's writes take effect at its commit;
// a crash drops the operation, its uncommitted writes and its advisory lock, never its files.

/** Tables, disk, and the primitive effects that statements and file-system calls have on them. */
module ArtifactTables {
  import opened Common
  import opened Totals

  const MAX_QUOTA_BYTES := 104857600
  const MAX_FILE_BYTES := 10485760
  const ORPHAN_AGE := 3600
  const UPLOAD_TTL := 900
  const FILE_TTL := 86400

  type UserId = nat
  type Name = nat // what `secrets` returns: file ids, upload ids and version tokens
  type OpId = nat
  type Time = int
  type Byte = b: int | 0 <= b < 256
  type Bytes = seq<Byte>

  /** SHA-256, taken as injective. */
  datatype Digest = Digest(content: Bytes)

  /** A file name below the user's directory. */
  datatype Path =
    | Blob(file: Name)
    | Version(file: Name, version: nat, token: Name)
    | Staged(upload: Name)
    | StagedPartial(upload: Name)
    | BlobPartial(file: Name)
    | VersionPartial(file: Name, version: nat)

  /** `path.with_suffix(".receiving")`. */
  function Partial(p: Path): Path {
    match p
    case Blob(f) => BlobPartial(f)
    case Version(f, v, _) => VersionPartial(f, v)
    case Staged(u) => StagedPartial(u)
    case _ => p
  }

  predicate IsBlob(p: Path) {
    p.Blob? || p.Version?
  }

  /** The random name that makes a blob's path fresh. */
  function NameOf(p: Path): Name
    requires IsBlob(p)
  {
    if p.Blob? then p.file else p.token
  }

  datatype FileRow = FileRow(
    owner: UserId, size: nat, digest: Digest, path: Path, version: nat, expires: Option<Time>, deleted: bool)
  datatype UploadState = Pending | Receiving | Uploaded | Complete
  datatype UploadRow = UploadRow(owner: UserId, size: nat, state: UploadState, expires: Time, file: Option<Name>)
  datatype RetiredRow = RetiredRow(owner: UserId, size: nat)
  datatype DiskFile = DiskFile(bytes: Bytes, mtime: Time)

  /**
   * `issued` maps every random name handed out to the user it was made for; `used` holds those that
   * reached a table. `staged` records the bytes each finished upload received; `registered` and
   * `answers` record which file each completion committed and which file each successful
   * completion returned.
   */
  datatype Store = Store(
    files: map<Name, FileRow>,
    uploads: map<Name, UploadRow>,
    retired: map<Path, RetiredRow>,
    disk: map<Path, DiskFile>,
    clock: Time,
    issued: map<Name, UserId>,
    used: set<Name>,
    staged: map<Name, Bytes>,
    registered: set<(Name, Name)>,
    answers: set<(Name, Name)>)

  /** `deleted_at IS NULL AND (expires_at IS NULL OR expires_at > t)`. */
  predicate Visible(row: FileRow, t: Time) {
    !row.deleted && (row.expires.Some? ==> row.expires.value > t)
  }

  function FileWeight(user: UserId): FileRow -> nat {
    (row: FileRow) => if row.owner == user then row.size else 0
  }

  function UploadWeight(user: UserId): UploadRow -> nat {
    (row: UploadRow) => if row.owner == user && row.state != Complete then row.size else 0
  }

  function RetiredWeight(user: UserId): RetiredRow -> nat {
    (row: RetiredRow) => if row.owner == user then row.size else 0
  }

  /** A user's stored files and unfinished reservations. */
  ghost function LiveBytes(s: Store, user: UserId): nat {
    Total(s.files, FileWeight(user)) + Total(s.uploads, UploadWeight(user))
  }

  /** `quota_used(user)`. */
  ghost function QuotaUsed(s: Store, user: UserId): nat {
    LiveBytes(s, user) + Total(s.retired, RetiredWeight(user))
  }

  /** `quota_used(user, exclude_upload=upload)`. */
  ghost function QuotaUsedExcept(s: Store, user: UserId, upload: Option<Name>): nat {
    if upload.None? then QuotaUsed(s, user)
    else QuotaUsed(s.(uploads := s.uploads - {upload.value}), user)
  }

  datatype Effect =
    | Nothing
    | Issue(name: Name, user: UserId)
    | InsertUpload(upload: Name, upRow: UploadRow)
    | InsertFile(file: Name, row: FileRow, from: Option<Name>)
    | RewriteFile(file: Name, size: nat, digest: Digest, path: Path, oldPath: Path, oldRow: RetiredRow)
    | MarkDeleted(file: Name)
    | DeleteFile(file: Name)
    | DeleteUpload(upload: Name)
    | DeleteRetired(path: Path)
    | SetState(upload: Name, state: UploadState)
    | FinishUpload(upload: Name, received: Bytes)
    | Write(path: Path, bytes: Bytes)
    | Rename(path: Path, to: Path)
    | Unlink(path: Path)
    | Answer(upload: Name, file: Name)

  function CompleteUpload(uploads: map<Name, UploadRow>, from: Option<Name>, file: Name): map<Name, UploadRow> {
    if from.Some? && from.value in uploads then
      uploads[from.value := uploads[from.value].(state := Complete, file := Some(file))]
    else uploads
  }

  /** `file_id ... REFERENCES files(file_id) ON DELETE SET NULL`. */
  function Unreference(uploads: map<Name, UploadRow>, file: Name): map<Name, UploadRow> {
    map u | u in uploads :: if uploads[u].file == Some(file) then uploads[u].(file := None) else uploads[u]
  }

  function Apply(s: Store, e: Effect): Store {
    match e
    case Nothing => s
    case Issue(name, user) => s.(issued := s.issued[name := user])
    case InsertUpload(u, row) => s.(uploads := s.uploads[u := row], used := s.used + {u})
    case InsertFile(f, row, from) =>
      s.(files := s.files[f := row],
         uploads := CompleteUpload(s.uploads, from, f),
         used := s.used + {f},
         registered := if from.Some? then s.registered + {(from.value, f)} else s.registered)
    case RewriteFile(f, size, digest, path, oldPath, oldRow) =>
      if f in s.files then
        s.(files := s.files[f :=
                    s.files[f].(size := size, digest := digest, path := path, version := s.files[f].version + 1)],
           retired := s.retired[oldPath := oldRow],
           used := if path.Version? then s.used + {path.token} else s.used)
      else s
    case MarkDeleted(f) => if f in s.files then s.(files := s.files[f := s.files[f].(deleted := true)]) else s
    case DeleteFile(f) => s.(files := s.files - {f}, uploads := Unreference(s.uploads, f))
    case DeleteUpload(u) => s.(uploads := s.uploads - {u})
    case DeleteRetired(p) => s.(retired := s.retired - {p})
    case SetState(u, state) =>
      if u in s.uploads then s.(uploads := s.uploads[u := s.uploads[u].(state := state)]) else s
    case FinishUpload(u, received) =>
      if u in s.uploads then
        s.(uploads := s.uploads[u := s.uploads[u].(state := Uploaded)], staged := s.staged[u := received])
      else s
    case Write(p, bytes) => s.(disk := s.disk[p := DiskFile(bytes, s.clock)])
    case Rename(p, to) => if p in s.disk then s.(disk := (s.disk - {p})[to := s.disk[p]]) else s
    case Unlink(p) => s.(disk := s.disk - {p})
    case Answer(u, f) => s.(answers := s.answers + {(u, f)})
  }
}

/** The operations, one phase per point between two statements, and the steps they take. */
module ArtifactProtocol {
  import opened Common
  import opened ArtifactTables

  datatype Reservation = Reservation(user: UserId, upload: Name, size: nat, expires: Time)
  datatype Creation = Creation(
    user: UserId, file: Name, bytes: Bytes, upload: Option<Name>, expires: Option<Time>, began: Time)
  datatype Rewrite = Rewrite(user: UserId, file: Name, bytes: Bytes, expected: Option<Digest>, began: Time)
  datatype Receipt = Receipt(user: UserId, upload: Name, expected: nat)

  datatype ReservePhase = RWaiting | RLocked | RFits
  datatype CreatePhase = CWaiting | CLocked | CAdmitted | CFits | CWritten(at: Time)
  datatype UpdatePhase =
    | UWaiting | ULocked
    | USeen(row: FileRow) | UFits(row: FileRow)
    | UNamed(row: FileRow, path: Path)
    | UWritten(row: FileRow, path: Path, at: Time)
  datatype ExpirePhase = EWaiting | ELocked | EClaimed(path: Path) | EHalf(path: Path) | EGone | EKept
  datatype SessionPhase = SWaiting | SLocked | SClaimed | SHalf | SGone
  datatype RetirePhase = TWaiting | TLocked | TClaimed | TGone
  datatype ReceivePhase =
    | PClaimed | PStreaming(got: Bytes) | PFull(got: Bytes) | PPlaced(got: Bytes)
    | PCleanTemp | PCleanPath | PReset
  datatype CompletePhase =
    | KAsked | KReading(size: nat) | KRetry | KLookup(file: Name)
    | KRegistered(file: Name) | KAnswering(file: Name)

  datatype Op =
    | Reserving(r: Reservation, rAt: ReservePhase)                     // begin_upload
    | Creating(c: Creation, cAt: CreatePhase)                          // create_file
    | Updating(w: Rewrite, wAt: UpdatePhase)                           // update_file_blob
    | CleaningUp(user: UserId, path: Path)                             // rolled back, blob still on disk
    | Expiring(user: UserId, file: Name, began: Time, eAt: ExpirePhase)   // gc_expired, one file
    | Closing(user: UserId, upload: Name, began: Time, sAt: SessionPhase) // gc_expired, one session
    | Retiring(user: UserId, path: Path, tAt: RetirePhase)             // _collect_retired, one blob
    | Snapshotting(live: set<Path>, at: Time)                          // reconcile_orphans, before its threshold
    | Sweeping(live: set<Path>, at: Time, threshold: Time)
    | ReceivingOp(p: Receipt, pAt: ReceivePhase)                       // routes.upload
    | Completing(user: UserId, upload: Name, kAt: CompletePhase)       // complete_upload

  /** The user whose advisory lock the operation holds. */
  function LockOf(op: Op): Option<UserId> {
    match op
    case Reserving(r, at) => if at.RWaiting? then None else Some(r.user)
    case Creating(c, at) => if at.CWaiting? then None else Some(c.user)
    case Updating(w, at) => if at.UWaiting? then None else Some(w.user)
    case Expiring(user, _, _, at) => if at.EWaiting? then None else Some(user)
    case Closing(user, _, _, at) => if at.SWaiting? then None else Some(user)
    case Retiring(user, _, at) => if at.TWaiting? then None else Some(user)
    case _ => None
  }

  /** The fresh name the operation has drawn and not yet committed. */
  function OwnName(op: Op): Option<Name> {
    match op
    case Reserving(r, _) => Some(r.upload)
    case Creating(c, _) => Some(c.file)
    case Updating(_, at) =>
      if at.UNamed? && at.path.Version? then Some(at.path.token)
      else if at.UWritten? && at.path.Version? then Some(at.path.token)
      else None
    case CleaningUp(_, path) => if IsBlob(path) then Some(NameOf(path)) else None
    case _ => None
  }

  /** The upload whose bytes the operation is receiving. */
  function ReceiptOf(op: Op): Option<Name> {
    if op.ReceivingOp? then Some(op.p.upload) else None
  }

  /**
   * `write` bounds the time from writing a blob to committing its row, `query` the time from a
   * reconciliation's snapshot of the live paths to its reading of the clock.
   */
  datatype Timing = Timing(write: nat, query: nat) {
    /** The orphan threshold covers a write's time to commit and a reconciliation's delay together. */
    predicate Timely() {
      write + query <= ORPHAN_AGE
    }
  }

  datatype System = System(timing: Timing, db: Store, ops: map<OpId, Op>)

  /** What the scheduler, the caller or the environment decides in a step. */
  datatype Choice =
    | Go
    | Fail                                           // an exception (a failed unlink, a cancelled request)
    | Chunk(data: Bytes)                             // the next piece of the request body
    | Named(name: Name)                              // a random name is drawn
    | Seen(t: Time)                                  // a single statement whose now() is `t`
    | Target(path: Path)

  datatype Event =
    | Tick(dt: nat)
    | Begin(id: OpId, op: Op, seen: Time)
    | Advance(id: OpId, choice: Choice)
    | Crash(id: OpId)
    | SoftDelete(user: UserId, file: Name)

  predicate LockFree(s: System, user: UserId) {
    forall id :: id in s.ops ==> LockOf(s.ops[id]) != Some(user)
  }

  /** What an operation does next: its effect on the store, and where it then stands (None: it ends). */
  datatype Move = Stuck | Move(effect: Effect, next: Option<Op>)

  function To(op: Op): Move {
    Move(Nothing, Some(op))
  }

  function End(): Move {
    Move(Nothing, None)
  }

  /** Every stored path and its ".receiving" sibling. */
  function LivePaths(db: Store): set<Path> {
    (set f | f in db.files :: db.files[f].path) + (set f | f in db.files :: Partial(db.files[f].path))
    + (set u | u in db.uploads :: Staged(u)) + (set u | u in db.uploads :: StagedPartial(u))
    + (set p | p in db.retired) + (set p | p in db.retired :: Partial(p))
  }

  ghost function MoveReserve(s: System, r: Reservation, at: ReservePhase, c: Choice): Move {
    if c.Fail? then End()
    else if !c.Go? then Stuck
    else
      match at
      case RWaiting => if LockFree(s, r.user) then To(Reserving(r, RLocked)) else Stuck
      case RLocked =>
        if QuotaUsed(s.db, r.user) + r.size > MAX_QUOTA_BYTES then End() else To(Reserving(r, RFits))
      case RFits => Move(InsertUpload(r.upload, UploadRow(r.user, r.size, Pending, r.expires, None)), None)
  }

  /** The `upload_id` branch of `create_file`, read under the lock at the transaction's `now()`. */
  function MoveAdmit(db: Store, c: Creation): Move {
    if c.upload.None? then To(Creating(c, CAdmitted))
    else
      var u := c.upload.value;
      if u !in db.uploads || db.uploads[u].owner != c.user || db.uploads[u].expires <= c.began then End()
      else
        var row := db.uploads[u];
        if row.state == Complete then
          if row.file.Some? && row.file.value in db.files && db.files[row.file.value].owner == c.user
             && Visible(db.files[row.file.value], c.began)
          then To(Completing(c.user, u, KRegistered(row.file.value)))
          else End()
        else if row.state != Uploaded || row.size != |c.bytes| then End()
        else To(Creating(c, CAdmitted))
  }

  ghost function MoveCreate(s: System, c: Creation, at: CreatePhase, choice: Choice): Move {
    if choice.Fail? then (if at.CWritten? then To(CleaningUp(c.user, Blob(c.file))) else End())
    else if !choice.Go? then Stuck
    else
      match at
      case CWaiting => if LockFree(s, c.user) then To(Creating(c, CLocked)) else Stuck
      case CLocked => MoveAdmit(s.db, c)
      case CAdmitted =>
        if QuotaUsedExcept(s.db, c.user, c.upload) + |c.bytes| > MAX_QUOTA_BYTES then End()
        else To(Creating(c, CFits))
      case CFits => Move(Write(Blob(c.file), c.bytes), Some(Creating(c, CWritten(s.db.clock))))
      case CWritten(t) =>
        if s.db.clock > t + s.timing.write then Stuck
        else
          Move(InsertFile(c.file,
                          FileRow(c.user, |c.bytes|, Digest(c.bytes), Blob(c.file), 1, c.expires, false),
                          c.upload),
               if c.upload.None? then None else Some(Completing(c.user, c.upload.value, KRegistered(c.file))))
  }

  ghost function MoveUpdate(s: System, w: Rewrite, at: UpdatePhase, choice: Choice): Move {
    if choice.Fail? then (if at.UWritten? then To(CleaningUp(w.user, at.path)) else End())
    else if choice.Named? then
      if at.UFits? && choice.name !in s.db.issued then
        Move(Issue(choice.name, w.user),
             Some(Updating(w, UNamed(at.row, Version(w.file, at.row.version + 1, choice.name)))))
      else Stuck
    else if !choice.Go? then Stuck
    else
      match at
      case UWaiting => if LockFree(s, w.user) then To(Updating(w, ULocked)) else Stuck
      case ULocked =>
        if w.file in s.db.files && s.db.files[w.file].owner == w.user && Visible(s.db.files[w.file], w.began)
           && (w.expected.Some? ==> w.expected.value == s.db.files[w.file].digest)
        then To(Updating(w, USeen(s.db.files[w.file])))
        else End()
      case USeen(row) =>
        if QuotaUsed(s.db, w.user) - row.size + |w.bytes| > MAX_QUOTA_BYTES then End()
        else To(Updating(w, UFits(row)))
      case UFits(_) => Stuck
      case UNamed(row, path) => Move(Write(path, w.bytes), Some(Updating(w, UWritten(row, path, s.db.clock))))
      case UWritten(row, path, t) =>
        if s.db.clock > t + s.timing.write then Stuck
        else
          Move(RewriteFile(w.file, |w.bytes|, Digest(w.bytes), path, row.path, RetiredRow(w.user, row.size)), None)
  }

  ghost function MoveExpire(s: System, op: Op, choice: Choice): Move
    requires op.Expiring?
  {
    var at := op.eAt;
    if choice.Fail? then (if at.EClaimed? || at.EHalf? then To(op.(eAt := EKept)) else End())
    else if !choice.Go? then Stuck
    else
      match at
      case EWaiting => if LockFree(s, op.user) then To(op.(eAt := ELocked)) else Stuck
      case ELocked =>
        if op.file in s.db.files && !Visible(s.db.files[op.file], op.began)
        then To(op.(eAt := EClaimed(s.db.files[op.file].path)))
        else End()
      case EClaimed(path) => Move(Unlink(path), Some(op.(eAt := EHalf(path))))
      case EHalf(path) => Move(Unlink(Partial(path)), Some(op.(eAt := EGone)))
      case EGone => Move(DeleteFile(op.file), None)
      case EKept => Move(MarkDeleted(op.file), None)
  }

  ghost function MoveClose(s: System, op: Op, choice: Choice): Move
    requires op.Closing?
  {
    if choice.Fail? then End()
    else if !choice.Go? then Stuck
    else
      match op.sAt
      case SWaiting => if LockFree(s, op.user) then To(op.(sAt := SLocked)) else Stuck
      case SLocked =>
        if op.upload in s.db.uploads && s.db.uploads[op.upload].expires <= op.began
        then To(op.(sAt := SClaimed))
        else End()
      case SClaimed => Move(Unlink(Staged(op.upload)), Some(op.(sAt := SHalf)))
      case SHalf => Move(Unlink(StagedPartial(op.upload)), Some(op.(sAt := SGone)))
      case SGone => Move(DeleteUpload(op.upload), None)
  }

  ghost function MoveRetire(s: System, op: Op, choice: Choice): Move
    requires op.Retiring?
  {
    if choice.Fail? then End()
    else if !choice.Go? then Stuck
    else
      match op.tAt
      case TWaiting => if LockFree(s, op.user) then To(op.(tAt := TLocked)) else Stuck
      case TLocked => if op.path in s.db.retired then To(op.(tAt := TClaimed)) else End()
      case TClaimed => Move(Unlink(op.path), Some(op.(tAt := TGone)))
      case TGone => Move(DeleteRetired(op.path), None)
  }

  function MoveReconcile(s: System, op: Op, choice: Choice): Move
    requires op.Snapshotting? || op.Sweeping?
  {
    if choice.Fail? then End()
    else if op.Snapshotting? then
      if choice.Go? && s.db.clock <= op.at + s.timing.query
      then To(Sweeping(op.live, op.at, s.db.clock - ORPHAN_AGE))
      else Stuck
    else if choice.Target? && choice.path in s.db.disk && choice.path !in op.live
            && s.db.disk[choice.path].mtime < op.threshold
    then Move(Unlink(choice.path), Some(op))
    else Stuck
  }

  function MoveReceive(s: System, p: Receipt, at: ReceivePhase, choice: Choice): Move {
    var partial := StagedPartial(p.upload);
    match at
    case PClaimed =>
      if choice.Go? then Move(Write(partial, []), Some(ReceivingOp(p, PStreaming([]))))
      else if choice.Fail? then To(ReceivingOp(p, PCleanTemp)) else Stuck
    case PStreaming(got) =>
      if choice.Chunk? then
        if |got| + |choice.data| > p.expected then To(ReceivingOp(p, PCleanTemp))
        else
          Move(if partial in s.db.disk then Write(partial, got + choice.data) else Nothing,
               Some(ReceivingOp(p, PStreaming(got + choice.data))))
      else if choice.Go? && |got| == p.expected then To(ReceivingOp(p, PFull(got)))
      else if choice.Go? || choice.Fail? then To(ReceivingOp(p, PCleanTemp)) else Stuck
    case PFull(got) =>
      if choice.Go? && partial in s.db.disk then
        Move(Rename(partial, Staged(p.upload)), Some(ReceivingOp(p, PPlaced(got))))
      else if choice.Go? || choice.Fail? then To(ReceivingOp(p, PCleanTemp)) else Stuck
    case PPlaced(got) =>
      if choice.Seen? && choice.t <= s.db.clock then
        if InState(s.db, p, Receiving) && s.db.uploads[p.upload].expires > choice.t
        then Move(FinishUpload(p.upload, got), None)
        else End()
      else if choice.Fail? then End() else Stuck
    case PCleanTemp =>
      if choice.Go? then Move(Unlink(partial), Some(ReceivingOp(p, PCleanPath)))
      else if choice.Fail? then To(ReceivingOp(p, PCleanPath)) else Stuck
    case PCleanPath =>
      if choice.Go? then Move(Unlink(Staged(p.upload)), Some(ReceivingOp(p, PReset)))
      else if choice.Fail? then To(ReceivingOp(p, PReset)) else Stuck
    case PReset =>
      if choice.Go? && InState(s.db, p, Receiving) then Move(SetState(p.upload, Pending), None)
      else if choice.Go? || choice.Fail? then End() else Stuck
  }

  predicate InState(db: Store, p: Receipt, state: UploadState) {
    p.upload in db.uploads && db.uploads[p.upload].owner == p.user && db.uploads[p.upload].state == state
  }

  function Take(bytes: Bytes, n: nat): Bytes {
    if |bytes| <= n then bytes else bytes[..n]
  }

  function MoveComplete(s: System, op: Op, choice: Choice): Move
    requires op.Completing?
  {
    var user, u := op.user, op.upload;
    match op.kAt
    case KAsked =>
      if choice.Seen? && choice.t <= s.db.clock then
        if u !in s.db.uploads || s.db.uploads[u].owner != user || s.db.uploads[u].expires <= choice.t then End()
        else if s.db.uploads[u].state == Complete then
          (if s.db.uploads[u].file.Some? then To(op.(kAt := KLookup(s.db.uploads[u].file.value))) else End())
        else if s.db.uploads[u].state == Uploaded then To(op.(kAt := KReading(s.db.uploads[u].size)))
        else End()
      else if choice.Fail? then End() else Stuck
    case KReading(size) =>
      if choice.Named? && choice.name !in s.db.issued then
        if Staged(u) !in s.db.disk then To(op.(kAt := KRetry))
        else
          var blob := Take(s.db.disk[Staged(u)].bytes, MAX_FILE_BYTES + 1);
          if |blob| != size || |blob| > MAX_FILE_BYTES then End()
          else
            Move(Issue(choice.name, user),
                 Some(Creating(
                   Creation(user, choice.name, blob, Some(u), Some(s.db.clock + FILE_TTL), s.db.clock), CWaiting)))
      else if choice.Fail? then End() else Stuck
    case KRetry =>
      if choice.Seen? && choice.t <= s.db.clock then
        if u in s.db.uploads && s.db.uploads[u].owner == user && s.db.uploads[u].expires > choice.t
           && s.db.uploads[u].state == Complete && s.db.uploads[u].file.Some?
        then To(op.(kAt := KLookup(s.db.uploads[u].file.value)))
        else End()
      else if choice.Fail? then End() else Stuck
    case KLookup(f) =>
      if choice.Seen? && choice.t <= s.db.clock then
        if f in s.db.files && s.db.files[f].owner == user && Visible(s.db.files[f], choice.t)
        then Move(Answer(u, f), None)
        else End()
      else if choice.Fail? then End() else Stuck
    case KRegistered(f) =>
      if choice.Go? then Move(Unlink(Staged(u)), Some(op.(kAt := KAnswering(f))))
      else if choice.Fail? then To(op.(kAt := KAnswering(f))) else Stuck
    case KAnswering(f) => if choice.Go? then Move(Answer(u, f), None) else Stuck
  }

  ghost function NextMove(s: System, op: Op, choice: Choice): Move {
    match op
    case Reserving(r, at) => MoveReserve(s, r, at, choice)
    case Creating(c, at) => MoveCreate(s, c, at, choice)
    case Updating(w, at) => MoveUpdate(s, w, at, choice)
    case CleaningUp(_, path) =>
      if choice.Go? then Move(Unlink(path), None) else if choice.Fail? then End() else Stuck
    case Expiring(_, _, _, _) => MoveExpire(s, op, choice)
    case Closing(_, _, _, _) => MoveClose(s, op, choice)
    case Retiring(_, _, _) => MoveRetire(s, op, choice)
    case Snapshotting(_, _) => MoveReconcile(s, op, choice)
    case Sweeping(_, _, _) => MoveReconcile(s, op, choice)
    case ReceivingOp(p, at) => MoveReceive(s, p, at, choice)
    case Completing(_, _, _) => MoveComplete(s, op, choice)
  }

  /** How an operation may start: its validated arguments, and what its first statement requires. */
  ghost predicate CanBegin(s: System, op: Op, seen: Time) {
    match op
    case Reserving(r, at) =>
      && at == RWaiting && r.upload !in s.db.issued && 0 < r.size <= MAX_FILE_BYTES
      && r.expires == s.db.clock + UPLOAD_TTL
    case Creating(c, at) =>
      at == CWaiting && c.file !in s.db.issued && |c.bytes| <= MAX_FILE_BYTES && c.upload.None? && c.began == s.db.clock
    case Updating(w, at) => at == UWaiting && |w.bytes| <= MAX_FILE_BYTES && w.began == s.db.clock
    case CleaningUp(_, _) => false
    case Expiring(user, file, began, at) =>
      at == EWaiting && file in s.db.files && s.db.files[file].owner == user && began == s.db.clock
    case Closing(user, upload, began, at) =>
      at == SWaiting && upload in s.db.uploads && s.db.uploads[upload].owner == user && began == s.db.clock
    case Retiring(user, path, at) => at == TWaiting && path in s.db.retired && s.db.retired[path].owner == user
    case Snapshotting(live, at) => live == LivePaths(s.db) && at == s.db.clock
    case Sweeping(_, _, _) => false
    case ReceivingOp(p, at) =>
      at == PClaimed && InState(s.db, p, Pending) && s.db.uploads[p.upload].size == p.expected
      && seen <= s.db.clock && s.db.uploads[p.upload].expires > seen
    case Completing(_, _, at) => at == KAsked
  }

  function BeginEffect(op: Op): Effect {
    match op
    case Reserving(r, _) => Issue(r.upload, r.user)
    case Creating(c, _) => Issue(c.file, c.user)
    case ReceivingOp(p, _) => SetState(p.upload, Receiving)
    case _ => Nothing
  }

  function Settle(s: System, id: OpId, effect: Effect, next: Option<Op>): System {
    s.(db := Apply(s.db, effect), ops := if next.Some? then s.ops[id := next.value] else s.ops - {id})
  }

  /** The change an event makes to tables and disk. */
  ghost function EffectOf(s: System, e: Event): Effect {
    match e
    case Begin(_, op, _) => BeginEffect(op)
    case Advance(id, choice) =>
      if id in s.ops && NextMove(s, s.ops[id], choice).Move? then NextMove(s, s.ops[id], choice).effect else Nothing
    case SoftDelete(_, file) => MarkDeleted(file)
    case _ => Nothing
  }

  ghost function Step(s: System, e: Event): Option<System> {
    match e
    case Tick(dt) => Some(s.(db := s.db.(clock := s.db.clock + dt)))
    case Begin(id, op, seen) =>
      if id !in s.ops && CanBegin(s, op, seen) then Some(Settle(s, id, BeginEffect(op), Some(op))) else None
    case Advance(id, choice) =>
      if id !in s.ops then None
      else
        var move := NextMove(s, s.ops[id], choice);
        if move.Stuck? then None else Some(Settle(s, id, move.effect, move.next))
    case Crash(id) => if id in s.ops then Some(Settle(s, id, Nothing, None)) else None
    case SoftDelete(user, file) =>
      if file in s.db.files && s.db.files[file].owner == user && !s.db.files[file].deleted
      then Some(s.(db := Apply(s.db, MarkDeleted(file))))
      else None
  }

  function EmptyStore(): Store {
    Store(map[], map[], map[], map[], 0, map[], {}, map[], {}, {})
  }

  function Initial(timing: Timing): System {
    System(timing, EmptyStore(), map[])
  }

  ghost function Run(s: System, events: seq<Event>): Option<System>
    decreases |events|
  {
    if events == [] then Some(s)
    else
      var next := Step(s, events[0]);
      if next.None? then None else Run(next.value, events[1..])
  }
}
