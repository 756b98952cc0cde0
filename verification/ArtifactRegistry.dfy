// The registry's own procedures, run by one process alone: loops over rows, statements and
// file-system calls (precis_mcp/artifacts/registry.py). Every statement is an effect of the
// protocol's tables, and each one keeps their invariant.

module ArtifactRegistry {
  import opened Common
  import opened Totals
  import opened ArtifactTables
  import opened ArtifactProtocol
  import opened ArtifactInvariants
  import opened ArtifactTableProofs

  /** Alone, a write commits at once and a snapshot is read at once. */
  const ALONE := Timing(0, 0)

  const NOBODY := Actor(None, None, None)

  function Holding(user: UserId): Actor {
    Actor(Some(user), None, None)
  }

  function Drawn(user: UserId, name: Name): Actor {
    Actor(Some(user), Some(name), None)
  }

  method Sum<K(==), V>(m: map<K, V>, weight: V -> nat) returns (sum: nat)
    ensures sum == Total(m, weight)
  {
    sum := 0;
    var left := m;
    while left != map[]
      invariant sum + Total(left, weight) == Total(m, weight)
      decreases |left|
    {
      var k :| k in left;
      TotalSplit(left, weight, k);
      sum, left := sum + weight(left[k]), left - {k};
    }
  }

  // ----- What the quota counts -------------------------------------------------------------------

  lemma QuotaOfNothing(db: Store, user: UserId)
    requires db.files == map[] && db.uploads == map[] && db.retired == map[]
    ensures QuotaUsed(db, user) == 0
  {
  }

  /** Each stored file counts with its size, for its owner. */
  lemma QuotaCountsFile(db: Store, user: UserId, f: Name, row: FileRow)
    requires f !in db.files
    ensures QuotaUsed(db.(files := db.files[f := row]), user) ==
            QuotaUsed(db, user) + (if row.owner == user then row.size else 0)
  {
    TotalInsert(db.files, FileWeight(user), f, row);
    assert db.files - {f} == db.files;
  }

  /** Each unfinished session counts with the size it reserved. */
  lemma QuotaCountsSession(db: Store, user: UserId, u: Name, row: UploadRow)
    requires u !in db.uploads
    ensures QuotaUsed(db.(uploads := db.uploads[u := row]), user) ==
            QuotaUsed(db, user) + (if row.owner == user && !row.state.Complete? then row.size else 0)
  {
    TotalInsert(db.uploads, UploadWeight(user), u, row);
    assert db.uploads - {u} == db.uploads;
  }

  /** Each retired blob counts until it is collected. */
  lemma QuotaCountsRetired(db: Store, user: UserId, p: Path, row: RetiredRow)
    requires p !in db.retired
    ensures QuotaUsed(db.(retired := db.retired[p := row]), user) ==
            QuotaUsed(db, user) + (if row.owner == user then row.size else 0)
  {
    TotalInsert(db.retired, RetiredWeight(user), p, row);
    assert db.retired - {p} == db.retired;
  }

  // ----- What the clean-up loops do --------------------------------------------------------------

  predicate Retires(db: Store, refused: set<Path>, user: Option<UserId>, p: Path) {
    p in db.retired && (user.Some? ==> db.retired[p].owner == user.value) && p !in refused
  }

  /** The blobs of `gone` are off the disk and out of the retirement table. */
  function WithoutBlobs(db: Store, gone: set<Path>): Store {
    db.(retired := db.retired - gone, disk := db.disk - gone)
  }

  function RetiredGone(db: Store, refused: set<Path>, user: Option<UserId>): set<Path> {
    set p | p in db.retired && Retires(db, refused, user, p)
  }

  /** Rows that garbage collection claims: deleted or expired. */
  predicate Claimed(db: Store, f: Name) {
    f in db.files && !Visible(db.files[f], db.clock)
  }

  /** The blob went, but not its partial sibling: the row stays, as a tombstone. */
  predicate HalfRemovable(db: Store, refused: set<Path>, f: Name) {
    Claimed(db, f) && db.files[f].path !in refused && Partial(db.files[f].path) in refused
  }

  predicate Removable(db: Store, refused: set<Path>, f: Name) {
    Claimed(db, f) && db.files[f].path !in refused && Partial(db.files[f].path) !in refused
  }

  function Gone(db: Store, refused: set<Path>, done: set<Name>): set<Name> {
    set f | f in done && Removable(db, refused, f)
  }

  /** What collecting the row removes from the disk. */
  function PathsOf(db: Store, refused: set<Path>, f: Name): set<Path> {
    if Removable(db, refused, f) then {db.files[f].path, Partial(db.files[f].path)}
    else if HalfRemovable(db, refused, f) then {db.files[f].path}
    else {}
  }

  function GonePaths(db: Store, refused: set<Path>, done: set<Name>): set<Path> {
    set f, p | f in done && p in PathsOf(db, refused, f) :: p
  }

  function Tombstoned(files: map<Name, FileRow>, done: set<Name>): map<Name, FileRow> {
    map f | f in files :: if f in done then files[f].(deleted := true) else files[f]
  }

  function Orphaned(uploads: map<Name, UploadRow>, gone: set<Name>): map<Name, UploadRow> {
    map u | u in uploads ::
      if uploads[u].file.Some? && uploads[u].file.value in gone then uploads[u].(file := None) else uploads[u]
  }

  /** The claimed rows of `done` are removed with their blobs, or are tombstones where an unlink failed. */
  function Expired(db: Store, refused: set<Path>, done: set<Name>): Store {
    db.(files := Tombstoned(db.files, done) - Gone(db, refused, done),
        uploads := Orphaned(db.uploads, Gone(db, refused, done)),
        disk := db.disk - GonePaths(db, refused, done))
  }

  predicate Lapsed(db: Store, u: Name) {
    u in db.uploads && db.uploads[u].expires <= db.clock
  }

  predicate Closable(refused: set<Path>, u: Name) {
    Staged(u) !in refused && StagedPartial(u) !in refused
  }

  function ClosedPaths(refused: set<Path>, done: set<Name>): set<Path> {
    (set u | u in done && Staged(u) !in refused :: Staged(u))
    + (set u | u in done && Closable(refused, u) :: StagedPartial(u))
  }

  function ClosedSessions(refused: set<Path>, done: set<Name>): set<Name> {
    set u | u in done && Closable(refused, u)
  }

  /** The lapsed sessions of `done` are removed with their staging files, where unlinking succeeds. */
  function Closed(db: Store, refused: set<Path>, done: set<Name>): Store {
    db.(uploads := db.uploads - ClosedSessions(refused, done),
        disk := db.disk - ClosedPaths(refused, done))
  }

  predicate Orphan(db: Store, p: Path) {
    p in db.disk && p !in LivePaths(db) && db.disk[p].mtime < db.clock - ORPHAN_AGE
  }

  /** Old files that no row refers to are off the disk. */
  function Reconciled(db: Store, refused: set<Path>): Store {
    db.(disk := db.disk - (set p | p in db.disk && Orphan(db, p) && p !in refused))
  }

  datatype Error = TooLarge | QuotaExceeded | Unavailable | Incomplete | Conflict | SizeMismatch
  datatype Result<+T> = Ok(value: T) | Err(error: Error)

  /** The visible file `f` of `user`. */
  predicate Owns(db: Store, user: UserId, f: Name) {
    f in db.files && db.files[f].owner == user && Visible(db.files[f], db.clock)
  }

  /** The unexpired upload `u` of `user`. */
  predicate Open(db: Store, user: UserId, u: Name) {
    u in db.uploads && db.uploads[u].owner == user && db.uploads[u].expires > db.clock
  }

  /** A reservation's row: it expires fifteen minutes after `begin_upload` reads the clock. */
  function NewSession(db: Store, user: UserId, size: nat): UploadRow {
    UploadRow(user, size, Pending, db.clock + UPLOAD_TTL, None)
  }

  function NewRow(user: UserId, f: Name, bytes: Bytes, expires: Option<Time>): FileRow {
    FileRow(user, |bytes|, Digest(bytes), Blob(f), 1, expires, false)
  }

  /** The upload is complete and its file is still there: completing it again returns that file. */
  predicate Repeats(db: Store, user: UserId, upload: Option<Name>) {
    && upload.Some? && Open(db, user, upload.value) && db.uploads[upload.value].state == Complete
    && db.uploads[upload.value].file.Some? && Owns(db, user, db.uploads[upload.value].file.value)
  }

  /** A file from no upload, or from a received one of the right size. */
  predicate Admits(db: Store, user: UserId, upload: Option<Name>, size: nat) {
    upload.Some? ==>
      && Open(db, user, upload.value) && db.uploads[upload.value].state == Uploaded
      && db.uploads[upload.value].size == size
  }

  /** A new file's blob and row. */
  function WithFile(db: Store, user: UserId,
                    f: Name, bytes: Bytes, expires: Option<Time>, upload: Option<Name>): Store {
    Apply(Apply(db, Write(Blob(f), bytes)), InsertFile(f, NewRow(user, f, bytes, expires), upload))
  }

  function Receiver(u: Name): Actor {
    Actor(None, None, Some(u))
  }

  predicate Claimable(db: Store, user: UserId, u: Name) {
    Open(db, user, u) && db.uploads[u].state == Pending
  }

  /** The unexpired session `u` is receiving, and has never finished. */
  predicate ReceivingNow(db: Store, u: Name) {
    u in db.uploads && db.uploads[u].state == Receiving && db.uploads[u].expires > db.clock && u !in db.staged
  }

  predicate SameFile(a: Store, b: Store, p: Path) {
    (p in a.disk <==> p in b.disk) && (p in a.disk && p in b.disk ==> a.disk[p] == b.disk[p])
  }

  /** `a` and `b` differ at most in the staging files of `u`. */
  ghost predicate SameBut(a: Store, b: Store, u: Name) {
    a == b.(disk := a.disk) && forall p :: p != Staged(u) && p != StagedPartial(u) ==> SameFile(a, b, p)
  }

  /** The session is uploaded, its staging file holds what was received, and nothing else changed. */
  ghost predicate Received(a: Store, b: Store, u: Name, received: Bytes) {
    && u in a.uploads && b.uploads == a.uploads[u := a.uploads[u].(state := Uploaded)]
    && b.staged == a.staged[u := received] && b == a.(uploads := b.uploads, staged := b.staged, disk := b.disk)
    && Staged(u) in b.disk && b.disk[Staged(u)].bytes == received && StagedPartial(u) !in b.disk
    && forall p :: p != Staged(u) && p != StagedPartial(u) ==> SameFile(a, b, p)
  }

  lemma SameChain(a: Store, b: Store, c: Store, u: Name)
    requires SameBut(a, b, u) && SameBut(b, c, u)
    ensures SameBut(a, c, u)
  {
    forall p | p != Staged(u) && p != StagedPartial(u)
      ensures SameFile(a, c, p)
    {
      assert SameFile(a, b, p) && SameFile(b, c, p);
    }
  }

  lemma SameReleased(a: Store, b: Store, u: Name)
    requires SameBut(a, b, u)
    ensures SameBut(Apply(a, SetState(u, Pending)), Apply(b, SetState(u, Pending)), u)
  {
    var a', b' := Apply(a, SetState(u, Pending)), Apply(b, SetState(u, Pending));
    forall p | p != Staged(u) && p != StagedPartial(u)
      ensures SameFile(a', b', p)
    {
      assert SameFile(a, b, p);
    }
  }

  lemma ReceivedFrom(a: Store, b: Store, c: Store, u: Name, received: Bytes)
    requires SameBut(a, b, u) && Received(b, c, u, received)
    ensures Received(a, c, u, received)
  {
    forall p | p != Staged(u) && p != StagedPartial(u)
      ensures SameFile(a, c, p)
    {
      assert SameFile(a, b, p) && SameFile(b, c, p);
    }
  }

  /** Claiming the session first makes no difference to what receiving it leaves. */
  lemma ReceivedClaimed(a: Store, b: Store, c: Store, u: Name, received: Bytes)
    requires u in a.uploads && b == Apply(a, SetState(u, Receiving)) && Received(b, c, u, received)
    ensures Received(a, c, u, received)
  {
    forall p | p != Staged(u) && p != StagedPartial(u)
      ensures SameFile(a, c, p)
    {
      assert SameFile(b, c, p);
    }
  }

  lemma BackToPending(a: Store, b: Store, u: Name)
    requires u in a.uploads && a.uploads[u].state == Pending
    requires SameBut(Apply(Apply(a, SetState(u, Receiving)), SetState(u, Pending)), b, u)
    ensures SameBut(a, b, u)
  {
    assert a.uploads[u := a.uploads[u].(state := Receiving)][u := a.uploads[u]] == a.uploads;
  }

  function Joined(chunks: seq<Bytes>): Bytes {
    if chunks == [] then [] else Joined(chunks[..|chunks| - 1]) + chunks[|chunks| - 1]
  }

  lemma JoinedNext(chunks: seq<Bytes>, i: nat)
    requires i < |chunks|
    ensures Joined(chunks[..i + 1]) == Joined(chunks[..i]) + chunks[i]
  {
    assert chunks[..i + 1][..i] == chunks[..i];
  }

  lemma {:induction false} JoinedPrefix(chunks: seq<Bytes>, i: nat)
    requires i <= |chunks|
    ensures |Joined(chunks[..i])| <= |Joined(chunks)|
    decreases |chunks|
  {
    var n := |chunks| - 1;
    if i <= n {
      JoinedPrefix(chunks[..n], i);
      assert chunks[..n][..i] == chunks[..i];
    } else {
      assert chunks[..i] == chunks;
    }
  }

  /** The upload is received, unexpired and of legal size, and the quota admits its file. */
  ghost predicate Completes(db: Store, user: UserId, u: Name) {
    && Open(db, user, u) && db.uploads[u].state == Uploaded && db.uploads[u].size <= MAX_FILE_BYTES
    && QuotaUsedExcept(db, user, Some(u)) + db.uploads[u].size <= MAX_QUOTA_BYTES
  }

  function ReceivedBytes(db: Store, u: Name): Bytes {
    if u in db.staged then db.staged[u] else []
  }

  /** The received bytes are a registered file, which lives for a day. */
  function Filed(db: Store, user: UserId, u: Name, name: Name): Store {
    WithFile(Apply(db, Issue(name, user)), user, name, ReceivedBytes(db, u), Some(db.clock + FILE_TTL), Some(u))
  }

  /** The received bytes are a registered file, and off the staging area if that unlink succeeds. */
  function AfterCompletion(
    db: Store, refused: set<Path>, user: UserId, u: Name, name: Name): Store
  {
    var filed := Filed(db, user, u, name);
    if Staged(u) in refused then filed else Apply(filed, ArtifactTables.Unlink(Staged(u)))
  }

  lemma StagedIsThere(db: Store, user: UserId, u: Name)
    requires TableInv(db, ALONE) && Open(db, user, u) && db.uploads[u].state == Uploaded
    ensures u in db.staged && Staged(u) in db.disk && db.disk[Staged(u)].bytes == db.staged[u]
    ensures |db.staged[u]| == db.uploads[u].size
  {
    assert Holds(db, Staged(u), db.staged[u]);
  }

  lemma CompletedRepeats(db: Store, user: UserId, u: Name, name: Name)
    requires Open(db, user, u)
    ensures Repeats(Filed(db, user, u, name), user, Some(u)) && Filed(db, user, u, name).uploads[u].file == Some(name)
  {
  }

  /** What a first completion registers: the received bytes, for a day; the upload names the file. */
  lemma FiledForADay(db: Store, refused: set<Path>, user: UserId, u: Name, name: Name)
    requires u in db.uploads && u in db.staged
    ensures var after, bytes := AfterCompletion(db, refused, user, u, name), db.staged[u];
            && name in after.files && u in after.uploads
            && after.files[name] ==
               FileRow(user, |bytes|, Digest(bytes), Blob(name), 1, Some(db.clock + 24 * 3600), false)
            && Blob(name) in after.disk && after.disk[Blob(name)] == DiskFile(bytes, db.clock)
            && after.uploads[u] == db.uploads[u].(state := Complete, file := Some(name))
  {
  }

  /** The caller's file is visible and as expected, and the new bytes fit in place of the old ones. */
  ghost predicate Updates(db: Store, user: UserId, f: Name, bytes: Bytes, expected: Option<Digest>) {
    && |bytes| <= MAX_FILE_BYTES && Owns(db, user, f)
    && (expected.Some? ==> expected.value == db.files[f].digest)
    && QuotaUsed(db, user) - db.files[f].size + |bytes| <= MAX_QUOTA_BYTES
  }

  function NextPath(db: Store, f: Name, token: Name): Path {
    Version(f, if f in db.files then db.files[f].version + 1 else 0, token)
  }

  /** The row's update and its old blob's retirement. */
  function RewriteOf(db: Store, f: Name, bytes: Bytes, token: Name): Effect {
    if f in db.files then
      RewriteFile(f, |bytes|, Digest(bytes), NextPath(db, f, token), db.files[f].path,
                  RetiredRow(db.files[f].owner, db.files[f].size))
    else Nothing
  }

  function WithBlob(db: Store, path: Path, bytes: Bytes): Store {
    Apply(db, Write(path, bytes))
  }

  /** A rewritten file's new blob and row, and its old blob's retirement. */
  function WithVersion(db: Store, f: Name, bytes: Bytes, token: Name): Store {
    var written := WithBlob(db, NextPath(db, f, token), bytes);
    Apply(written, RewriteOf(written, f, bytes, token))
  }

  /** A new file, written out: blob, row, and the session that is complete with it. */
  lemma FiledIs(db: Store, user: UserId, f: Name, bytes: Bytes, expires: Option<Time>, upload: Option<Name>)
    requires upload.Some? ==> upload.value in db.uploads
    ensures WithFile(db, user, f, bytes, expires, upload) ==
            db.(files := db.files[f := FileRow(user, |bytes|, Digest(bytes), Blob(f), 1, expires, false)],
                disk := db.disk[Blob(f) := DiskFile(bytes, db.clock)],
                uploads := if upload.None? then db.uploads
                           else db.uploads[upload.value :=
                                  db.uploads[upload.value].(state := Complete, file := Some(f))],
                used := db.used + {f},
                registered := if upload.None? then db.registered else db.registered + {(upload.value, f)})
  {
  }

  /** An update, written out: the new blob, the row's new size, hash, path and version, the old blob retired. */
  lemma UpdatedIs(db: Store, f: Name, bytes: Bytes, token: Name)
    requires f in db.files
    ensures var row := db.files[f];
            var path := Version(f, row.version + 1, token);
            WithVersion(db, f, bytes, token) ==
            db.(files := db.files[f := FileRow(row.owner, |bytes|, Digest(bytes), path, row.version + 1, row.expires,
                                               row.deleted)],
                retired := db.retired[row.path := RetiredRow(row.owner, row.size)],
                disk := db.disk[path := DiskFile(bytes, db.clock)],
                used := db.used + {token})
  {
  }

  /** The table invariant, for the timing of a process alone. */
  ghost predicate Kept(db: Store) {
    forall t {:trigger TableInv(db, t)} :: t == ALONE ==> TableInv(db, t)
  }

  class Registry {
    var db: Store
    const refused: set<Path> // the paths whose unlink raises OSError

    ghost predicate Valid()
      reads this
    {
      Kept(db)
    }

    constructor (refused: set<Path>)
      ensures Valid() && db == EmptyStore() && this.refused == refused
    {
      this.db, this.refused := EmptyStore(), refused;
      new;
      EmptyIsValid();
    }

    /** One statement or file-system call. */
    method Do(e: Effect, ghost me: Actor)
      requires Valid() && Allowed(db, ALONE, me, e)
      modifies this
      ensures Valid() && db == Apply(old(db), e)
    {
      TablesKept(db, ALONE, me, e);
      db := Apply(db, e);
    }

    /** `path.unlink(missing_ok=True)`. */
    method Unlink(p: Path, ghost me: Actor) returns (ok: bool)
      requires Valid() && AllowedUnlink(db, ALONE, me, p)
      modifies this
      ensures Valid() && (ok <==> p !in refused)
      ensures db == if ok then Apply(old(db), ArtifactTables.Unlink(p)) else old(db)
    {
      ok := p !in refused;
      if ok {
        Do(ArtifactTables.Unlink(p), me);
      }
    }

    /** `quota_used`. */
    method QuotaNow(user: UserId, exclude: Option<Name>) returns (used: nat)
      ensures used == QuotaUsedExcept(db, user, exclude)
    {
      var files := Sum(db.files, FileWeight(user));
      var blobs := Sum(db.retired, RetiredWeight(user));
      var uploads := if exclude.Some? then db.uploads - {exclude.value} else db.uploads;
      var reserved := Sum(uploads, UploadWeight(user));
      used := files + blobs + reserved;
    }

    /** `begin_upload`; `name` is the random upload id. */
    method BeginUpload(user: UserId, size: int, name: Name) returns (r: Result<Name>)
      requires Valid() && name !in db.issued
      modifies this
      ensures Valid()
      ensures r.Ok? <==> 0 < size <= MAX_FILE_BYTES && QuotaUsed(old(db), user) + size <= MAX_QUOTA_BYTES
      ensures r.Ok? ==>
        && r.value == name
        && db.uploads == old(db).uploads[name := UploadRow(user, size, Pending, old(db).clock + 900, None)]
      ensures r.Ok? ==>
        db == Apply(Apply(old(db), Issue(name, user)), InsertUpload(name, NewSession(old(db), user, size)))
      ensures r.Err? ==> db == old(db) || db == Apply(old(db), Issue(name, user))
    {
      if size <= 0 || size > MAX_FILE_BYTES {
        return Err(TooLarge);
      }
      DrawName(name, user);
      var used := QuotaNow(user, None);
      if used + size > MAX_QUOTA_BYTES {
        return Err(QuotaExceeded);
      }
      Do(InsertUpload(name, NewSession(db, user, size)), Drawn(user, name));
      r := Ok(name);
    }

    /** A fresh random name. */
    method DrawName(name: Name, user: UserId)
      requires Valid() && name !in db.issued
      modifies this
      ensures Valid() && db == Apply(old(db), Issue(name, user)) && name !in db.used
      ensures forall u: UserId, x :: QuotaUsedExcept(db, u, x) == QuotaUsedExcept(old(db), u, x)
    {
      assert TableInv(db, ALONE);
      Do(Issue(name, user), NOBODY);
    }

    /** The blob and the row of an admitted file. */
    method Store(user: UserId, f: Name, bytes: Bytes, expires: Option<Time>, upload: Option<Name>)
      requires Valid() && f in db.issued && db.issued[f] == user && f !in db.used && |bytes| <= MAX_FILE_BYTES
      requires Admits(db, user, upload, |bytes|) && (upload.Some? ==> bytes == ReceivedBytes(db, upload.value))
      requires QuotaUsedExcept(db, user, upload) + |bytes| <= MAX_QUOTA_BYTES
      modifies this
      ensures Valid() && db == WithFile(old(db), user, f, bytes, expires, upload)
    {
      assert TableInv(db, ALONE);
      Do(Write(Blob(f), bytes), Drawn(user, f));
      Do(InsertFile(f, NewRow(user, f, bytes, expires), upload), Drawn(user, f));
    }

    /** The upload's checks in `create_file`: an already registered file, or none, or a refusal. */
    method Admit(user: UserId, upload: Option<Name>, size: nat) returns (r: Result<Option<Name>>)
      ensures r.Ok? <==> Repeats(db, user, upload) || Admits(db, user, upload, size)
      ensures r.Ok? ==>
        r.value == if Repeats(db, user, upload) then Some(db.uploads[upload.value].file.value) else None
    {
      if upload.Some? {
        if !Open(db, user, upload.value) {
          return Err(Unavailable);
        }
        var row := db.uploads[upload.value];
        if row.state == Complete {
          r := if row.file.Some? && Owns(db, user, row.file.value) then Ok(row.file) else Err(Unavailable);
          return;
        }
        if row.state != Uploaded || row.size != size {
          return Err(Incomplete);
        }
      }
      r := Ok(None);
    }

    /** `create_file`; `name` is the random file id. */
    method CreateFile(user: UserId, bytes: Bytes, expires: Option<Time>, upload: Option<Name>, name: Name)
      returns (r: Result<Name>)
      requires Valid() && name !in db.issued
      requires upload.Some? && upload.value in db.staged ==> bytes == db.staged[upload.value]
      modifies this
      ensures Valid()
      ensures r.Ok? <==>
        && |bytes| <= MAX_FILE_BYTES
        && (Repeats(old(db), user, upload)
            || (Admits(old(db), user, upload, |bytes|)
                && QuotaUsedExcept(old(db), user, upload) + |bytes| <= MAX_QUOTA_BYTES))
      ensures r.Ok? && Repeats(old(db), user, upload) ==>
        Some(r.value) == old(db).uploads[upload.value].file && db == Apply(old(db), Issue(name, user))
      ensures r.Ok? && !Repeats(old(db), user, upload) ==>
        && r.value == name && db == WithFile(Apply(old(db), Issue(name, user)), user, name, bytes, expires, upload)
        && db.files[name] == FileRow(user, |bytes|, Digest(bytes), Blob(name), 1, expires, false)
        && db.disk[Blob(name)] == DiskFile(bytes, old(db).clock)
      ensures r.Err? ==> db == old(db) || db == Apply(old(db), Issue(name, user))
    {
      if |bytes| > MAX_FILE_BYTES {
        return Err(TooLarge);
      }
      DrawName(name, user);
      var admission := Admit(user, upload, |bytes|);
      if admission.Err? {
        return Err(admission.error);
      }
      if admission.value.Some? {
        return Ok(admission.value.value);
      }
      var used := QuotaNow(user, upload);
      if used + |bytes| > MAX_QUOTA_BYTES {
        return Err(QuotaExceeded);
      }
      assert TableInv(db, ALONE);
      Store(user, name, bytes, expires, upload);
      r := Ok(name);
    }

    /** The claim of a pending session: state = 'receiving'. */
    method Claim(user: UserId, u: Name) returns (ok: bool)
      requires Valid()
      modifies this
      ensures Valid() && (ok <==> Claimable(old(db), user, u))
      ensures db == if ok then Apply(old(db), SetState(u, Receiving)) else old(db)
      ensures ok ==> ReceivingNow(db, u)
    {
      assert TableInv(db, ALONE);
      ok := u in db.uploads && db.uploads[u].owner == user && db.uploads[u].state == Pending
        && db.uploads[u].expires > db.clock;
      if ok {
        Do(SetState(u, Receiving), NOBODY);
      }
    }

    /** The open partial file now holds `got`. */
    method WritePartial(u: Name, got: Bytes)
      requires Valid() && ReceivingNow(db, u)
      modifies this
      ensures Valid() && ReceivingNow(db, u) && SameBut(old(db), db, u)
      ensures StagedPartial(u) in db.disk && db.disk[StagedPartial(u)].bytes == got
    {
      assert TableInv(db, ALONE);
      Do(Write(StagedPartial(u), got), Receiver(u));
    }

    /** os.replace(temporary, path), then state = 'uploaded'. */
    method Place(u: Name, got: Bytes)
      requires Valid() && ReceivingNow(db, u) && |got| == db.uploads[u].size
      requires StagedPartial(u) in db.disk && db.disk[StagedPartial(u)].bytes == got
      modifies this
      ensures Valid() && Received(old(db), db, u, got)
    {
      Replace(u);
      Finish(u, got);
    }

    /** os.replace(temporary, path). */
    method Replace(u: Name)
      requires Valid() && ReceivingNow(db, u) && StagedPartial(u) in db.disk
      modifies this
      ensures Valid() && ReceivingNow(db, u)
      ensures db == Apply(old(db), Rename(StagedPartial(u), Staged(u)))
    {
      assert TableInv(db, ALONE);
      Do(Rename(StagedPartial(u), Staged(u)), Receiver(u));
    }

    /** state = 'uploaded'. */
    method Finish(u: Name, got: Bytes)
      requires Valid() && ReceivingNow(db, u) && |got| == db.uploads[u].size
      requires Staged(u) in db.disk && db.disk[Staged(u)].bytes == got
      modifies this
      ensures Valid() && db == Apply(old(db), FinishUpload(u, got))
    {
      Do(FinishUpload(u, got), Receiver(u));
    }

    /** One unlink of the clean-up; a failure is left to garbage collection. */
    method Discard(u: Name, p: Path)
      requires Valid() && ReceivingNow(db, u) && (p == Staged(u) || p == StagedPartial(u))
      modifies this
      ensures Valid() && ReceivingNow(db, u) && SameBut(old(db), db, u)
      ensures p in db.disk ==> p in refused
      ensures forall q :: q in db.disk ==> q in old(db).disk
    {
      var _ := Unlink(p, Receiver(u));
    }

    /** state = 'pending' again. */
    method Release(u: Name)
      requires Valid() && ReceivingNow(db, u)
      modifies this
      ensures Valid() && db == Apply(old(db), SetState(u, Pending))
    {
      Do(SetState(u, Pending), Receiver(u));
    }

    /** The clean-up of a failed transfer: both files, then the session. */
    method Abort(u: Name)
      requires Valid() && ReceivingNow(db, u)
      modifies this
      ensures Valid() && SameBut(Apply(old(db), SetState(u, Pending)), db, u)
      ensures StagedPartial(u) in db.disk ==> StagedPartial(u) in refused
      ensures Staged(u) in db.disk ==> Staged(u) in refused
    {
      ghost var before := db;
      Discard(u, StagedPartial(u));
      ghost var half := db;
      Discard(u, Staged(u));
      SameChain(before, half, db, u);
      SameReleased(before, db, u);
      Release(u);
    }

    /** The copying loop: it stops past the expected size. */
    method Stream(u: Name, expected: nat, chunks: seq<Bytes>) returns (total: nat)
      requires Valid() && ReceivingNow(db, u)
      modifies this
      ensures Valid() && ReceivingNow(db, u) && SameBut(old(db), db, u)
      ensures total == expected <==> |Joined(chunks)| == expected
      ensures total == expected ==> StagedPartial(u) in db.disk && db.disk[StagedPartial(u)].bytes == Joined(chunks)
    {
      WritePartial(u, []);
      var got: Bytes, i := [], 0;
      total := 0;
      while i < |chunks| && total <= expected
        invariant 0 <= i <= |chunks| && got == Joined(chunks[..i]) && total == |got|
        invariant Valid() && ReceivingNow(db, u) && SameBut(old(db), db, u)
        invariant total <= expected ==> StagedPartial(u) in db.disk && db.disk[StagedPartial(u)].bytes == got
      {
        JoinedNext(chunks, i);
        got, total := got + chunks[i], total + |chunks[i]|;
        ghost var before := db;
        if total <= expected {
          WritePartial(u, got);
          SameChain(old(db), before, db, u);
        }
        i := i + 1;
      }
      JoinedPrefix(chunks, i);
      assert chunks[..|chunks|] == chunks;
    }

    /**
     * The body of the `upload` handler: `claimed` is the size in the capability, `declared` the
     * Content-Length if there is one (-1 when it is no number), `chunks` the request body.
     */
    method ReceiveUpload(user: UserId, u: Name, claimed: int, declared: Option<int>, chunks: seq<Bytes>)
      returns (ok: bool)
      requires Valid()
      modifies this
      ensures Valid()
      ensures ok <==> Claimable(old(db), user, u) && claimed == old(db).uploads[u].size <= MAX_FILE_BYTES
                      && (declared.Some? ==> declared.value == claimed) && |Joined(chunks)| == claimed
      ensures ok ==> Received(old(db), db, u, Joined(chunks))
      ensures !ok ==> SameBut(old(db), db, u)
    {
      ok := Claim(user, u);
      if !ok {
        return;
      }
      ghost var claimedDb := db;
      ok := ReceiveClaimed(u, claimed, declared, chunks);
      if ok {
        ReceivedClaimed(old(db), claimedDb, db, u, Joined(chunks));
      } else {
        BackToPending(old(db), db, u);
      }
    }

    /** After the claim. */
    method ReceiveClaimed(u: Name, claimed: int, declared: Option<int>, chunks: seq<Bytes>) returns (ok: bool)
      requires Valid() && ReceivingNow(db, u)
      modifies this
      ensures Valid()
      ensures ok <==> claimed == old(db).uploads[u].size <= MAX_FILE_BYTES
                      && (declared.Some? ==> declared.value == claimed) && |Joined(chunks)| == claimed
      ensures ok ==> Received(old(db), db, u, Joined(chunks))
      ensures !ok ==> SameBut(Apply(old(db), SetState(u, Pending)), db, u)
    {
      var expected := db.uploads[u].size;
      if expected != claimed || expected > MAX_FILE_BYTES || (declared.Some? && declared.value != expected) {
        Abort(u);
        return false;
      }
      var total := Stream(u, expected, chunks);
      ghost var streamed := db;
      if total != expected {
        Abort(u);
        SameReleased(old(db), streamed, u);
        SameChain(Apply(old(db), SetState(u, Pending)), Apply(streamed, SetState(u, Pending)), db, u);
        return false;
      }
      Place(u, Joined(chunks));
      ReceivedFrom(old(db), streamed, db, u, Joined(chunks));
      ok := true;
    }

    /** `complete_upload`; alone, an unexpired uploaded session always finds its staged bytes. */
    method CompleteUpload(user: UserId, u: Name, name: Name) returns (r: Result<Name>)
      requires Valid() && name !in db.issued
      modifies this
      ensures Valid()
      ensures r.Ok? <==> Repeats(old(db), user, Some(u)) || Completes(old(db), user, u)
      ensures r.Ok? && Repeats(old(db), user, Some(u)) ==>
        Some(r.value) == old(db).uploads[u].file && db == old(db)
      ensures r.Ok? && !Repeats(old(db), user, Some(u)) ==>
        r.value == name && db == AfterCompletion(old(db), refused, user, u, name)
      ensures r.Ok? ==> Repeats(db, user, Some(u)) && db.uploads[u].file == Some(r.value)
      ensures r.Err? ==> db == old(db) || db == Apply(old(db), Issue(name, user))
    {
      if !Open(db, user, u) {
        return Err(Unavailable);
      }
      var row := db.uploads[u];
      if row.state == Complete {
        r := if row.file.Some? && Owns(db, user, row.file.value) then Ok(row.file.value) else Err(Unavailable);
        return;
      }
      if row.state != Uploaded {
        return Err(Incomplete);
      }
      StagedIsThere(db, user, u);
      var blob := Take(db.disk[Staged(u)].bytes, MAX_FILE_BYTES + 1);
      if |blob| != row.size {
        return Err(SizeMismatch);
      }
      r := CreateFile(user, blob, Some(db.clock + FILE_TTL), Some(u), name);
      if r.Ok? {
        CompletedRepeats(old(db), user, u, name);
        UnlinkCompleted(user, u);
      }
    }

    /** The staged bytes of a completed upload; a failure is left to garbage collection. */
    method UnlinkCompleted(user: UserId, u: Name)
      requires Valid() && Repeats(db, user, Some(u))
      modifies this
      ensures Valid() && Repeats(db, user, Some(u)) && db.uploads == old(db).uploads
      ensures db == if Staged(u) in refused then old(db) else Apply(old(db), ArtifactTables.Unlink(Staged(u)))
    {
      var _ := Unlink(Staged(u), NOBODY);
    }

    /** The new version's blob. */
    method WriteVersion(user: UserId, f: Name, bytes: Bytes, token: Name)
      requires Valid() && token in db.issued && token !in db.used && Owns(db, user, f)
      requires QuotaUsed(db, user) - db.files[f].size + |bytes| <= MAX_QUOTA_BYTES
      modifies this
      ensures Valid() && db == WithBlob(old(db), NextPath(old(db), f, token), bytes)
      ensures token in db.issued && token !in db.used && Owns(db, user, f)
      ensures NextPath(db, f, token) in db.disk && db.disk[NextPath(db, f, token)] == DiskFile(bytes, db.clock)
      ensures QuotaUsed(db, user) - db.files[f].size + |bytes| <= MAX_QUOTA_BYTES
    {
      Do(Write(NextPath(db, f, token), bytes), Drawn(user, token));
    }

    /** The row's update and the retirement row. */
    method CommitVersion(user: UserId, f: Name, bytes: Bytes, token: Name)
      requires Valid() && token in db.issued && token !in db.used && |bytes| <= MAX_FILE_BYTES && Owns(db, user, f)
      requires NextPath(db, f, token) in db.disk && db.disk[NextPath(db, f, token)] == DiskFile(bytes, db.clock)
      requires QuotaUsed(db, user) - db.files[f].size + |bytes| <= MAX_QUOTA_BYTES
      modifies this
      ensures Valid() && db == Apply(old(db), RewriteOf(old(db), f, bytes, token))
    {
      assert TableInv(db, ALONE);
      Do(RewriteOf(db, f, bytes, token), Drawn(user, token));
    }

    /** `update_file_blob`; `token` is the random part of the new path. */
    method UpdateFileBlob(user: UserId, f: Name, bytes: Bytes, expected: Option<Digest>, token: Name)
      returns (r: Result<()>)
      requires Valid() && token !in db.issued
      modifies this
      ensures Valid()
      ensures r.Ok? <==> Updates(old(db), user, f, bytes, expected)
      ensures r.Ok? ==>
        var written := WithVersion(Apply(old(db), Issue(token, user)), f, bytes, token);
        db == WithoutBlobs(written, RetiredGone(written, refused, Some(user)))
      ensures r.Err? ==> db == old(db)
    {
      if |bytes| > MAX_FILE_BYTES {
        return Err(TooLarge);
      }
      if !Owns(db, user, f) {
        return Err(Unavailable);
      }
      if expected.Some? && expected.value != db.files[f].digest {
        return Err(Conflict);
      }
      var used := QuotaNow(user, None);
      if used - db.files[f].size + |bytes| > MAX_QUOTA_BYTES {
        return Err(QuotaExceeded);
      }
      DrawName(token, user);
      WriteVersion(user, f, bytes, token);
      CommitVersion(user, f, bytes, token);
      CollectRetired(Some(user));
      r := Ok(());
    }

    /** `soft_delete`. */
    method SoftDelete(user: UserId, f: Name) returns (deleted: bool)
      requires Valid()
      modifies this
      ensures Valid()
      ensures (deleted <==> f in old(db).files && old(db).files[f].owner == user && !old(db).files[f].deleted)
      ensures db == if deleted then Apply(old(db), MarkDeleted(f)) else old(db)
    {
      deleted := f in db.files && db.files[f].owner == user && !db.files[f].deleted;
      if deleted {
        Do(MarkDeleted(f), NOBODY);
      }
    }

    /** One transaction of `_collect_retired`. */
    method RetireOne(p: Path) returns (ok: bool)
      requires Valid() && p in db.retired
      modifies this
      ensures Valid() && (ok <==> p !in refused)
      ensures db == if ok then WithoutBlobs(old(db), {p}) else old(db)
    {
      ghost var me := Holding(db.retired[p].owner);
      RetiredIsFree(db, p);
      ok := Unlink(p, me);
      if ok {
        Do(DeleteRetired(p), me);
      }
    }

    /** `_collect_retired`. */
    method CollectRetired(user: Option<UserId>)
      requires Valid()
      modifies this
      ensures Valid() && db == WithoutBlobs(old(db), RetiredGone(old(db), refused, user))
    {
      ghost var before := db;
      var left := set p | p in db.retired && (user.Some? ==> db.retired[p].owner == user.value);
      ghost var gone: set<Path> := {};
      NoBlobsLess(db);
      while left != {}
        invariant Valid() && db == WithoutBlobs(before, gone)
        invariant forall p :: p in left ==> p in before.retired && p !in gone
        invariant forall p :: p in left && user.Some? ==> before.retired[p].owner == user.value
        invariant forall p :: p in gone ==> Retires(before, refused, user, p)
        invariant forall p :: Retires(before, refused, user, p) ==> p in left || p in gone
        decreases left
      {
        var p :| p in left;
        left := left - {p};
        var ok := RetireOne(p);
        if ok {
          OneBlobMore(before, gone, p);
          gone := gone + {p};
        }
      }
      assert gone == RetiredGone(before, refused, user);
    }
  
    /** A claimed row's blob; `row.path` is known to be a blob. */
    method UnlinkClaimed(f: Name, ghost path: Path) returns (ok: bool)
      requires Valid() && Claimed(db, f) && db.files[f].path == path
      modifies this
      ensures Valid() && (ok <==> path !in refused) && IsBlob(path)
      ensures db == if ok then Apply(old(db), ArtifactTables.Unlink(path)) else old(db)
    {
      ClaimedIsFree(db, f);
      ok := Unlink(db.files[f].path, Holding(db.files[f].owner));
    }

    method UnlinkPartial(path: Path) returns (ok: bool)
      requires Valid() && IsBlob(path)
      modifies this
      ensures Valid() && (ok <==> Partial(path) !in refused)
      ensures db == if ok then Apply(old(db), ArtifactTables.Unlink(Partial(path))) else old(db)
    {
      ok := Unlink(Partial(path), NOBODY);
    }

    /** DELETE FROM files, or, when an unlink failed, SET deleted_at = COALESCE(deleted_at, now()). */
    method Settle(f: Name, unlinked: bool)
      requires Valid() && Claimed(db, f)
      modifies this
      ensures Valid() && db == Apply(old(db), if unlinked then DeleteFile(f) else MarkDeleted(f))
    {
      Do(if unlinked then DeleteFile(f) else MarkDeleted(f), Holding(db.files[f].owner));
    }

    /** One transaction of the first loop of `gc_expired`. */
    method ExpireOne(f: Name) returns (ok: bool)
      requires Valid() && Claimed(db, f)
      modifies this
      ensures Valid() && (ok <==> Removable(old(db), refused, f))
      ensures db == OutcomeOf(old(db), refused, f)
    {
      var path := db.files[f].path;
      ok := UnlinkClaimed(f, path);
      if ok {
        ok := UnlinkPartial(path);
      }
      Settle(f, ok);
    }

    /** The first loop of `gc_expired`. */
    method ExpireFiles() returns (claimed: nat, removed: nat)
      requires Valid()
      modifies this
      ensures Valid() && db == Expired(old(db), refused, AllClaimed(old(db)))
      ensures claimed == |AllClaimed(old(db))| && removed == |Gone(old(db), refused, AllClaimed(old(db)))|
    {
      ghost var before := db;
      var left := AllClaimed(db);
      claimed, removed := |left|, 0;
      ghost var done: set<Name> := {};
      NothingExpired(db, refused);
      while left != {}
        invariant Valid() && db == Expired(before, refused, done) && removed == |Gone(before, refused, done)|
        invariant forall f :: f in left ==> Claimed(before, f) && f !in done
        invariant forall f :: Claimed(before, f) ==> f in left || f in done
        invariant forall f :: f in done ==> Claimed(before, f)
        decreases left
      {
        var f :| f in left;
        left := left - {f};
        StillClaimed(before, refused, done, f);
        ExpiredOne(db, refused, f);
        var ok := ExpireOne(f);
        OneFileMore(before, refused, done, f);
        done := done + {f};
        if ok {
          removed := removed + 1;
        }
      }
      assert done == AllClaimed(before);
    }
  
    /** A lapsed session's staging file, or its partial one. */
    method UnlinkStaging(u: Name, p: Path) returns (ok: bool)
      requires Valid() && Lapsed(db, u) && (p == Staged(u) || p == StagedPartial(u))
      modifies this
      ensures Valid() && (ok <==> p !in refused)
      ensures db == if ok then Apply(old(db), ArtifactTables.Unlink(p)) else old(db)
    {
      ok := Unlink(p, NOBODY);
    }

    /** DELETE FROM artifact_uploads, under the owner's lock. */
    method DropSession(u: Name)
      requires Valid() && Lapsed(db, u)
      modifies this
      ensures Valid() && db == Apply(old(db), DeleteUpload(u))
    {
      Do(DeleteUpload(u), Holding(db.uploads[u].owner));
    }

    /** One transaction of the second loop of `gc_expired`. */
    method CloseOne(u: Name)
      requires Valid() && Lapsed(db, u)
      modifies this
      ensures Valid() && db == Closed(old(db), refused, {u})
    {
      ClosedOne(db, refused, u);
      var ok := UnlinkStaging(u, Staged(u));
      if ok {
        ok := UnlinkStaging(u, StagedPartial(u));
      }
      if ok {
        DropSession(u);
      }
    }

    /** The second loop of `gc_expired`. */
    method CloseSessions()
      requires Valid()
      modifies this
      ensures Valid() && db == Closed(old(db), refused, AllLapsed(old(db)))
    {
      ghost var before := db;
      var left := AllLapsed(db);
      ghost var done: set<Name> := {};
      NothingClosed(db, refused);
      while left != {}
        invariant Valid() && db == Closed(before, refused, done)
        invariant forall u :: u in left ==> Lapsed(before, u) && u !in done
        invariant forall u :: Lapsed(before, u) ==> u in left || u in done
        invariant forall u :: u in done ==> Lapsed(before, u)
        decreases left
      {
        var u :| u in left;
        left := left - {u};
        CloseOne(u);
        OneSessionMore(before, refused, done, u);
        done := done + {u};
      }
      assert done == AllLapsed(before);
    }

    /** The unlink of one orphan. */
    method UnlinkOrphan(p: Path, ghost before: Store) returns (ok: bool)
      requires Valid() && Orphan(before, p)
      requires db == before.(disk := db.disk) && p in db.disk && db.disk[p] == before.disk[p]
      modifies this
      ensures Valid() && (ok <==> p !in refused)
      ensures db == if ok then Apply(old(db), ArtifactTables.Unlink(p)) else old(db)
    {
      OrphanIsFree(db, p);
      ok := Unlink(p, NOBODY);
    }

    /** `reconcile_orphans`. */
    method ReconcileOrphans()
      requires Valid()
      modifies this
      ensures Valid() && db == Reconciled(old(db), refused)
    {
      ghost var before := db;
      var live, threshold := LivePaths(db), db.clock - ORPHAN_AGE;
      var left := db.disk.Keys;
      ghost var gone: set<Path> := {};
      NothingRemoved(db);
      while left != {}
        invariant Valid() && db == Removed(before, gone)
        invariant forall p :: p in left ==> p in before.disk && p !in gone
        invariant forall p :: p in gone ==> Orphan(before, p) && p !in refused
        invariant forall p :: Orphan(before, p) && p !in refused ==> p in left || p in gone
        decreases left
      {
        var p :| p in left;
        left := left - {p};
        if db.disk[p].mtime < threshold && p !in live {
          var ok := UnlinkOrphan(p, before);
          if ok {
            OneRemovedMore(before, gone, p);
            gone := gone + {p};
          }
        }
      }
      AllRemoved(before, refused, gone);
    }

    /** Retirement and the first loop of `gc_expired`. */
    method GcFiles() returns (claimed: nat, removed: nat)
      requires Valid()
      modifies this
      ensures Valid() && db == FilesCollected(old(db), refused)
      ensures claimed == |AllClaimed(old(db))| && removed == |Gone(old(db), refused, AllClaimed(old(db)))|
    {
      RetiredKeepsClaims(db, refused, RetiredGone(db, refused, None));
      CollectRetired(None);
      claimed, removed := ExpireFiles();
    }

    /** The second loop of `gc_expired`, and reconciliation. */
    method GcSessions()
      requires Valid()
      modifies this
      ensures Valid() && db == SessionsCollected(old(db), refused)
    {
      CloseSessions();
      ReconcileOrphans();
    }

    /** `gc_expired`. */
    method GcExpired() returns (softDeleted: nat, blobsRemoved: nat)
      requires Valid()
      modifies this
      ensures Valid() && db == Collected(old(db), refused)
      ensures softDeleted == |AllClaimed(old(db))| && blobsRemoved == |Gone(old(db), refused, AllClaimed(old(db)))|
    {
      softDeleted, blobsRemoved := GcFiles();
      GcSessions();
    }
  }

  lemma EmptyIsValid()
    ensures TableInv(EmptyStore(), ALONE)
  {
    forall user: UserId
      ensures QuotaUsed(EmptyStore(), user) == 0
    {
    }
  }

  lemma RetiredIsFree(db: Store, p: Path)
    requires TableInv(db, ALONE) && p in db.retired
    ensures AllowedUnlink(db, ALONE, Holding(db.retired[p].owner), p)
  {
  }

  lemma NoBlobsLess(db: Store)
    ensures WithoutBlobs(db, {}) == db
  {
    assert db.retired - {} == db.retired && db.disk - {} == db.disk;
  }

  lemma OneBlobMore(db: Store, gone: set<Path>, p: Path)
    ensures WithoutBlobs(WithoutBlobs(db, gone), {p}) == WithoutBlobs(db, gone + {p})
  {
    assert db.retired - gone - {p} == db.retired - (gone + {p});
    assert db.disk - gone - {p} == db.disk - (gone + {p});
  }

  function AllClaimed(db: Store): set<Name> {
    set f | f in db.files && Claimed(db, f)
  }

  lemma ClaimedIsFree(db: Store, f: Name)
    requires TableInv(db, ALONE) && Claimed(db, f)
    ensures AllowedUnlink(db, ALONE, Holding(db.files[f].owner), db.files[f].path)
    ensures IsBlob(db.files[f].path) && db.files[f].path != Partial(db.files[f].path)
  {
    assert FileNamed(db, f);
    forall g | g in db.files && db.files[g].path == db.files[f].path
      ensures g == f
    {
      assert FileNamed(db, g);
    }
  }

  lemma NothingExpired(db: Store, refused: set<Path>)
    ensures Expired(db, refused, {}) == db && Gone(db, refused, {}) == {}
  {
    assert GonePaths(db, refused, {}) == {};
    assert db.disk - {} == db.disk;
    assert Tombstoned(db.files, {}) - {} == db.files;
    assert Orphaned(db.uploads, {}) == db.uploads;
  }

  lemma UnlinkTwo(disk: map<Path, DiskFile>, p: Path, q: Path)
    ensures disk - {p} - {q} == disk - {p, q}
  {
  }

  lemma OneTombstone(files: map<Name, FileRow>, f: Name)
    requires f in files
    ensures Tombstoned(files, {f}) - {} == files[f := files[f].(deleted := true)]
    ensures Tombstoned(files, {f}) - {f} == files - {f}
  {
  }

  lemma OneOrphaned(uploads: map<Name, UploadRow>, f: Name)
    ensures Orphaned(uploads, {f}) == Unreference(uploads, f)
    ensures Orphaned(uploads, {}) == uploads
  {
  }

  lemma OneGone(db: Store, refused: set<Path>, f: Name)
    requires Claimed(db, f)
    ensures Gone(db, refused, {f}) == if Removable(db, refused, f) then {f} else {}
    ensures GonePaths(db, refused, {f}) == PathsOf(db, refused, f)
  {
  }

  /** The effects of one row's transaction, in its three outcomes. */
  function OutcomeOf(db: Store, refused: set<Path>, f: Name): Store
    requires Claimed(db, f)
  {
    var path := db.files[f].path;
    if path in refused then Apply(db, MarkDeleted(f))
    else
      var half := Apply(db, ArtifactTables.Unlink(path));
      if Partial(path) in refused then Apply(half, MarkDeleted(f))
      else Apply(Apply(half, ArtifactTables.Unlink(Partial(path))), DeleteFile(f))
  }

  lemma ExpiredOne(db: Store, refused: set<Path>, f: Name)
    requires Claimed(db, f)
    ensures Expired(db, refused, {f}) == OutcomeOf(db, refused, f)
  {
    var path := db.files[f].path;
    OneGone(db, refused, f);
    OneTombstone(db.files, f);
    OneOrphaned(db.uploads, f);
    UnlinkTwo(db.disk, path, Partial(path));
    assert db.disk - {} == db.disk;
  }

  lemma StillClaimed(db: Store, refused: set<Path>, done: set<Name>, f: Name)
    requires Claimed(db, f) && f !in done
    ensures Claimed(Expired(db, refused, done), f)
    ensures Expired(db, refused, done).files[f] == db.files[f]
  {
  }

  lemma TombstonedTwice(files: map<Name, FileRow>, done: set<Name>, f: Name, gone: set<Name>, more: set<Name>)
    ensures Tombstoned(Tombstoned(files, done) - gone, {f}) - more == Tombstoned(files, done + {f}) - (gone + more)
  {
  }

  lemma OrphanedTwice(uploads: map<Name, UploadRow>, gone: set<Name>, more: set<Name>)
    ensures Orphaned(Orphaned(uploads, gone), more) == Orphaned(uploads, gone + more)
  {
  }

  lemma GoneMore(db: Store, refused: set<Path>, done: set<Name>, f: Name)
    requires Claimed(db, f) && f !in done
    ensures Gone(db, refused, done + {f}) == Gone(db, refused, done) + if Removable(db, refused, f) then {f} else {}
    ensures GonePaths(db, refused, done + {f}) == GonePaths(db, refused, done) + PathsOf(db, refused, f)
  {
    var all := GonePaths(db, refused, done + {f});
    forall p | p in GonePaths(db, refused, done) + PathsOf(db, refused, f)
      ensures p in all
    {
      if p in PathsOf(db, refused, f) {
        assert f in done + {f};
      } else {
        var g :| g in done && p in PathsOf(db, refused, g);
        assert g in done + {f};
      }
    }
  }

  lemma OneFileMore(db: Store, refused: set<Path>, done: set<Name>, f: Name)
    requires Claimed(db, f) && f !in done
    ensures Expired(Expired(db, refused, done), refused, {f}) == Expired(db, refused, done + {f})
    ensures Gone(db, refused, done + {f}) == Gone(db, refused, done) + if Removable(db, refused, f) then {f} else {}
  {
    var mid := Expired(db, refused, done);
    StillClaimed(db, refused, done, f);
    assert Removable(mid, refused, f) == Removable(db, refused, f);
    assert HalfRemovable(mid, refused, f) == HalfRemovable(db, refused, f);
    OneGone(mid, refused, f);
    GoneMore(db, refused, done, f);
    var gone, more := Gone(db, refused, done), Gone(mid, refused, {f});
    TombstonedTwice(db.files, done, f, gone, more);
    OrphanedTwice(db.uploads, gone, more);
    assert db.disk - GonePaths(db, refused, done) - PathsOf(db, refused, f)
        == db.disk - (GonePaths(db, refused, done) + PathsOf(db, refused, f));
  }

  function AllLapsed(db: Store): set<Name> {
    set u | u in db.uploads && Lapsed(db, u)
  }

  function FilesCollected(db: Store, refused: set<Path>): Store {
    var retired := WithoutBlobs(db, RetiredGone(db, refused, None));
    Expired(retired, refused, AllClaimed(retired))
  }

  function SessionsCollected(db: Store, refused: set<Path>): Store {
    Reconciled(Closed(db, refused, AllLapsed(db)), refused)
  }

  /** What one `gc_expired` leaves. */
  function Collected(db: Store, refused: set<Path>): Store {
    SessionsCollected(FilesCollected(db, refused), refused)
  }

  lemma RetiredKeepsClaims(db: Store, refused: set<Path>, blobs: set<Path>)
    ensures AllClaimed(WithoutBlobs(db, blobs)) == AllClaimed(db)
    ensures Gone(WithoutBlobs(db, blobs), refused, AllClaimed(db)) == Gone(db, refused, AllClaimed(db))
  {
  }

  function Removed(db: Store, gone: set<Path>): Store {
    db.(disk := db.disk - gone)
  }

  lemma NothingRemoved(db: Store)
    ensures Removed(db, {}) == db
  {
    assert db.disk - {} == db.disk;
  }

  lemma OneRemovedMore(db: Store, gone: set<Path>, p: Path)
    ensures Apply(Removed(db, gone), ArtifactTables.Unlink(p)) == Removed(db, gone + {p})
  {
    assert db.disk - gone - {p} == db.disk - (gone + {p});
  }

  lemma AllRemoved(db: Store, refused: set<Path>, gone: set<Path>)
    requires forall p :: p in gone <==> Orphan(db, p) && p !in refused
    ensures Removed(db, gone) == Reconciled(db, refused)
  {
    assert gone == (set p | p in db.disk && Orphan(db, p) && p !in refused);
  }

  lemma NothingClosed(db: Store, refused: set<Path>)
    ensures Closed(db, refused, {}) == db
  {
    assert ClosedPaths(refused, {}) == {};
    assert db.disk - {} == db.disk && db.uploads - {} == db.uploads;
  }

  /** The disk after one session's unlinks. */
  lemma ClosedDisk(disk: map<Path, DiskFile>, refused: set<Path>, u: Name)
    ensures disk - ClosedPaths(refused, {u}) ==
      if Staged(u) in refused then disk
      else if StagedPartial(u) in refused then disk - {Staged(u)}
      else disk - {Staged(u)} - {StagedPartial(u)}
  {
    OneClosed(refused, u);
    UnlinkTwo(disk, Staged(u), StagedPartial(u));
    assert disk - {} == disk;
  }

  lemma ClosedUploads(uploads: map<Name, UploadRow>, refused: set<Path>, u: Name)
    ensures uploads - ClosedSessions(refused, {u}) ==
      if Closable(refused, u) then uploads - {u} else uploads
  {
    OneClosed(refused, u);
    assert uploads - {} == uploads;
  }

  lemma ClosedOne(db: Store, refused: set<Path>, u: Name)
    ensures Closed(db, refused, {u}) ==
      if Staged(u) in refused then db
      else
        var half := Apply(db, ArtifactTables.Unlink(Staged(u)));
        if StagedPartial(u) in refused then half
        else Apply(Apply(half, ArtifactTables.Unlink(StagedPartial(u))), DeleteUpload(u))
  {
    ClosedDisk(db.disk, refused, u);
    ClosedUploads(db.uploads, refused, u);
  }

  lemma OneClosed(refused: set<Path>, u: Name)
    ensures ClosedPaths(refused, {u}) ==
            if Staged(u) in refused then {}
            else if StagedPartial(u) in refused then {Staged(u)}
            else {Staged(u), StagedPartial(u)}
    ensures ClosedSessions(refused, {u}) == if Closable(refused, u) then {u} else {}
  {
  }

  lemma OneSessionMore(db: Store, refused: set<Path>, done: set<Name>, u: Name)
    ensures Closed(Closed(db, refused, done), refused, {u}) == Closed(db, refused, done + {u})
  {
    var a, b := ClosedSessions(refused, done), ClosedSessions(refused, {u});
    assert ClosedSessions(refused, done + {u}) == a + b;
    assert db.uploads - a - b == db.uploads - (a + b);
    assert ClosedPaths(refused, done + {u}) == ClosedPaths(refused, done) + ClosedPaths(refused, {u});
    assert db.disk - ClosedPaths(refused, done) - ClosedPaths(refused, {u})
        == db.disk - (ClosedPaths(refused, done) + ClosedPaths(refused, {u}));
  }

  lemma OrphanIsFree(db: Store, p: Path)
    requires Orphan(db, p)
    ensures AllowedUnlink(db, ALONE, NOBODY, p)
  {
    forall u | u in db.uploads
      ensures Staged(u) in LivePaths(db)
    {
      assert Staged(u) in (set v | v in db.uploads :: Staged(v));
    }
    forall f | f in db.files
      ensures db.files[f].path in LivePaths(db)
    {
      assert db.files[f].path in (set g | g in db.files :: db.files[g].path);
    }
  }

  // ----- What garbage collection promises --------------------------------------------------------

  /** The path of a visible row is none that a claimed row's removal touches. */
  lemma OthersPathsDiffer(db: Store, refused: set<Path>, f: Name)
    requires TableInv(db, ALONE) && f in db.files && !Claimed(db, f)
    ensures db.files[f].path !in GonePaths(db, refused, AllClaimed(db)) && db.files[f].path !in db.retired
  {
    var path := db.files[f].path;
    assert FileNamed(db, f);
    forall g | g in AllClaimed(db)
      ensures path !in PathsOf(db, refused, g)
    {
      assert FileNamed(db, g);
    }
  }

  lemma PathIsLive(db: Store, f: Name)
    requires f in db.files
    ensures db.files[f].path in LivePaths(db)
  {
    assert db.files[f].path in (set g | g in db.files :: db.files[g].path);
  }

  lemma FilesGcSparesVisible(db: Store, refused: set<Path>, f: Name)
    requires TableInv(db, ALONE) && f in db.files && Visible(db.files[f], db.clock)
    ensures var after := FilesCollected(db, refused);
            && f in after.files && after.files[f] == db.files[f] && after.clock == db.clock
            && db.files[f].path in after.disk && after.disk[db.files[f].path] == db.disk[db.files[f].path]
  {
    var blobs := RetiredGone(db, refused, None);
    var retired := WithoutBlobs(db, blobs);
    OthersPathsDiffer(db, refused, f);
    RetiredKeepsClaims(db, refused, blobs);
    forall g
      ensures PathsOf(retired, refused, g) == PathsOf(db, refused, g)
    {
    }
    assert Intact(db, db.files[f].path, db.files[f].size, db.files[f].digest);
  }

  /** Collection leaves every visible row and its blob exactly as they were. */
  lemma GcSparesVisible(db: Store, refused: set<Path>, f: Name)
    requires TableInv(db, ALONE) && f in db.files
    requires !db.files[f].deleted && (db.files[f].expires.Some? ==> db.files[f].expires.value > db.clock)
    ensures var after := Collected(db, refused);
            && f in after.files && after.files[f] == db.files[f]
            && db.files[f].path in after.disk && after.disk[db.files[f].path] == db.disk[db.files[f].path]
  {
    FilesGcSparesVisible(db, refused, f);
    assert FileNamed(db, f);
    var mid := FilesCollected(db, refused);
    SessionsGcSparesBlob(mid, refused, f);
  }

  lemma SessionsGcSparesBlob(db: Store, refused: set<Path>, f: Name)
    requires f in db.files && IsBlob(db.files[f].path) && db.files[f].path in db.disk
    ensures var after := SessionsCollected(db, refused);
            && after.files == db.files && db.files[f].path in after.disk
            && after.disk[db.files[f].path] == db.disk[db.files[f].path]
  {
    var closed := Closed(db, refused, AllLapsed(db));
    assert db.files[f].path !in ClosedPaths(refused, AllLapsed(db));
    PathIsLive(closed, f);
  }

  /** A deleted or expired row is removed exactly when its unlinks succeed, and is else a tombstone. */
  lemma GcRemovesClaimed(db: Store, refused: set<Path>, f: Name)
    requires Claimed(db, f)
    ensures f in Collected(db, refused).files <==> !Removable(db, refused, f)
    ensures f in Collected(db, refused).files ==> Collected(db, refused).files[f] == db.files[f].(deleted := true)
  {
    var retired := WithoutBlobs(db, RetiredGone(db, refused, None));
    assert Claimed(retired, f) && (Removable(retired, refused, f) <==> Removable(db, refused, f));
    assert f in AllClaimed(retired);
  }

  /** When every unlink succeeds, nothing is left to collect. */
  lemma GcClearsAll(db: Store)
    ensures var after := Collected(db, {});
            && after.retired == map[] && after.clock == db.clock
            && (forall f :: f in after.files ==>
                  !after.files[f].deleted && (after.files[f].expires.Some? ==> after.files[f].expires.value > db.clock))
            && (forall u :: u in after.uploads ==> after.uploads[u].expires > db.clock)
            && (forall p :: p in after.disk ==> p in LivePaths(after) || after.disk[p].mtime >= db.clock - 3600)
  {
    var retired := WithoutBlobs(db, RetiredGone(db, {}, None));
    assert retired.retired == map[];
    var expired := Expired(retired, {}, AllClaimed(retired));
    forall f | f in expired.files
      ensures !Claimed(expired, f)
    {
      assert f in AllClaimed(retired) ==> Removable(retired, {}, f);
    }
    var closed := Closed(expired, {}, AllLapsed(expired));
    forall u | u in closed.uploads
      ensures !Lapsed(closed, u)
    {
    }
    var after := Reconciled(closed, {});
    assert LivePaths(after) == LivePaths(closed);
    forall f | f in after.files
      ensures !after.files[f].deleted && (after.files[f].expires.Some? ==> after.files[f].expires.value > db.clock)
    {
      assert !Claimed(expired, f);
    }
    forall u | u in after.uploads
      ensures after.uploads[u].expires > db.clock
    {
      assert !Lapsed(closed, u);
    }
    forall p | p in after.disk
      ensures p in LivePaths(after) || after.disk[p].mtime >= db.clock - 3600
    {
      assert !Orphan(closed, p);
    }
  }
}
