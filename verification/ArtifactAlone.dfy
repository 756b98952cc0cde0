// With nobody in its way, an operation of the protocol does exactly what its procedure does when one
// process runs it alone.

module ArtifactAlone {
  import opened Common
  import opened ArtifactTables
  import opened ArtifactProtocol
  import opened ArtifactInvariants
  import opened ArtifactRegistry

  // ----- Runs of one operation -------------------------------------------------------------------

  /** `s` with the tables `db` and one operation more. */
  function With(s: System, id: OpId, db: Store, op: Op): System {
    s.(db := db, ops := s.ops[id := op])
  }

  /** Nothing fails, and statements see the present time. */
  predicate Smooth(db: Store, choice: Choice) {
    !choice.Fail? && (choice.Seen? ==> choice.t == db.clock)
  }

  /** The operation takes these steps, and nobody else any. */
  ghost predicate Drives(s: System, id: OpId, choices: seq<Choice>, s': System)
    decreases |choices|
  {
    if choices == [] then s == s'
    else
      var next := Step(s, Advance(id, choices[0]));
      Smooth(s.db, choices[0]) && next.Some? && Drives(next.value, id, choices[1..], s')
  }

  /** From where it stands these steps bring the operation to its end and leave the tables `db'`. */
  ghost predicate EndsBy(s: System, id: OpId, db: Store, op: Op, choices: seq<Choice>, db': Store) {
    Drives(With(s, id, db, op), id, choices, s.(db := db'))
  }

  ghost predicate Ends(s: System, id: OpId, db: Store, op: Op, db': Store) {
    exists choices: seq<Choice> :: EndsBy(s, id, db, op, choices, db')
  }

  /** The operation, begun in `s`, can come to its end, leaving the tables `db'`. */
  ghost predicate Alone(s: System, id: OpId, op: Op, db': Store) {
    id !in s.ops && CanBegin(s, op, s.db.clock) && Ends(s, id, Apply(s.db, BeginEffect(op)), op, db')
  }

  lemma {:induction false} DrivesIsRun(s: System, id: OpId, choices: seq<Choice>, s': System)
    returns (events: seq<Event>)
    requires Drives(s, id, choices, s')
    ensures Run(s, events) == Some(s')
    decreases |choices|
  {
    if choices == [] {
      events := [];
    } else {
      var rest := DrivesIsRun(Step(s, Advance(id, choices[0])).value, id, choices[1..], s');
      events := [Advance(id, choices[0])] + rest;
      assert events[1..] == rest;
    }
  }

  /** Such an end is one of the system's runs. */
  lemma AloneIsRun(s: System, id: OpId, op: Op, db': Store)
    requires Alone(s, id, op, db')
    ensures exists events :: Run(s, events) == Some(s.(db := db'))
  {
    var begun := With(s, id, Apply(s.db, BeginEffect(op)), op);
    var choices :| EndsBy(s, id, begun.db, op, choices, db');
    var rest := DrivesIsRun(begun, id, choices, s.(db := db'));
    var events := [Begin(id, op, s.db.clock)] + rest;
    assert events[1..] == rest && Step(s, events[0]) == Some(begun);
    assert Run(s, events) == Some(s.(db := db'));
  }

  lemma OneStep(s: System, id: OpId, db: Store, op: Op, choice: Choice, e: Effect, next: Option<Op>)
    requires id !in s.ops && NextMove(With(s, id, db, op), op, choice) == Move(e, next)
    ensures Step(With(s, id, db, op), Advance(id, choice)) ==
            Some(if next.Some? then With(s, id, Apply(db, e), next.value) else s.(db := Apply(db, e)))
  {
    var here := With(s, id, db, op);
    assert here.ops[id] == op;
    if next.Some? {
      assert here.ops[id := next.value] == s.ops[id := next.value];
    } else {
      assert here.ops - {id} == s.ops;
    }
  }

  lemma GoesOnBy(
    s: System, id: OpId, db: Store, op: Op, choice: Choice, e: Effect, op': Op, choices: seq<Choice>, db': Store)
    requires id !in s.ops && Smooth(db, choice) && NextMove(With(s, id, db, op), op, choice) == Move(e, Some(op'))
    requires EndsBy(s, id, Apply(db, e), op', choices, db')
    ensures EndsBy(s, id, db, op, [choice] + choices, db')
  {
    OneStep(s, id, db, op, choice, e, Some(op'));
    assert ([choice] + choices)[1..] == choices;
  }

  lemma GoesOn(s: System, id: OpId, db: Store, op: Op, choice: Choice, e: Effect, op': Op, db': Store)
    requires id !in s.ops && Smooth(db, choice) && NextMove(With(s, id, db, op), op, choice) == Move(e, Some(op'))
    requires Ends(s, id, Apply(db, e), op', db')
    ensures Ends(s, id, db, op, db')
  {
    var choices :| EndsBy(s, id, Apply(db, e), op', choices, db');
    GoesOnBy(s, id, db, op, choice, e, op', choices, db');
  }

  lemma Stops(s: System, id: OpId, db: Store, op: Op, choice: Choice, e: Effect)
    requires id !in s.ops && Smooth(db, choice) && NextMove(With(s, id, db, op), op, choice) == Move(e, None)
    ensures EndsBy(s, id, db, op, [choice], Apply(db, e)) && Ends(s, id, db, op, Apply(db, e))
  {
    OneStep(s, id, db, op, choice, e, None);
    assert [choice][1..] == [];
    assert EndsBy(s, id, db, op, [choice], Apply(db, e));
  }

  lemma FreeWith(s: System, id: OpId, db: Store, op: Op, user: UserId)
    requires LockFree(s, user) && LockOf(op) != Some(user)
    ensures LockFree(With(s, id, db, op), user)
  {
  }

  // ----- begin_upload ----------------------------------------------------------------------------

  lemma ReserveAlone(s: System, id: OpId, user: UserId, size: nat, name: Name)
    requires id !in s.ops && LockFree(s, user) && name !in s.db.issued && 0 < size <= MAX_FILE_BYTES
    ensures var drawn := Apply(s.db, Issue(name, user));
            Alone(s, id, Reserving(Reservation(user, name, size, s.db.clock + UPLOAD_TTL), RWaiting),
                  if QuotaUsed(s.db, user) + size <= MAX_QUOTA_BYTES
                  then Apply(drawn, InsertUpload(name, NewSession(s.db, user, size)))
                  else drawn)
  {
    var r := Reservation(user, name, size, s.db.clock + UPLOAD_TTL);
    var db := Apply(s.db, Issue(name, user));
    assert QuotaUsed(db, user) == QuotaUsed(s.db, user);
    if QuotaUsed(db, user) + size <= MAX_QUOTA_BYTES {
      var e := InsertUpload(name, NewSession(s.db, user, size));
      Stops(s, id, db, Reserving(r, RFits), Go, e);
      GoesOn(s, id, db, Reserving(r, RLocked), Go, Nothing, Reserving(r, RFits), Apply(db, e));
      GoesLocked(s, id, db, r, Apply(db, e));
    } else {
      Stops(s, id, db, Reserving(r, RLocked), Go, Nothing);
      GoesLocked(s, id, db, r, db);
    }
  }

  lemma GoesLocked(s: System, id: OpId, db: Store, r: Reservation, db': Store)
    requires id !in s.ops && LockFree(s, r.user) && Ends(s, id, db, Reserving(r, RLocked), db')
    ensures Ends(s, id, db, Reserving(r, RWaiting), db')
  {
    FreeWith(s, id, db, Reserving(r, RWaiting), r.user);
    GoesOn(s, id, db, Reserving(r, RWaiting), Go, Nothing, Reserving(r, RLocked), db');
  }

  // ----- update_file_blob ------------------------------------------------------------------------

  lemma UpdateAlone(s: System, id: OpId, w: Rewrite, token: Name)
    requires id !in s.ops && LockFree(s, w.user) && w.began == s.db.clock && |w.bytes| <= MAX_FILE_BYTES
    requires token !in s.db.issued
    ensures Alone(s, id, Updating(w, UWaiting),
                  if Updates(s.db, w.user, w.file, w.bytes, w.expected)
                  then WithVersion(Apply(s.db, Issue(token, w.user)), w.file, w.bytes, token)
                  else s.db)
  {
    var db' := if Updates(s.db, w.user, w.file, w.bytes, w.expected)
               then WithVersion(Apply(s.db, Issue(token, w.user)), w.file, w.bytes, token)
               else s.db;
    UpdateLocked(s, id, w, token, db');
    FreeWith(s, id, s.db, Updating(w, UWaiting), w.user);
    GoesOn(s, id, s.db, Updating(w, UWaiting), Go, Nothing, Updating(w, ULocked), db');
  }

  lemma UpdateLocked(s: System, id: OpId, w: Rewrite, token: Name, db': Store)
    requires id !in s.ops && w.began == s.db.clock && |w.bytes| <= MAX_FILE_BYTES && token !in s.db.issued
    requires db' == if Updates(s.db, w.user, w.file, w.bytes, w.expected)
                    then WithVersion(Apply(s.db, Issue(token, w.user)), w.file, w.bytes, token)
                    else s.db
    ensures Ends(s, id, s.db, Updating(w, ULocked), db')
  {
    if Owns(s.db, w.user, w.file) && (w.expected.Some? ==> w.expected.value == s.db.files[w.file].digest) {
      var row := s.db.files[w.file];
      if Updates(s.db, w.user, w.file, w.bytes, w.expected) {
        UpdateFits(s, id, w, token);
        GoesOn(s, id, s.db, Updating(w, USeen(row)), Go, Nothing, Updating(w, UFits(row)), db');
      } else {
        Stops(s, id, s.db, Updating(w, USeen(row)), Go, Nothing);
      }
      GoesOn(s, id, s.db, Updating(w, ULocked), Go, Nothing, Updating(w, USeen(row)), db');
    } else {
      Stops(s, id, s.db, Updating(w, ULocked), Go, Nothing);
    }
  }

  lemma UpdateFits(s: System, id: OpId, w: Rewrite, token: Name)
    requires id !in s.ops && token !in s.db.issued && w.file in s.db.files && s.db.files[w.file].owner == w.user
    ensures Ends(s, id, s.db, Updating(w, UFits(s.db.files[w.file])),
                 WithVersion(Apply(s.db, Issue(token, w.user)), w.file, w.bytes, token))
  {
    var row, path := s.db.files[w.file], NextPath(s.db, w.file, token);
    var drawn := Apply(s.db, Issue(token, w.user));
    var written := WithBlob(drawn, path, w.bytes);
    var e := RewriteOf(written, w.file, w.bytes, token);
    Stops(s, id, written, Updating(w, UWritten(row, path, s.db.clock)), Go, e);
    GoesOn(s, id, drawn, Updating(w, UNamed(row, path)), Go, Write(path, w.bytes),
           Updating(w, UWritten(row, path, s.db.clock)), Apply(written, e));
    GoesOn(s, id, s.db, Updating(w, UFits(row)), Named(token), Issue(token, w.user),
           Updating(w, UNamed(row, path)), Apply(written, e));
  }

  // ----- create_file -----------------------------------------------------------------------------

  lemma CreateAlone(s: System, id: OpId, c: Creation)
    requires id !in s.ops && LockFree(s, c.user) && c.began == s.db.clock && |c.bytes| <= MAX_FILE_BYTES
    requires c.file !in s.db.issued && c.upload == None
    ensures var drawn := Apply(s.db, Issue(c.file, c.user));
            Alone(s, id, Creating(c, CWaiting),
                  if QuotaUsed(s.db, c.user) + |c.bytes| <= MAX_QUOTA_BYTES
                  then WithFile(drawn, c.user, c.file, c.bytes, c.expires, None)
                  else drawn)
  {
    var db := Apply(s.db, Issue(c.file, c.user));
    assert QuotaUsed(db, c.user) == QuotaUsed(s.db, c.user);
    if QuotaUsed(db, c.user) + |c.bytes| <= MAX_QUOTA_BYTES {
      var db' := WithFile(db, c.user, c.file, c.bytes, c.expires, None);
      var written := Apply(db, Write(Blob(c.file), c.bytes));
      Stops(s, id, written, Creating(c, CWritten(db.clock)), Go,
            InsertFile(c.file, NewRow(c.user, c.file, c.bytes, c.expires), None));
      CreateWrites(s, id, db, c, db');
      GoesOn(s, id, db, Creating(c, CLocked), Go, Nothing, Creating(c, CAdmitted), db');
      CreateLocks(s, id, db, c, db');
    } else {
      Stops(s, id, db, Creating(c, CAdmitted), Go, Nothing);
      GoesOn(s, id, db, Creating(c, CLocked), Go, Nothing, Creating(c, CAdmitted), db);
      CreateLocks(s, id, db, c, db);
    }
  }

  lemma CreateLocks(s: System, id: OpId, db: Store, c: Creation, db': Store)
    requires id !in s.ops && LockFree(s, c.user) && Ends(s, id, db, Creating(c, CLocked), db')
    ensures Ends(s, id, db, Creating(c, CWaiting), db')
  {
    FreeWith(s, id, db, Creating(c, CWaiting), c.user);
    GoesOn(s, id, db, Creating(c, CWaiting), Go, Nothing, Creating(c, CLocked), db');
  }

  /** An admitted creation that fits writes its blob. */
  lemma CreateWrites(s: System, id: OpId, db: Store, c: Creation, db': Store)
    requires id !in s.ops && QuotaUsedExcept(db, c.user, c.upload) + |c.bytes| <= MAX_QUOTA_BYTES
    requires Ends(s, id, Apply(db, Write(Blob(c.file), c.bytes)), Creating(c, CWritten(db.clock)), db')
    ensures Ends(s, id, db, Creating(c, CAdmitted), db')
  {
    GoesOn(s, id, db, Creating(c, CFits), Go, Write(Blob(c.file), c.bytes), Creating(c, CWritten(db.clock)), db');
    GoesOn(s, id, db, Creating(c, CAdmitted), Go, Nothing, Creating(c, CFits), db');
  }

  // ----- gc_expired and _collect_retired ---------------------------------------------------------

  lemma ExpireAlone(s: System, id: OpId, f: Name)
    requires id !in s.ops && f in s.db.files && LockFree(s, s.db.files[f].owner)
    ensures Alone(s, id, Expiring(s.db.files[f].owner, f, s.db.clock, EWaiting),
                  if Claimed(s.db, f) then Expired(s.db, {}, {f}) else s.db)
  {
    var op := Expiring(s.db.files[f].owner, f, s.db.clock, EWaiting);
    var db' := if Claimed(s.db, f) then Expired(s.db, {}, {f}) else s.db;
    if Claimed(s.db, f) {
      ExpireClaimed(s, id, f, op);
    } else {
      Stops(s, id, s.db, op.(eAt := ELocked), Go, Nothing);
    }
    FreeWith(s, id, s.db, op, op.user);
    GoesOn(s, id, s.db, op, Go, Nothing, op.(eAt := ELocked), db');
  }

  lemma ExpireClaimed(s: System, id: OpId, f: Name, op: Op)
    requires id !in s.ops && Claimed(s.db, f) && op.Expiring? && op.file == f && op.began == s.db.clock
    ensures Ends(s, id, s.db, op.(eAt := ELocked), Expired(s.db, {}, {f}))
  {
    var path, db' := s.db.files[f].path, Expired(s.db, {}, {f});
    var half := Apply(s.db, ArtifactTables.Unlink(path));
    var clear := Apply(half, ArtifactTables.Unlink(Partial(path)));
    ExpiredOne(s.db, {}, f);
    Stops(s, id, clear, op.(eAt := EGone), Go, DeleteFile(f));
    GoesOn(s, id, half, op.(eAt := EHalf(path)), Go, ArtifactTables.Unlink(Partial(path)), op.(eAt := EGone), db');
    GoesOn(s, id, s.db, op.(eAt := EClaimed(path)), Go, ArtifactTables.Unlink(path), op.(eAt := EHalf(path)), db');
    GoesOn(s, id, s.db, op.(eAt := ELocked), Go, Nothing, op.(eAt := EClaimed(path)), db');
  }

  lemma CloseAlone(s: System, id: OpId, u: Name)
    requires id !in s.ops && u in s.db.uploads && LockFree(s, s.db.uploads[u].owner)
    ensures Alone(s, id, Closing(s.db.uploads[u].owner, u, s.db.clock, SWaiting),
                  if Lapsed(s.db, u) then Closed(s.db, {}, {u}) else s.db)
  {
    var op := Closing(s.db.uploads[u].owner, u, s.db.clock, SWaiting);
    var db' := if Lapsed(s.db, u) then Closed(s.db, {}, {u}) else s.db;
    if Lapsed(s.db, u) {
      CloseLapsed(s, id, u, op);
    } else {
      Stops(s, id, s.db, op.(sAt := SLocked), Go, Nothing);
    }
    FreeWith(s, id, s.db, op, op.user);
    GoesOn(s, id, s.db, op, Go, Nothing, op.(sAt := SLocked), db');
  }

  lemma CloseLapsed(s: System, id: OpId, u: Name, op: Op)
    requires id !in s.ops && Lapsed(s.db, u) && op.Closing? && op.upload == u && op.began == s.db.clock
    ensures Ends(s, id, s.db, op.(sAt := SLocked), Closed(s.db, {}, {u}))
  {
    var db' := Closed(s.db, {}, {u});
    var half := Apply(s.db, ArtifactTables.Unlink(Staged(u)));
    var clear := Apply(half, ArtifactTables.Unlink(StagedPartial(u)));
    ClosedOne(s.db, {}, u);
    Stops(s, id, clear, op.(sAt := SGone), Go, DeleteUpload(u));
    GoesOn(s, id, half, op.(sAt := SHalf), Go, ArtifactTables.Unlink(StagedPartial(u)), op.(sAt := SGone), db');
    GoesOn(s, id, s.db, op.(sAt := SClaimed), Go, ArtifactTables.Unlink(Staged(u)), op.(sAt := SHalf), db');
    GoesOn(s, id, s.db, op.(sAt := SLocked), Go, Nothing, op.(sAt := SClaimed), db');
  }

  lemma RetireAlone(s: System, id: OpId, p: Path)
    requires id !in s.ops && p in s.db.retired && LockFree(s, s.db.retired[p].owner)
    ensures Alone(s, id, Retiring(s.db.retired[p].owner, p, TWaiting), WithoutBlobs(s.db, {p}))
  {
    var op := Retiring(s.db.retired[p].owner, p, TWaiting);
    var gone := Apply(s.db, ArtifactTables.Unlink(p));
    Stops(s, id, gone, op.(tAt := TGone), Go, DeleteRetired(p));
    GoesOn(s, id, s.db, op.(tAt := TClaimed), Go, ArtifactTables.Unlink(p), op.(tAt := TGone), WithoutBlobs(s.db, {p}));
    GoesOn(s, id, s.db, op.(tAt := TLocked), Go, Nothing, op.(tAt := TClaimed), WithoutBlobs(s.db, {p}));
    FreeWith(s, id, s.db, op, op.user);
    GoesOn(s, id, s.db, op, Go, Nothing, op.(tAt := TLocked), WithoutBlobs(s.db, {p}));
  }

  // ----- The upload route ------------------------------------------------------------------------

  function Pieces(chunks: seq<Bytes>): (choices: seq<Choice>)
    ensures |choices| == |chunks|
  {
    if chunks == [] then [] else [Chunk(chunks[0])] + Pieces(chunks[1..])
  }

  lemma {:induction false} JoinedHead(chunks: seq<Bytes>)
    requires chunks != []
    ensures Joined(chunks) == chunks[0] + Joined(chunks[1..])
  {
    var n := |chunks| - 1;
    if n > 0 {
      JoinedHead(chunks[..n]);
      assert chunks[..n][1..] == chunks[1..][..n - 1];
    } else {
      assert chunks[..0] == [];
    }
  }

  /** The partial file holds `got`. */
  function Streamed(db: Store, u: Name, got: Bytes): Store {
    Apply(db, Write(StagedPartial(u), got))
  }

  /** The file is in place and the session uploaded. */
  function Placed(db: Store, u: Name, got: Bytes): Store {
    Apply(Apply(Streamed(db, u, got), Rename(StagedPartial(u), Staged(u))), FinishUpload(u, got))
  }

  /** The session `p` may be finished: it is receiving and unexpired. */
  predicate StillOpen(db: Store, p: Receipt) {
    InState(db, p, Receiving) && db.uploads[p.upload].expires > db.clock
  }

  lemma StreamedAgain(db: Store, u: Name, got: Bytes, more: Bytes)
    ensures Apply(Streamed(db, u, got), Write(StagedPartial(u), more)) == Streamed(db, u, more)
  {
    var p, now := StagedPartial(u), db.clock;
    assert db.disk[p := DiskFile(got, now)][p := DiskFile(more, now)] == db.disk[p := DiskFile(more, now)];
  }

  lemma ChunkAlone(
    s: System, id: OpId, db: Store, p: Receipt, got: Bytes, chunk: Bytes, choices: seq<Choice>, db': Store)
    requires id !in s.ops && |got + chunk| <= p.expected
    requires EndsBy(s, id, Streamed(db, p.upload, got + chunk), ReceivingOp(p, PStreaming(got + chunk)), choices, db')
    ensures EndsBy(s, id, Streamed(db, p.upload, got), ReceivingOp(p, PStreaming(got)), [Chunk(chunk)] + choices, db')
  {
    StreamedAgain(db, p.upload, got, got + chunk);
    GoesOnBy(s, id, Streamed(db, p.upload, got), ReceivingOp(p, PStreaming(got)), Chunk(chunk),
             Write(StagedPartial(p.upload), got + chunk), ReceivingOp(p, PStreaming(got + chunk)), choices, db');
  }

  lemma {:induction false} StreamAlone(
    s: System, id: OpId, db: Store, p: Receipt, got: Bytes, chunks: seq<Bytes>)
    requires id !in s.ops && StillOpen(db, p) && |got + Joined(chunks)| == p.expected
    ensures EndsBy(s, id, Streamed(db, p.upload, got), ReceivingOp(p, PStreaming(got)),
                   Pieces(chunks) + [Go, Go, Seen(db.clock)], Placed(db, p.upload, got + Joined(chunks)))
    decreases |chunks|
  {
    if chunks == [] {
      PlaceAlone(s, id, db, p, got);
      assert Pieces(chunks) + [Go, Go, Seen(db.clock)] == [Go, Go, Seen(db.clock)] && got + [] == got;
    } else {
      var more, rest := got + chunks[0], Pieces(chunks[1..]) + [Go, Go, Seen(db.clock)];
      JoinedHead(chunks);
      assert more + Joined(chunks[1..]) == got + Joined(chunks);
      StreamAlone(s, id, db, p, more, chunks[1..]);
      ChunkAlone(s, id, db, p, got, chunks[0], rest, Placed(db, p.upload, got + Joined(chunks)));
      assert Pieces(chunks) + [Go, Go, Seen(db.clock)] == [Chunk(chunks[0])] + rest;
    }
  }

  lemma FinishAlone(s: System, id: OpId, db: Store, p: Receipt, got: Bytes)
    requires id !in s.ops && StillOpen(db, p)
    ensures EndsBy(s, id, Streamed(db, p.upload, got), ReceivingOp(p, PFull(got)), [Go] + [Seen(db.clock)],
                   Placed(db, p.upload, got))
  {
    var u := p.upload;
    var renamed := Apply(Streamed(db, u, got), Rename(StagedPartial(u), Staged(u)));
    Stops(s, id, renamed, ReceivingOp(p, PPlaced(got)), Seen(db.clock), FinishUpload(u, got));
    GoesOnBy(s, id, Streamed(db, u, got), ReceivingOp(p, PFull(got)), Go, Rename(StagedPartial(u), Staged(u)),
             ReceivingOp(p, PPlaced(got)), [Seen(db.clock)], Placed(db, u, got));
  }

  lemma PlaceAlone(s: System, id: OpId, db: Store, p: Receipt, got: Bytes)
    requires id !in s.ops && StillOpen(db, p) && |got| == p.expected
    ensures EndsBy(s, id, Streamed(db, p.upload, got), ReceivingOp(p, PStreaming(got)), [Go, Go, Seen(db.clock)],
                   Placed(db, p.upload, got))
  {
    FinishAlone(s, id, db, p, got);
    GoesOnBy(s, id, Streamed(db, p.upload, got), ReceivingOp(p, PStreaming(got)), Go, Nothing,
             ReceivingOp(p, PFull(got)), [Go] + [Seen(db.clock)], Placed(db, p.upload, got));
    assert [Go] + ([Go] + [Seen(db.clock)]) == [Go, Go, Seen(db.clock)];
  }

  /** A request whose body has the reserved size, in whatever pieces it comes, leaves exactly it staged. */
  lemma ReceiveAlone(s: System, id: OpId, p: Receipt, chunks: seq<Bytes>)
    requires id !in s.ops && Claimable(s.db, p.user, p.upload) && s.db.uploads[p.upload].size == p.expected
    requires |Joined(chunks)| == p.expected
    ensures exists db' ::
      && CanBegin(s, ReceivingOp(p, PClaimed), s.db.clock) && Received(s.db, db', p.upload, Joined(chunks))
      && EndsBy(s, id, Apply(s.db, SetState(p.upload, Receiving)), ReceivingOp(p, PClaimed),
                [Go] + (Pieces(chunks) + [Go, Go, Seen(s.db.clock)]), db')
  {
    var u, db := p.upload, Apply(s.db, SetState(p.upload, Receiving));
    var db' := Placed(db, u, Joined(chunks));
    assert [] + Joined(chunks) == Joined(chunks);
    StreamAlone(s, id, db, p, [], chunks);
    GoesOnBy(s, id, db, ReceivingOp(p, PClaimed), Go, Write(StagedPartial(u), []), ReceivingOp(p, PStreaming([])),
             Pieces(chunks) + [Go, Go, Seen(s.db.clock)], db');
    PlacedIsReceived(s.db, u, Joined(chunks));
  }

  lemma PlacedIsReceived(db: Store, u: Name, got: Bytes)
    requires u in db.uploads
    ensures Received(db, Placed(Apply(db, SetState(u, Receiving)), u, got), u, got)
  {
    var after := Placed(Apply(db, SetState(u, Receiving)), u, got);
    assert after.uploads == db.uploads[u := db.uploads[u].(state := Uploaded)];
    forall p | p != Staged(u) && p != StagedPartial(u)
      ensures SameFile(db, after, p)
    {
    }
  }

  /** A body of another size is dropped, and the session is pending again. */
  lemma AbortAlone(s: System, id: OpId, p: Receipt, got: Bytes)
    requires id !in s.ops && InState(s.db, p, Receiving) && |got| != p.expected
    ensures Ends(s, id, s.db, ReceivingOp(p, PStreaming(got)), Dropped(s.db, p.upload))
  {
    BrokenAlone(s, id, p);
    GoesOn(s, id, s.db, ReceivingOp(p, PStreaming(got)), Go, Nothing, ReceivingOp(p, PCleanTemp),
           Dropped(s.db, p.upload));
  }

  /** Both staging files are off the disk and the session is pending. */
  function Dropped(db: Store, u: Name): Store {
    Apply(db.(disk := db.disk - {StagedPartial(u)} - {Staged(u)}), SetState(u, Pending))
  }

  lemma DropAlone(s: System, id: OpId, half: Store, p: Receipt, db': Store)
    requires id !in s.ops && InState(half, p, Receiving)
    requires db' == Apply(Apply(half, ArtifactTables.Unlink(Staged(p.upload))), SetState(p.upload, Pending))
    ensures Ends(s, id, half, ReceivingOp(p, PCleanPath), db')
  {
    var clear := Apply(half, ArtifactTables.Unlink(Staged(p.upload)));
    Stops(s, id, clear, ReceivingOp(p, PReset), Go, SetState(p.upload, Pending));
    GoesOn(s, id, half, ReceivingOp(p, PCleanPath), Go, ArtifactTables.Unlink(Staged(p.upload)),
           ReceivingOp(p, PReset), db');
  }

  // ----- complete_upload -------------------------------------------------------------------------

  /** What a completion leaves: the answer, after the file's registration if it is the first one. */
  ghost predicate Completed(db: Store, user: UserId, u: Name, name: Name, db': Store) {
    if Repeats(db, user, Some(u)) then db' == db.(answers := db.answers + {(u, db.uploads[u].file.value)})
    else if Completes(db, user, u) then
      db' == AfterCompletion(db, {}, user, u, name).(answers := db.answers + {(u, name)})
    else db' == db || db' == Apply(db, Issue(name, user))
  }

  /** The staged bytes of an uploaded session are those received, as many as reserved. */
  ghost predicate StagedWell(db: Store, u: Name) {
    u in db.uploads && db.uploads[u].state == Uploaded && db.uploads[u].expires > db.clock ==>
      && u in db.staged && Staged(u) in db.disk && db.disk[Staged(u)].bytes == db.staged[u]
      && |db.staged[u]| == db.uploads[u].size
  }

  lemma StagedAlways(db: Store, t: Timing, u: Name)
    requires TableInv(db, t)
    ensures StagedWell(db, u)
  {
    if u in db.staged {
      assert Holds(db, Staged(u), db.staged[u]);
    }
  }

  lemma CompleteAlone(s: System, id: OpId, user: UserId, u: Name, name: Name)
    requires TableInv(s.db, s.timing) && id !in s.ops && LockFree(s, user) && name !in s.db.issued
    ensures exists db' :: Completed(s.db, user, u, name, db') && Alone(s, id, Completing(user, u, KAsked), db')
  {
    var op := Completing(user, u, KAsked);
    StagedAlways(s.db, s.timing, u);
    if Open(s.db, user, u) && s.db.uploads[u].state == Uploaded {
      CompleteFirst(s, id, user, u, name);
    } else if Open(s.db, user, u) && s.db.uploads[u].state == Complete && s.db.uploads[u].file.Some? {
      CompleteAgain(s, id, user, u, name);
    } else {
      Stops(s, id, s.db, op, Seen(s.db.clock), Nothing);
      assert Completed(s.db, user, u, name, s.db) && Alone(s, id, op, s.db);
    }
  }

  lemma CompleteAgain(s: System, id: OpId, user: UserId, u: Name, name: Name)
    requires id !in s.ops && Open(s.db, user, u)
    requires s.db.uploads[u].state == Complete && s.db.uploads[u].file.Some?
    ensures exists db' :: Completed(s.db, user, u, name, db') && Alone(s, id, Completing(user, u, KAsked), db')
  {
    var op, f := Completing(user, u, KAsked), s.db.uploads[u].file.value;
    var e := if Owns(s.db, user, f) then Answer(u, f) else Nothing;
    Stops(s, id, s.db, op.(kAt := KLookup(f)), Seen(s.db.clock), e);
    GoesOn(s, id, s.db, op, Seen(s.db.clock), Nothing, op.(kAt := KLookup(f)), Apply(s.db, e));
    assert Completed(s.db, user, u, name, Apply(s.db, e)) && Alone(s, id, op, Apply(s.db, e));
  }

  /** What the first completion leaves, by what it is refused for. */
  ghost function FirstCompletion(db: Store, user: UserId, u: Name, name: Name): Store
    requires u in db.uploads
  {
    if Completes(db, user, u) then Apply(AfterCompletion(db, {}, user, u, name), Answer(u, name))
    else if db.uploads[u].size <= MAX_FILE_BYTES then Apply(db, Issue(name, user))
    else db
  }

  lemma FirstIsCompletion(db: Store, user: UserId, u: Name, name: Name)
    requires Open(db, user, u) && db.uploads[u].state == Uploaded
    ensures Completed(db, user, u, name, FirstCompletion(db, user, u, name))
  {
  }

  lemma CompleteFirst(s: System, id: OpId, user: UserId, u: Name, name: Name)
    requires id !in s.ops && LockFree(s, user) && name !in s.db.issued && StagedWell(s.db, u)
    requires Open(s.db, user, u) && s.db.uploads[u].state == Uploaded
    ensures exists db' :: Completed(s.db, user, u, name, db') && Alone(s, id, Completing(user, u, KAsked), db')
  {
    var op, db' := Completing(user, u, KAsked), FirstCompletion(s.db, user, u, name);
    CompleteReads(s, id, user, u, name);
    FirstIsCompletion(s.db, user, u, name);
    GoesOn(s, id, s.db, op, Seen(s.db.clock), Nothing, op.(kAt := KReading(s.db.uploads[u].size)), db');
    assert Alone(s, id, op, db');
  }

  lemma CompleteReads(s: System, id: OpId, user: UserId, u: Name, name: Name)
    requires id !in s.ops && LockFree(s, user) && name !in s.db.issued && StagedWell(s.db, u)
    requires Open(s.db, user, u) && s.db.uploads[u].state == Uploaded
    ensures Ends(s, id, s.db, Completing(user, u, KReading(s.db.uploads[u].size)), FirstCompletion(s.db, user, u, name))
  {
    var reading := Completing(user, u, KReading(s.db.uploads[u].size));
    if s.db.uploads[u].size > MAX_FILE_BYTES {
      Stops(s, id, s.db, reading, Named(name), Nothing);
    } else {
      var db', drawn := FirstCompletion(s.db, user, u, name), Apply(s.db, Issue(name, user));
      var c := Creation(user, name, ReceivedBytes(s.db, u), Some(u), Some(s.db.clock + FILE_TTL), s.db.clock);
      assert QuotaUsedExcept(drawn, user, Some(u)) == QuotaUsedExcept(s.db, user, Some(u));
      CompletionCreates(s, id, c, u, db');
      CreateLocks(s, id, drawn, c, db');
      GoesOn(s, id, s.db, reading, Named(name), Issue(name, user), Creating(c, CWaiting), db');
    }
  }

  /** From the lock on: admission, quota, blob, row and answer. */
  lemma CompletionCreates(s: System, id: OpId, c: Creation, u: Name, db': Store)
    requires id !in s.ops && Open(s.db, c.user, u) && s.db.uploads[u].state == Uploaded
    requires s.db.uploads[u].size == |c.bytes| && c.bytes == ReceivedBytes(s.db, u)
    requires c.upload == Some(u) && c.began == s.db.clock && c.expires == Some(s.db.clock + FILE_TTL)
    requires db' == if QuotaUsedExcept(Apply(s.db, Issue(c.file, c.user)), c.user, c.upload) + |c.bytes|
                       <= MAX_QUOTA_BYTES
                    then Apply(AfterCompletion(s.db, {}, c.user, u, c.file), Answer(u, c.file))
                    else Apply(s.db, Issue(c.file, c.user))
    ensures Ends(s, id, Apply(s.db, Issue(c.file, c.user)), Creating(c, CLocked), db')
  {
    var drawn := Apply(s.db, Issue(c.file, c.user));
    if QuotaUsedExcept(drawn, c.user, c.upload) + |c.bytes| <= MAX_QUOTA_BYTES {
      CompletionRegisters(s, id, c, u);
      CreateWrites(s, id, drawn, c, db');
    } else {
      Stops(s, id, drawn, Creating(c, CAdmitted), Go, Nothing);
    }
    GoesOn(s, id, drawn, Creating(c, CLocked), Go, Nothing, Creating(c, CAdmitted), db');
  }

  lemma CompletionRegisters(s: System, id: OpId, c: Creation, u: Name)
    requires id !in s.ops && c.upload == Some(u) && c.bytes == ReceivedBytes(s.db, u)
    requires c.expires == Some(s.db.clock + FILE_TTL)
    ensures var drawn := Apply(s.db, Issue(c.file, c.user));
            Ends(s, id, Apply(drawn, Write(Blob(c.file), c.bytes)), Creating(c, CWritten(s.db.clock)),
                 Apply(AfterCompletion(s.db, {}, c.user, u, c.file), Answer(u, c.file)))
  {
    var written := Apply(Apply(s.db, Issue(c.file, c.user)), Write(Blob(c.file), c.bytes));
    RowAlone(s, id, written, c, u);
  }

  /** From the blob on: row and answer. */
  lemma RowAlone(s: System, id: OpId, db: Store, c: Creation, u: Name)
    requires id !in s.ops && c.upload == Some(u)
    ensures var filed := Apply(db, InsertFile(c.file, NewRow(c.user, c.file, c.bytes, c.expires), Some(u)));
            Ends(s, id, db, Creating(c, CWritten(db.clock)),
                 Apply(Apply(filed, ArtifactTables.Unlink(Staged(u))), Answer(u, c.file)))
  {
    var e := InsertFile(c.file, NewRow(c.user, c.file, c.bytes, c.expires), Some(u));
    CompletionAnswers(s, id, Apply(db, e), c.user, u, c.file);
    CommitMove(With(s, id, db, Creating(c, CWritten(db.clock))), c, u);
    GoesOn(s, id, db, Creating(c, CWritten(db.clock)), Go, e, Completing(c.user, u, KRegistered(c.file)),
           Apply(Apply(Apply(db, e), ArtifactTables.Unlink(Staged(u))), Answer(u, c.file)));
  }

  lemma CommitMove(s: System, c: Creation, u: Name)
    requires c.upload == Some(u)
    ensures NextMove(s, Creating(c, CWritten(s.db.clock)), Go) ==
            Move(InsertFile(c.file, NewRow(c.user, c.file, c.bytes, c.expires), Some(u)),
                 Some(Completing(c.user, u, KRegistered(c.file))))
  {
  }

  lemma CompletionAnswers(s: System, id: OpId, db: Store, user: UserId, u: Name, f: Name)
    requires id !in s.ops
    ensures Ends(s, id, db, Completing(user, u, KRegistered(f)),
                 Apply(Apply(db, ArtifactTables.Unlink(Staged(u))), Answer(u, f)))
  {
    var unstaged := Apply(db, ArtifactTables.Unlink(Staged(u)));
    Stops(s, id, unstaged, Completing(user, u, KAnswering(f)), Go, Answer(u, f));
    GoesOn(s, id, db, Completing(user, u, KRegistered(f)), Go, ArtifactTables.Unlink(Staged(u)),
           Completing(user, u, KAnswering(f)), Apply(unstaged, Answer(u, f)));
  }

  /**
   * A completion that another one has overtaken: under the lock it finds the session complete, and
   * answers with the file registered, or finds no received upload and registers nothing.
   */
  lemma OvertakenAlone(s: System, id: OpId, c: Creation, u: Name)
    requires id !in s.ops && LockFree(s, c.user) && c.upload == Some(u) && c.began == s.db.clock
    requires !Admits(s.db, c.user, c.upload, |c.bytes|)
    ensures Ends(s, id, s.db, Creating(c, CWaiting),
                 if Repeats(s.db, c.user, c.upload)
                 then Apply(Apply(s.db, ArtifactTables.Unlink(Staged(u))), Answer(u, s.db.uploads[u].file.value))
                 else s.db)
  {
    if Repeats(s.db, c.user, c.upload) {
      var f := s.db.uploads[u].file.value;
      var db' := Apply(Apply(s.db, ArtifactTables.Unlink(Staged(u))), Answer(u, f));
      CompletionAnswers(s, id, s.db, c.user, u, f);
      GoesOn(s, id, s.db, Creating(c, CLocked), Go, Nothing, Completing(c.user, u, KRegistered(f)), db');
      CreateLocks(s, id, s.db, c, db');
    } else {
      Stops(s, id, s.db, Creating(c, CLocked), Go, Nothing);
      CreateLocks(s, id, s.db, c, s.db);
    }
  }

  /** One that finds the staged bytes gone looks again, and answers with the file registered meanwhile. */
  lemma RetryAlone(s: System, id: OpId, user: UserId, u: Name, size: nat, name: Name)
    requires id !in s.ops && Staged(u) !in s.db.disk && name !in s.db.issued
    ensures Ends(s, id, s.db, Completing(user, u, KReading(size)),
                 if Repeats(s.db, user, Some(u)) then Apply(s.db, Answer(u, s.db.uploads[u].file.value)) else s.db)
  {
    var op, now := Completing(user, u, KRetry), Seen(s.db.clock);
    var db' := if Repeats(s.db, user, Some(u)) then Apply(s.db, Answer(u, s.db.uploads[u].file.value)) else s.db;
    if Open(s.db, user, u) && s.db.uploads[u].state == Complete && s.db.uploads[u].file.Some? {
      var f := s.db.uploads[u].file.value;
      Stops(s, id, s.db, op.(kAt := KLookup(f)), now, if Owns(s.db, user, f) then Answer(u, f) else Nothing);
      GoesOn(s, id, s.db, op, now, Nothing, op.(kAt := KLookup(f)), db');
    } else {
      Stops(s, id, s.db, op, now, Nothing);
    }
    GoesOn(s, id, s.db, Completing(user, u, KReading(size)), Named(name), Nothing, op, db');
  }

  /** A commit is possible for as long after the blob's writing as the timing allows. */
  lemma SlowCommit(s: System, op: Op)
    requires (op.Creating? && op.cAt.CWritten? && s.db.clock <= op.cAt.at + s.timing.write)
             || (op.Updating? && op.wAt.UWritten? && s.db.clock <= op.wAt.at + s.timing.write)
    ensures NextMove(s, op, Go).Move?
    ensures op.Creating? ==>
      NextMove(s, op, Go).effect ==
      InsertFile(op.c.file, NewRow(op.c.user, op.c.file, op.c.bytes, op.c.expires), op.c.upload)
    ensures op.Updating? ==>
      NextMove(s, op, Go).effect ==
      RewriteFile(op.w.file, |op.w.bytes|, Digest(op.w.bytes), op.wAt.path, op.wAt.row.path,
                  RetiredRow(op.w.user, op.wAt.row.size))
  {
  }

  // ----- Failures --------------------------------------------------------------------------------

  /** What is left of an operation that meets an exception or a cancellation where it stands. */
  function Failed(op: Op): Option<Op> {
    match op
    case Creating(c, CWritten(_)) => Some(CleaningUp(c.user, Blob(c.file)))
    case Updating(w, UWritten(_, path, _)) => Some(CleaningUp(w.user, path))
    case Expiring(user, file, began, EClaimed(_)) => Some(Expiring(user, file, began, EKept))
    case Expiring(user, file, began, EHalf(_)) => Some(Expiring(user, file, began, EKept))
    case ReceivingOp(p, PClaimed) => Some(ReceivingOp(p, PCleanTemp))
    case ReceivingOp(p, PStreaming(_)) => Some(ReceivingOp(p, PCleanTemp))
    case ReceivingOp(p, PFull(_)) => Some(ReceivingOp(p, PCleanTemp))
    case ReceivingOp(p, PCleanTemp) => Some(ReceivingOp(p, PCleanPath))
    case ReceivingOp(p, PCleanPath) => Some(ReceivingOp(p, PReset))
    case Completing(user, u, KRegistered(f)) => Some(Completing(user, u, KAnswering(f)))
    case _ => None
  }

  lemma FailureOf(s: System, op: Op)
    requires !(op.Completing? && op.kAt.KAnswering?)
    ensures NextMove(s, op, Fail) == Move(Nothing, Failed(op))
  {
    if op.ReceivingOp? {
      ReceiveFailure(s, op);
    } else if op.Completing? {
      CompleteFailure(s, op);
    }
  }

  lemma ReceiveFailure(s: System, op: Op)
    requires op.ReceivingOp?
    ensures NextMove(s, op, Fail) == Move(Nothing, Failed(op))
  {
  }

  lemma CompleteFailure(s: System, op: Op)
    requires op.Completing? && !op.kAt.KAnswering?
    ensures NextMove(s, op, Fail) == Move(Nothing, Failed(op))
  {
  }

  /** A failure, possible at every point before the answer, writes nothing by itself. */
  lemma FailureWritesNothing(s: System, id: OpId)
    requires id in s.ops && !(s.ops[id].Completing? && s.ops[id].kAt.KAnswering?)
    ensures Step(s, Advance(id, Fail)) == Some(Settle(s, id, Nothing, Failed(s.ops[id])))
  {
    FailureOf(s, s.ops[id]);
  }

  /** A creation or update that fails after writing its blob takes the blob off the disk again. */
  lemma RollbackAlone(s: System, id: OpId, op: Op, path: Path)
    requires id !in s.ops
    requires (op.Creating? && op.cAt.CWritten? && path == Blob(op.c.file))
             || (op.Updating? && op.wAt.UWritten? && path == op.wAt.path)
    ensures exists user ::
      && Failed(op) == Some(CleaningUp(user, path))
      && Ends(s, id, s.db, CleaningUp(user, path), s.db.(disk := s.db.disk - {path}))
  {
    var user := if op.Creating? then op.c.user else op.w.user;
    Stops(s, id, s.db, CleaningUp(user, path), Go, ArtifactTables.Unlink(path));
  }

  /** A collection whose unlink fails leaves a tombstone. */
  lemma KeptAlone(s: System, id: OpId, op: Op)
    requires id !in s.ops && op.Expiring? && op.eAt.EKept?
    ensures Ends(s, id, s.db, op, Apply(s.db, MarkDeleted(op.file)))
  {
    Stops(s, id, s.db, op, Go, MarkDeleted(op.file));
  }

  /** A transfer that fails before its file is in place is cleaned up, and the session is pending again. */
  lemma BrokenAlone(s: System, id: OpId, p: Receipt)
    requires id !in s.ops && InState(s.db, p, Receiving)
    ensures Ends(s, id, s.db, ReceivingOp(p, PCleanTemp), Dropped(s.db, p.upload))
    ensures Ends(s, id, s.db, ReceivingOp(p, PReset), Apply(s.db, SetState(p.upload, Pending)))
  {
    var half := Apply(s.db, ArtifactTables.Unlink(StagedPartial(p.upload)));
    DropAlone(s, id, half, p, Dropped(s.db, p.upload));
    GoesOn(s, id, s.db, ReceivingOp(p, PCleanTemp), Go, ArtifactTables.Unlink(StagedPartial(p.upload)),
           ReceivingOp(p, PCleanPath), Dropped(s.db, p.upload));
    ReleaseAlone(s, id, p);
  }

  lemma ReleaseAlone(s: System, id: OpId, p: Receipt)
    requires id !in s.ops && InState(s.db, p, Receiving)
    ensures Ends(s, id, s.db, ReceivingOp(p, PReset), Apply(s.db, SetState(p.upload, Pending)))
  {
    Stops(s, id, s.db, ReceivingOp(p, PReset), Go, SetState(p.upload, Pending));
  }

  /** No statement sees a time later than the clock; a session is finished only before its expiry. */
  lemma SeesThePast(s: System, id: OpId, now: Time)
    requires id in s.ops && Step(s, Advance(id, Seen(now))).Some?
    ensures now <= s.db.clock
    ensures EffectOf(s, Advance(id, Seen(now))).FinishUpload? ==>
      s.ops[id].ReceivingOp? && s.ops[id].p.upload in s.db.uploads && s.db.uploads[s.ops[id].p.upload].expires > now
  {
  }

  /** A request begins to receive only a pending session of its user's, unexpired when its statement ran. */
  lemma ClaimsPending(s: System, id: OpId, p: Receipt, seen: Time)
    requires Step(s, Begin(id, ReceivingOp(p, PClaimed), seen)).Some?
    ensures p.upload in s.db.uploads && seen <= s.db.clock
    ensures var row := s.db.uploads[p.upload];
            row.owner == p.user && row.state == Pending && row.size == p.expected && row.expires > seen
  {
  }

  /** A process that dies leaves tables and files as they are; its locks are free. */
  lemma CrashAlone(s: System, id: OpId)
    requires id in s.ops
    ensures Step(s, Crash(id)) == Some(s.(ops := s.ops - {id}))
  {
  }

  // ----- soft_delete -----------------------------------------------------------------------------

  /** A deletion takes effect exactly on the owner's undeleted row, whoever holds the lock. */
  lemma SoftDeleteAlone(s: System, user: UserId, f: Name)
    ensures Step(s, SoftDelete(user, f)).Some? <==>
      f in s.db.files && s.db.files[f].owner == user && !s.db.files[f].deleted
    ensures Step(s, SoftDelete(user, f)).Some? ==>
      Step(s, SoftDelete(user, f)).value ==
      s.(db := s.db.(files := s.db.files[f := s.db.files[f].(deleted := true)]))
  {
  }

  // ----- reconcile_orphans -----------------------------------------------------------------------

  /** The reconciliation `op` takes these steps and stays, having left the disk `disk`. */
  ghost predicate Sweeps(
    s: System, id: OpId, disk: map<Path, DiskFile>, op: Op, choices: seq<Choice>, left: map<Path, DiskFile>)
  {
    Drives(With(s, id, s.db.(disk := disk), op), id, choices, With(s, id, s.db.(disk := left), op))
  }

  lemma {:induction false} SweepAlone(s: System, id: OpId, disk: map<Path, DiskFile>, op: Op, todo: set<Path>)
    requires id !in s.ops && op.Sweeping?
    requires forall p :: p in todo ==> p in disk && p !in op.live && disk[p].mtime < op.threshold
    ensures exists choices :: Sweeps(s, id, disk, op, choices, disk - todo)
    decreases |todo|
  {
    if todo == {} {
      assert disk - {} == disk;
      assert Sweeps(s, id, disk, op, [], disk - todo);
    } else {
      var p :| p in todo;
      var left := disk - {p};
      SweepAlone(s, id, left, op, todo - {p});
      var choices :| Sweeps(s, id, left, op, choices, left - (todo - {p}));
      assert left - (todo - {p}) == disk - todo;
      OneStep(s, id, s.db.(disk := disk), op, Target(p), ArtifactTables.Unlink(p), Some(op));
      assert ([Target(p)] + choices)[1..] == choices;
      assert Sweeps(s, id, disk, op, [Target(p)] + choices, disk - todo);
    }
  }

  /** A reconciliation can remove every old file that no row refers to. */
  lemma ReconcileAlone(s: System, id: OpId)
    requires id !in s.ops
    ensures var snapshot := Snapshotting(LivePaths(s.db), s.db.clock);
            var sweep := Sweeping(LivePaths(s.db), s.db.clock, s.db.clock - ORPHAN_AGE);
            && CanBegin(s, snapshot, s.db.clock)
            && Step(With(s, id, s.db, snapshot), Advance(id, Go)) == Some(With(s, id, s.db, sweep))
            && exists choices :: Sweeps(s, id, s.db.disk, sweep, choices, Reconciled(s.db, {}).disk)
  {
    var snapshot := Snapshotting(LivePaths(s.db), s.db.clock);
    var sweep := Sweeping(LivePaths(s.db), s.db.clock, s.db.clock - ORPHAN_AGE);
    var todo := set p | p in s.db.disk && Orphan(s.db, p) && p !in {};
    OneStep(s, id, s.db, snapshot, Go, Nothing, Some(sweep));
    SweepAlone(s, id, s.db.disk, sweep, todo);
    assert Reconciled(s.db, {}).disk == s.db.disk - todo;
  }
}
