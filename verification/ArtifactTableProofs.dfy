/** Allowed effects keep the invariants of tables and disk. */
module ArtifactTableProofs {
  import opened Common
  import opened Totals
  import opened ArtifactTables
  import opened ArtifactProtocol
  import opened ArtifactInvariants

  // ----- Byte totals -----------------------------------------------------------------------------

  /** Excluding an unfinished upload takes its reservation off the total, and nothing else. */
  lemma ExceptOf(s: Store, user: UserId, u: Name)
    ensures QuotaUsedExcept(s, user, Some(u)) ==
            QuotaUsed(s, user) - (if u in s.uploads then UploadWeight(user)(s.uploads[u]) else 0)
  {
    TotalWithout(s.uploads, UploadWeight(user), u);
  }

  lemma FilesTotal(s: Store, e: Effect, user: UserId)
    requires NamesInv(s)
    ensures Total(Apply(s, e).files, FileWeight(user)) ==
      match e
      case InsertFile(f, row, _) =>
        Total(s.files, FileWeight(user)) - (if f in s.files then FileWeight(user)(s.files[f]) else 0)
        + FileWeight(user)(row)
      case RewriteFile(f, size, _, _, _, _) =>
        (if f in s.files && s.files[f].owner == user then Total(s.files, FileWeight(user)) - s.files[f].size + size
         else Total(s.files, FileWeight(user)))
      case DeleteFile(f) =>
        Total(s.files, FileWeight(user)) - (if f in s.files then FileWeight(user)(s.files[f]) else 0)
      case _ => Total(s.files, FileWeight(user))
  {
    var w := FileWeight(user);
    match e
    case InsertFile(f, row, _) =>
      TotalInsert(s.files, w, f, row);
      TotalWithout(s.files, w, f);
    case RewriteFile(f, _, _, _, _, _) =>
      if f in s.files {
        TotalInsert(s.files, w, f, Apply(s, e).files[f]);
        TotalWithout(s.files, w, f);
      }
    case MarkDeleted(f) =>
      if f in s.files {
        TotalInsert(s.files, w, f, Apply(s, e).files[f]);
        TotalWithout(s.files, w, f);
      }
    case DeleteFile(f) => TotalWithout(s.files, w, f);
    case _ =>
  }

  lemma UploadsTotal(s: Store, e: Effect, user: UserId)
    requires e.SetState? ==> e.state != Complete && (e.upload in s.uploads ==> s.uploads[e.upload].state != Complete)
    requires e.FinishUpload? && e.upload in s.uploads ==> s.uploads[e.upload].state != Complete
    ensures Total(Apply(s, e).uploads, UploadWeight(user)) ==
      match e
      case InsertUpload(u, row) =>
        Total(s.uploads, UploadWeight(user)) - (if u in s.uploads then UploadWeight(user)(s.uploads[u]) else 0)
        + UploadWeight(user)(row)
      case InsertFile(_, _, from) =>
        Total(s.uploads, UploadWeight(user))
        - (if from.Some? && from.value in s.uploads then UploadWeight(user)(s.uploads[from.value]) else 0)
      case DeleteUpload(u) =>
        Total(s.uploads, UploadWeight(user)) - (if u in s.uploads then UploadWeight(user)(s.uploads[u]) else 0)
      case _ => Total(s.uploads, UploadWeight(user))
  {
    var w := UploadWeight(user);
    match e
    case InsertUpload(u, row) =>
      TotalInsert(s.uploads, w, u, row);
      TotalWithout(s.uploads, w, u);
    case InsertFile(f, _, from) =>
      if from.Some? && from.value in s.uploads {
        TotalInsert(s.uploads, w, from.value, Apply(s, e).uploads[from.value]);
        TotalWithout(s.uploads, w, from.value);
      }
    case SetState(u, state) =>
      if u in s.uploads {
        TotalInsert(s.uploads, w, u, Apply(s, e).uploads[u]);
        TotalWithout(s.uploads, w, u);
      }
    case FinishUpload(u, _) =>
      if u in s.uploads {
        TotalInsert(s.uploads, w, u, Apply(s, e).uploads[u]);
        TotalWithout(s.uploads, w, u);
      }
    case DeleteUpload(u) => TotalWithout(s.uploads, w, u);
    case DeleteFile(f) => TotalAlike(s.uploads, Unreference(s.uploads, f), w);
    case _ =>
  }

  lemma RetiredTotal(s: Store, e: Effect, user: UserId)
    ensures Total(Apply(s, e).retired, RetiredWeight(user)) ==
      match e
      case RewriteFile(f, _, _, _, oldPath, oldRow) =>
        (if f in s.files then
           Total(s.retired, RetiredWeight(user))
           - (if oldPath in s.retired then RetiredWeight(user)(s.retired[oldPath]) else 0) + RetiredWeight(user)(oldRow)
         else Total(s.retired, RetiredWeight(user)))
      case DeleteRetired(p) =>
        Total(s.retired, RetiredWeight(user)) - (if p in s.retired then RetiredWeight(user)(s.retired[p]) else 0)
      case _ => Total(s.retired, RetiredWeight(user))
  {
    var w := RetiredWeight(user);
    match e
    case RewriteFile(f, _, _, _, oldPath, oldRow) =>
      TotalInsert(s.retired, w, oldPath, oldRow);
      TotalWithout(s.retired, w, oldPath);
    case DeleteRetired(p) => TotalWithout(s.retired, w, p);
    case _ =>
  }

  /** An allowed effect changes only the totals of the user whose lock the actor holds. */
  lemma OtherTotals(s: Store, t: Timing, me: Actor, e: Effect, user: UserId)
    requires NamesInv(s) && Allowed(s, t, me, e) && me.lock != Some(user)
    ensures LiveBytes(Apply(s, e), user) == LiveBytes(s, user)
    ensures QuotaUsed(Apply(s, e), user) == QuotaUsed(s, user)
  {
    FilesTotal(s, e, user);
    UploadsTotal(s, e, user);
    RetiredTotal(s, e, user);
  }

  /** Both bounds: a rewrite may push the retired bytes past the quota, by at most the one file it replaces. */
  lemma QuotaKept(s: Store, t: Timing, me: Actor, e: Effect)
    requires NamesInv(s) && SizeInv(s) && QuotaInv(s) && Allowed(s, t, me, e)
    ensures QuotaInv(Apply(s, e))
  {
    forall user: UserId
      ensures LiveBytes(Apply(s, e), user) <= MAX_QUOTA_BYTES
      ensures QuotaUsed(Apply(s, e), user) <= MAX_QUOTA_BYTES + MAX_FILE_BYTES
    {
      assert LiveBytes(s, user) <= MAX_QUOTA_BYTES && QuotaUsed(s, user) <= MAX_QUOTA_BYTES + MAX_FILE_BYTES;
      if me.lock != Some(user) {
        OtherTotals(s, t, me, e, user);
      } else {
        FilesTotal(s, e, user);
        UploadsTotal(s, e, user);
        RetiredTotal(s, e, user);
        if e.InsertFile? && e.from.Some? {
          ExceptOf(s, user, e.from.value);
        }
      }
    }
  }

  // ----- The other table invariants --------------------------------------------------------------

  lemma NamesKept(s: Store, t: Timing, me: Actor, e: Effect)
    requires NamesInv(s) && Allowed(s, t, me, e)
    ensures NamesInv(Apply(s, e))
  {
    var s' := Apply(s, e);
    if e.RewriteFile? {
      RewriteNames(s, t, me, e);
    } else if e.InsertFile? {
      InsertNames(s, t, me, e);
    } else {
      OtherNames(s, t, me, e);
      assert forall f :: f in s'.files ==> FileNamed(s, f);
      DiskNames(s, t, me, e);
    }
  }

  lemma OtherNames(s: Store, t: Timing, me: Actor, e: Effect)
    requires NamesInv(s) && Allowed(s, t, me, e) && !e.RewriteFile? && !e.InsertFile?
    ensures var s' := Apply(s, e);
            && s'.files.Keys <= s.files.Keys && s'.retired.Keys <= s.retired.Keys && s.used <= s'.used <= s'.issued.Keys
            && (forall f :: f in s'.files ==>
                  s'.files[f].path == s.files[f].path && s'.files[f].owner == s.files[f].owner)
            && (forall n :: n in s.issued ==> n in s'.issued && s'.issued[n] == s.issued[n])
            && (forall u :: u in s'.uploads ==> u in s'.used && u in s'.issued && s'.issued[u] == s'.uploads[u].owner)
  {
  }

  lemma DiskNames(s: Store, t: Timing, me: Actor, e: Effect)
    requires NamesInv(s) && Allowed(s, t, me, e)
    ensures forall p :: p in Apply(s, e).disk && (p.Staged? || p.StagedPartial?) ==> p.upload in s.used
  {
  }

  lemma InsertNames(s: Store, t: Timing, me: Actor, e: Effect)
    requires NamesInv(s) && Allowed(s, t, me, e) && e.InsertFile?
    ensures NamesInv(Apply(s, e))
  {
    var s' := Apply(s, e);
    forall f | f in s'.files
      ensures FileNamed(s', f) && s'.files[f].path !in s'.retired
    {
      if f != e.file {
        assert FileNamed(s, f);
      }
    }
  }

  lemma RewriteNames(s: Store, t: Timing, me: Actor, e: Effect)
    requires NamesInv(s) && Allowed(s, t, me, e) && e.RewriteFile?
    ensures NamesInv(Apply(s, e))
  {
    var s' := Apply(s, e);
    assert FileNamed(s, e.file);
    forall f | f in s'.files
      ensures FileNamed(s', f) && s'.files[f].path !in s'.retired
    {
      assert FileNamed(s, f);
    }
  }

  lemma BlobKept(s: Store, t: Timing, me: Actor, e: Effect)
    requires t.Timely() && NamesInv(s) && BlobInv(s) && Allowed(s, t, me, e)
    ensures BlobInv(Apply(s, e))
  {
    var s' := Apply(s, e);
    forall f | f in s'.files && Visible(s'.files[f], s'.clock)
      ensures Intact(s', s'.files[f].path, s'.files[f].size, s'.files[f].digest)
    {
      if f in s.files {
        assert FileNamed(s, f);
        BlobOfKept(s, t, me, e, f);
      }
    }
  }

  lemma BlobOfKept(s: Store, t: Timing, me: Actor, e: Effect, f: Name)
    requires t.Timely() && f in s.files && FileNamed(s, f) && Allowed(s, t, me, e)
    requires Visible(s.files[f], s.clock) ==> Intact(s, s.files[f].path, s.files[f].size, s.files[f].digest)
    requires f in Apply(s, e).files && Visible(Apply(s, e).files[f], s.clock)
    ensures Intact(Apply(s, e), Apply(s, e).files[f].path, Apply(s, e).files[f].size, Apply(s, e).files[f].digest)
  {
  }

  lemma StagingKept(s: Store, t: Timing, me: Actor, e: Effect)
    requires StagingInv(s) && Allowed(s, t, me, e)
    ensures StagingInv(Apply(s, e))
  {
    var s' := Apply(s, e);
    forall u | u in s'.uploads && s'.uploads[u].state == Uploaded && s'.uploads[u].expires > s'.clock
      ensures Staged(u) in s'.disk
    {
      StagingOfKept(s, t, me, e, u);
    }
  }

  lemma StagingOfKept(s: Store, t: Timing, me: Actor, e: Effect, u: Name)
    requires Allowed(s, t, me, e)
    requires u in s.uploads && s.uploads[u].state == Uploaded && s.uploads[u].expires > s.clock ==> Staged(u) in s.disk
    requires u in Apply(s, e).uploads && Apply(s, e).uploads[u].state == Uploaded
    requires Apply(s, e).uploads[u].expires > s.clock
    ensures Staged(u) in Apply(s, e).disk
  {
  }

  lemma TtlKept(s: Store, t: Timing, me: Actor, e: Effect)
    requires NamesInv(s) && TtlInv(s) && Allowed(s, t, me, e)
    ensures TtlInv(Apply(s, e))
  {
    forall u | u in Apply(s, e).uploads
      ensures TtlOf(Apply(s, e), u)
    {
      TtlOfKept(s, t, me, e, u);
    }
  }

  lemma TtlOfKept(s: Store, t: Timing, me: Actor, e: Effect, u: Name)
    requires NamesInv(s) && Allowed(s, t, me, e) && u in Apply(s, e).uploads
    requires u in s.uploads ==> TtlOf(s, u)
    ensures TtlOf(Apply(s, e), u)
  {
  }

  lemma ReceivedKept(s: Store, t: Timing, me: Actor, e: Effect)
    requires NamesInv(s) && ReceivedInv(s) && Allowed(s, t, me, e)
    ensures ReceivedInv(Apply(s, e))
  {
    var s' := Apply(s, e);
    forall u | u in s'.staged
      ensures u in s'.used && Holds(s', Staged(u), s'.staged[u])
    {
      ReceivedOfKept(s, t, me, e, u);
    }
    forall u | u in s'.uploads && s'.uploads[u].state == Uploaded
      ensures u in s'.staged && |s'.staged[u]| == s'.uploads[u].size
    {
    }
  }

  lemma ReceivedOfKept(s: Store, t: Timing, me: Actor, e: Effect, u: Name)
    requires NamesInv(s) && Allowed(s, t, me, e)
    requires u in s.staged ==> u in s.used && Holds(s, Staged(u), s.staged[u])
    requires u in Apply(s, e).staged
    ensures u in Apply(s, e).used && Holds(Apply(s, e), Staged(u), Apply(s, e).staged[u])
  {
  }

  lemma SingleKept(s: Store, t: Timing, me: Actor, e: Effect)
    requires NamesInv(s) && SingleInv(s) && OriginInv(s) && Allowed(s, t, me, e)
    ensures SingleInv(Apply(s, e))
  {
    var s' := Apply(s, e);
    forall u, f, g | (u, f) in s'.registered && (u, g) in s'.registered
      ensures f == g && (u in s'.uploads ==> s'.uploads[u].state == Complete)
    {
      SingleOfKept(s, t, me, e, u, f, g);
    }
  }

  lemma SingleOfKept(s: Store, t: Timing, me: Actor, e: Effect, u: Name, f: Name, g: Name)
    requires NamesInv(s) && SingleInv(s) && OriginInv(s) && Allowed(s, t, me, e)
    requires (u, f) in Apply(s, e).registered && (u, g) in Apply(s, e).registered
    ensures f == g && (u in Apply(s, e).uploads ==> Apply(s, e).uploads[u].state == Complete)
  {
  }

  lemma OriginKept(s: Store, t: Timing, me: Actor, e: Effect)
    requires NamesInv(s) && OriginInv(s) && Allowed(s, t, me, e) && SizeInv(s)
    ensures OriginInv(Apply(s, e))
  {
    var s' := Apply(s, e);
    forall u, f | (u, f) in s'.registered && f in s'.files && s'.files[f].version == 1
      ensures s'.files[f].digest == Digest(s'.staged[u])
    {
      OriginOfKept(s, t, me, e, u, f);
    }
  }

  lemma OriginOfKept(s: Store, t: Timing, me: Actor, e: Effect, u: Name, f: Name)
    requires Allowed(s, t, me, e) && SizeInv(s)
    requires (u, f) in s.registered ==> u in s.used && u in s.staged && f in s.used
    requires (u, f) in s.registered && f in s.files && s.files[f].version == 1 ==>
               s.files[f].digest == Digest(s.staged[u])
    requires (u, f) in Apply(s, e).registered && f in Apply(s, e).files && Apply(s, e).files[f].version == 1
    ensures u in Apply(s, e).staged && Apply(s, e).files[f].digest == Digest(Apply(s, e).staged[u])
  {
  }

  lemma SizesKept(s: Store, t: Timing, me: Actor, e: Effect)
    requires SizeInv(s) && Allowed(s, t, me, e)
    ensures SizeInv(Apply(s, e))
  {
  }

  lemma TablesKept(s: Store, t: Timing, me: Actor, e: Effect)
    requires TableInv(s, t) && Allowed(s, t, me, e)
    ensures TableInv(Apply(s, e), t)
  {
    NamesKept(s, t, me, e);
    if t.Timely() {
      BlobKept(s, t, me, e);
    }
    StagingKept(s, t, me, e);
    TtlKept(s, t, me, e);
    ReceivedKept(s, t, me, e);
    SingleKept(s, t, me, e);
    OriginKept(s, t, me, e);
    SizesKept(s, t, me, e);
    QuotaKept(s, t, me, e);
  }
}
