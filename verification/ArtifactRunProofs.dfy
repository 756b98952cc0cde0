/** Every step has an allowed effect, so the invariant holds at every point of every run. */
module ArtifactRunProofs {
  import opened Common
  import opened ArtifactTables
  import opened ArtifactProtocol
  import opened ArtifactInvariants
  import opened ArtifactTableProofs
  import opened ArtifactOpProofs

  /** An operation's move is allowed and leaves it knowing what its next phase needs. */
  ghost predicate Sound(s: System, op: Op, move: Move) {
    move.Move? ==>
      && Allowed(s.db, s.timing, ActorOf(op), move.effect)
      && (move.next.Some? ==>
            Knows(Apply(s.db, move.effect), s.timing, move.next.value)
            && OwnInv(Apply(s.db, move.effect), move.next.value))
  }

  ghost predicate Ready(s: System, op: Op) {
    TableInv(s.db, s.timing) && Knows(s.db, s.timing, op) && OwnInv(s.db, op)
  }

  lemma ReserveSound(s: System, op: Op, choice: Choice)
    requires Ready(s, op) && op.Reserving?
    ensures Sound(s, op, NextMove(s, op, choice))
  {
  }

  lemma AdmitSound(s: System, c: Creation, choice: Choice)
    requires Ready(s, Creating(c, CLocked))
    ensures Sound(s, Creating(c, CLocked), MoveAdmit(s.db, c))
  {
  }

  lemma CreateSound(s: System, op: Op, choice: Choice)
    requires Ready(s, op) && op.Creating?
    ensures Sound(s, op, NextMove(s, op, choice))
  {
    if op.cAt.CLocked? {
      AdmitSound(s, op.c, choice);
    } else if op.cAt.CFits? && choice.Go? {
      WriteSound(s, op.c);
    } else if op.cAt.CWritten? && choice.Go? {
      CommitSound(s, op.c, op.cAt.at);
    }
  }

  lemma WriteSound(s: System, c: Creation)
    requires Ready(s, Creating(c, CFits))
    ensures Sound(s, Creating(c, CFits), MoveCreate(s, c, CFits, Go))
  {
    var e := Write(Blob(c.file), c.bytes);
    var s' := Apply(s.db, e);
    assert QuotaUsedExcept(s', c.user, c.upload) == QuotaUsedExcept(s.db, c.user, c.upload) by {
      if c.upload.Some? {
        ExceptOf(s.db, c.user, c.upload.value);
        ExceptOf(s', c.user, c.upload.value);
      }
    }
  }

  lemma CommitSound(s: System, c: Creation, at: Time)
    requires Ready(s, Creating(c, CWritten(at)))
    ensures Sound(s, Creating(c, CWritten(at)), MoveCreate(s, c, CWritten(at), Go))
  {
  }

  lemma UpdateSound(s: System, op: Op, choice: Choice)
    requires Ready(s, op) && op.Updating?
    ensures Sound(s, op, NextMove(s, op, choice))
  {
    if op.wAt.UWritten? && choice.Go? {
      RewriteSound(s, op.w, op.wAt);
    } else if op.wAt.UNamed? && choice.Go? {
      VersionSound(s, op.w, op.wAt);
    }
  }

  lemma VersionSound(s: System, w: Rewrite, at: UpdatePhase)
    requires at.UNamed? && Ready(s, Updating(w, at))
    ensures Sound(s, Updating(w, at), MoveUpdate(s, w, at, Go))
  {
  }

  lemma RewriteSound(s: System, w: Rewrite, at: UpdatePhase)
    requires at.UWritten? && Ready(s, Updating(w, at))
    ensures Sound(s, Updating(w, at), MoveUpdate(s, w, at, Go))
  {
  }

  lemma CleanupSound(s: System, op: Op, choice: Choice)
    requires Ready(s, op) && op.CleaningUp?
    ensures Sound(s, op, NextMove(s, op, choice))
  {
    assert forall f :: f in s.db.files ==> FileNamed(s.db, f);
  }

  lemma ExpireSound(s: System, op: Op, choice: Choice)
    requires op.Expiring? && NamesInv(s.db) && KnowsExpire(s.db, op)
    ensures Sound(s, op, MoveExpire(s, op, choice))
  {
    assert forall f :: f in s.db.files ==> FileNamed(s.db, f);
  }

  lemma CloseSound(s: System, op: Op, choice: Choice)
    requires op.Closing? && NamesInv(s.db) && KnowsClose(s.db, op)
    ensures Sound(s, op, MoveClose(s, op, choice))
  {
  }

  lemma RetireSound(s: System, op: Op, choice: Choice)
    requires op.Retiring? && NamesInv(s.db) && KnowsRetire(s.db, op)
    ensures Sound(s, op, MoveRetire(s, op, choice))
  {
  }

  lemma ReconcileSound(s: System, op: Op, choice: Choice)
    requires Ready(s, op) && (op.Snapshotting? || op.Sweeping?)
    ensures Sound(s, op, NextMove(s, op, choice))
  {
    if op.Sweeping? && choice.Target? && NextMove(s, op, choice).Move? {
      SweepAllowed(s, op, choice.path);
      ReconcileKept(s.db, s.timing, ActorOf(op), Unlink(choice.path), op.live, op.at);
    }
  }

  lemma SweepAllowed(s: System, op: Op, p: Path)
    requires Ready(s, op) && op.Sweeping? && p in s.db.disk && p !in op.live && s.db.disk[p].mtime < op.threshold
    ensures AllowedUnlink(s.db, s.timing, ActorOf(op), p)
  {
  }

  lemma ReceiveSound(s: System, op: Op, choice: Choice)
    requires Ready(s, op) && op.ReceivingOp?
    ensures Sound(s, op, NextMove(s, op, choice))
  {
    if op.pAt.PClaimed? || op.pAt.PStreaming? {
      StreamSound(s, op.p, op.pAt, choice);
    } else if op.pAt.PFull? || op.pAt.PPlaced? {
      PlaceSound(s, op.p, op.pAt, choice);
    } else {
      ResetSound(s, op.p, op.pAt, choice);
    }
  }

  lemma StreamSound(s: System, p: Receipt, at: ReceivePhase, choice: Choice)
    requires Ready(s, ReceivingOp(p, at)) && (at.PClaimed? || at.PStreaming?)
    ensures Sound(s, ReceivingOp(p, at), MoveReceive(s, p, at, choice))
  {
  }

  lemma PlaceSound(s: System, p: Receipt, at: ReceivePhase, choice: Choice)
    requires Ready(s, ReceivingOp(p, at)) && (at.PFull? || at.PPlaced?)
    ensures Sound(s, ReceivingOp(p, at), MoveReceive(s, p, at, choice))
  {
  }

  lemma ResetSound(s: System, p: Receipt, at: ReceivePhase, choice: Choice)
    requires Ready(s, ReceivingOp(p, at)) && (at.PCleanTemp? || at.PCleanPath? || at.PReset?)
    ensures Sound(s, ReceivingOp(p, at), MoveReceive(s, p, at, choice))
  {
  }

  lemma CompleteSound(s: System, op: Op, choice: Choice)
    requires op.Completing? && NamesInv(s.db) && SingleInv(s.db) && ReceivedInv(s.db) && KnowsComplete(s.db, op)
    ensures Sound(s, op, MoveComplete(s, op, choice))
  {
  }

  lemma MoveSound(s: System, op: Op, choice: Choice)
    requires Ready(s, op)
    ensures Sound(s, op, NextMove(s, op, choice))
  {
    match op
    case Reserving(_, _) => ReserveSound(s, op, choice);
    case Creating(_, _) => CreateSound(s, op, choice);
    case Updating(_, _) => UpdateSound(s, op, choice);
    case CleaningUp(_, _) => CleanupSound(s, op, choice);
    case Expiring(_, _, _, _) => ExpireSound(s, op, choice);
    case Closing(_, _, _, _) => CloseSound(s, op, choice);
    case Retiring(_, _, _) => RetireSound(s, op, choice);
    case Snapshotting(_, _) => ReconcileSound(s, op, choice);
    case Sweeping(_, _, _) => ReconcileSound(s, op, choice);
    case ReceivingOp(_, _) => ReceiveSound(s, op, choice);
    case Completing(_, _, _) => CompleteSound(s, op, choice);
  }

  // ----- Operations side by side -----------------------------------------------------------------

  /** A move keeps the operation from holding what another one holds. */
  lemma MoveCompatible(s: System, op: Op, choice: Choice, other: Op)
    requires Ready(s, op) && OwnInv(s.db, other) && Compatible(op, other)
    requires forall user: UserId :: LockFree(s, user) ==> LockOf(other) != Some(user)
    requires NextMove(s, op, choice).Move? && NextMove(s, op, choice).next.Some?
    ensures Compatible(NextMove(s, op, choice).next.value, other)
  {
    MoveLock(s, op, choice);
    MoveOwn(s, op, choice);
    MoveReceipt(s, op, choice);
  }

  lemma MoveLock(s: System, op: Op, choice: Choice)
    requires NextMove(s, op, choice).Move? && NextMove(s, op, choice).next.Some?
    ensures var lock := LockOf(NextMove(s, op, choice).next.value);
            lock == None || lock == LockOf(op) || LockFree(s, lock.value)
  {
  }

  lemma MoveOwn(s: System, op: Op, choice: Choice)
    requires Knows(s.db, s.timing, op) && NextMove(s, op, choice).Move? && NextMove(s, op, choice).next.Some?
    ensures var own := OwnName(NextMove(s, op, choice).next.value);
            own == None || own == OwnName(op) || own.value !in s.db.issued
  {
  }

  lemma MoveReceipt(s: System, op: Op, choice: Choice)
    requires NextMove(s, op, choice).Move? && NextMove(s, op, choice).next.Some?
    ensures ReceiptOf(NextMove(s, op, choice).next.value) in {None, ReceiptOf(op)}
  {
  }

  lemma BeginSound(s: System, op: Op, seen: Time)
    requires TableInv(s.db, s.timing) && CanBegin(s, op, seen)
    ensures Allowed(s.db, s.timing, Actor(None, None, None), BeginEffect(op))
    ensures Knows(Apply(s.db, BeginEffect(op)), s.timing, op) && OwnInv(Apply(s.db, BeginEffect(op)), op)
  {
    if op.Expiring? {
      assert FileNamed(s.db, op.file);
    }
  }

  lemma BeginCompatible(s: System, op: Op, seen: Time, other: Op)
    requires CanBegin(s, op, seen) && Knows(s.db, s.timing, other) && OwnInv(s.db, other)
    ensures Compatible(op, other)
  {
  }

  lemma CompatibleSwaps(a: Op, b: Op)
    requires Compatible(a, b)
    ensures Compatible(b, a) && Apart(ActorOf(a), b)
  {
  }

  /** The common part of all steps: one operation's effect, the others' knowledge. */
  lemma SettleKeepsInv(s: System, id: OpId, me: Actor, effect: Effect, next: Option<Op>)
    requires Inv(s) && Allowed(s.db, s.timing, me, effect)
    requires forall i :: i in s.ops && i != id ==> Apart(me, s.ops[i])
    requires next.Some? ==>
      Knows(Apply(s.db, effect), s.timing, next.value) && OwnInv(Apply(s.db, effect), next.value)
    requires next.Some? ==> forall i :: i in s.ops && i != id ==> Compatible(next.value, s.ops[i])
    ensures Inv(Settle(s, id, effect, next))
  {
    var s' := Settle(s, id, effect, next);
    TablesKept(s.db, s.timing, me, effect);
    forall i | i in s'.ops
      ensures Knows(s'.db, s'.timing, s'.ops[i]) && OwnInv(s'.db, s'.ops[i])
    {
      if i != id {
        KnowsKept(s.db, s.timing, me, effect, s.ops[i]);
      }
    }
    forall i, j | i in s'.ops && j in s'.ops && i != j
      ensures Compatible(s'.ops[i], s'.ops[j])
    {
      if j == id {
        CompatibleSwaps(next.value, s.ops[i]);
      }
    }
  }

  lemma AdvanceKeepsInv(s: System, id: OpId, choice: Choice)
    requires Inv(s) && id in s.ops && NextMove(s, s.ops[id], choice).Move?
    ensures Inv(Settle(s, id, NextMove(s, s.ops[id], choice).effect, NextMove(s, s.ops[id], choice).next))
  {
    var op := s.ops[id];
    var move := NextMove(s, op, choice);
    MoveSound(s, op, choice);
    forall i | i in s.ops && i != id
      ensures Apart(ActorOf(op), s.ops[i])
      ensures move.next.Some? ==> Compatible(move.next.value, s.ops[i])
    {
      CompatibleSwaps(op, s.ops[i]);
      if move.next.Some? {
        MoveCompatible(s, op, choice, s.ops[i]);
      }
    }
    SettleKeepsInv(s, id, ActorOf(op), move.effect, move.next);
  }

  lemma BeginKeepsInv(s: System, id: OpId, op: Op, seen: Time)
    requires Inv(s) && id !in s.ops && CanBegin(s, op, seen)
    ensures Inv(Settle(s, id, BeginEffect(op), Some(op)))
  {
    BeginSound(s, op, seen);
    forall i | i in s.ops && i != id
      ensures Compatible(op, s.ops[i])
    {
      BeginCompatible(s, op, seen, s.ops[i]);
    }
    SettleKeepsInv(s, id, Actor(None, None, None), BeginEffect(op), Some(op));
  }

  lemma TickKnows(s: Store, t: Timing, op: Op, dt: nat)
    requires Knows(s, t, op)
    ensures Knows(Later(s, dt), t, op)
  {
    if op.Creating? && op.c.upload.Some? {
      ExceptOf(s, op.c.user, op.c.upload.value);
      ExceptOf(Later(s, dt), op.c.user, op.c.upload.value);
    }
  }

  function Later(s: Store, dt: nat): Store {
    s.(clock := s.clock + dt)
  }

  lemma TickTables(s: Store, t: Timing, dt: nat)
    requires TableInv(s, t)
    ensures TableInv(Later(s, dt), t)
  {
    var s' := Later(s, dt);
    assert NamesInv(s') by {
      assert forall f :: f in s'.files ==> FileNamed(s, f) && FileNamed(s', f);
    }
    assert QuotaInv(s') by {
      assert forall user: UserId ::
               LiveBytes(s', user) == LiveBytes(s, user) && QuotaUsed(s', user) == QuotaUsed(s, user);
    }
  }

  lemma TickKeepsInv(s: System, dt: nat)
    requires Inv(s)
    ensures Inv(s.(db := Later(s.db, dt)))
  {
    TickTables(s.db, s.timing, dt);
    forall i | i in s.ops
      ensures Knows(Later(s.db, dt), s.timing, s.ops[i]) && OwnInv(Later(s.db, dt), s.ops[i])
    {
      TickKnows(s.db, s.timing, s.ops[i], dt);
    }
  }

  lemma CrashKeepsInv(s: System, id: OpId)
    requires Inv(s)
    ensures Inv(Settle(s, id, Nothing, None))
  {
    assert forall i, j :: i in s.ops && j in s.ops && i != j ==> Compatible(s.ops[i], s.ops[j]);
  }

  lemma AdvanceStepKeepsInv(s: System, id: OpId, choice: Choice, s': System)
    requires Inv(s) && Step(s, Advance(id, choice)) == Some(s')
    ensures Inv(s')
  {
    AdvanceKeepsInv(s, id, choice);
  }

  lemma BeginStepKeepsInv(s: System, id: OpId, op: Op, seen: Time, s': System)
    requires Inv(s) && Step(s, Begin(id, op, seen)) == Some(s')
    ensures Inv(s')
  {
    BeginKeepsInv(s, id, op, seen);
  }

  lemma SoftDeleteStepKeepsInv(s: System, user: UserId, file: Name, s': System)
    requires Inv(s) && Step(s, SoftDelete(user, file)) == Some(s')
    ensures Inv(s')
  {
    SoftDeleteKeepsInv(s, file);
  }

  lemma TickStep(s: System, dt: nat, s': System)
    requires Step(s, Tick(dt)) == Some(s')
    ensures s' == s.(db := Later(s.db, dt))
  {
  }

  lemma TickStepKeepsInv(s: System, dt: nat, s': System)
    requires Inv(s) && Step(s, Tick(dt)) == Some(s')
    ensures Inv(s')
  {
    TickStep(s, dt, s');
    TickKeepsInv(s, dt);
  }

  lemma CrashStepKeepsInv(s: System, id: OpId, s': System)
    requires Inv(s) && Step(s, Crash(id)) == Some(s')
    ensures Inv(s')
  {
    CrashKeepsInv(s, id);
  }

  lemma StepKeepsInv(s: System, e: Event, s': System)
    requires Inv(s) && Step(s, e) == Some(s')
    ensures Inv(s')
  {
    if e.Advance? {
      AdvanceStepKeepsInv(s, e.id, e.choice, s');
    } else if e.Begin? {
      BeginStepKeepsInv(s, e.id, e.op, e.seen, s');
    } else if e.SoftDelete? {
      SoftDeleteStepKeepsInv(s, e.user, e.file, s');
    } else if e.Tick? {
      TickStepKeepsInv(s, e.dt, s');
    } else {
      CrashStepKeepsInv(s, e.id, s');
    }
  }

  lemma ApplyClock(s: Store, e: Effect)
    ensures Apply(s, e).clock == s.clock
  {
  }

  lemma StepApplies(s: System, e: Event, s': System)
    requires Step(s, e) == Some(s') && !e.Tick?
    ensures s'.timing == s.timing && exists effect :: s'.db == Apply(s.db, effect)
  {
    match e
    case Begin(_, op, _) => assert s'.db == Apply(s.db, BeginEffect(op));
    case Advance(id, choice) => assert s'.db == Apply(s.db, NextMove(s, s.ops[id], choice).effect);
    case Crash(_) => assert s'.db == Apply(s.db, Nothing);
    case SoftDelete(_, file) => assert s'.db == Apply(s.db, MarkDeleted(file));
    case Tick(_) =>
  }

  lemma StepTiming(s: System, e: Event, s': System)
    requires Step(s, e) == Some(s')
    ensures s'.timing == s.timing && s'.db.clock >= s.db.clock
  {
    if e.Tick? {
      TickStep(s, e.dt, s');
    } else {
      StepApplies(s, e, s');
      var effect :| s'.db == Apply(s.db, effect);
      ApplyClock(s.db, effect);
    }
  }

  lemma SoftDeleteKeepsInv(s: System, file: Name)
    requires Inv(s)
    ensures Inv(s.(db := Apply(s.db, MarkDeleted(file))))
  {
    var me := Actor(None, None, None);
    TablesKept(s.db, s.timing, me, MarkDeleted(file));
    forall i | i in s.ops
      ensures Knows(Apply(s.db, MarkDeleted(file)), s.timing, s.ops[i])
      ensures OwnInv(Apply(s.db, MarkDeleted(file)), s.ops[i])
    {
      KnowsKept(s.db, s.timing, me, MarkDeleted(file), s.ops[i]);
    }
  }

  lemma InitialInv(timing: Timing)
    ensures Inv(Initial(timing))
  {
    forall user: UserId
      ensures QuotaUsed(EmptyStore(), user) == 0
    {
    }
  }

  lemma {:induction false} RunKeepsInv(s: System, events: seq<Event>, s': System)
    requires Inv(s) && Run(s, events) == Some(s')
    ensures Inv(s') && s'.timing == s.timing && s'.db.clock >= s.db.clock
    decreases |events|
  {
    if events != [] {
      var next := Step(s, events[0]).value;
      StepKeepsInv(s, events[0], next);
      StepTiming(s, events[0], next);
      RunKeepsInv(next, events[1..], s');
    }
  }
}
