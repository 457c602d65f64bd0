/** The V1 signed controller handoff: `activate` and `recover_expired_apply` of
    `control_handoff.py`, one operation, any number of invocations, each of which
    may lose power before any durable write. */
module HandoffV1 {
  import opened Power
  import opened Host

  /** What one invocation is given: the operator's envelope, the clock at the four
      places it is read, and the outcome of every check and command that looks
      outside the handoff's own files. */
  datatype Attempt = Attempt(
    rollback: bool, envelope: Envelope,
    entry: int, inLock: int, publishing: int, accepting: int,
    evidence: bool, lock: bool, identity: bool, live: bool, timers: bool, serving: bool,
    reload: bool, refresh: bool, stable: bool, undoReload: bool)

  datatype Decision =
    | Undecided | AlreadyRolledBack | RollbackCleanup | AlreadyApplied
    | Reconciled | Accepted | RolledBack | RolledBackExpired

  const SKEW := 30000

  predicate Window(e: Envelope, at: int) {
    e.issuedAt <= at <= e.expiresAt
  }

  /** An authentic forward approval in a bounded validity window. */
  predicate Forward(e: Envelope) {
    e.genuine && e.undoes.None? && e.issuedAt < e.expiresAt <= e.issuedAt + LONGEST
  }

  predicate ValidForward(e: Envelope, accepted: int, now: int) {
    Forward(e) && Window(e, accepted) && accepted <= now + SKEW
  }

  predicate ValidSaved(plan: Plan, d: Disk, now: int) {
    && d.receipt.Some? && d.receipt.value.Receipt?
    && d.receipt.value.operationId == plan.operationId
    && d.apply.approval == Some(d.receipt.value.envelope)
    && ValidForward(d.receipt.value.envelope, d.receipt.value.acceptedAt, now)
  }

  predicate ValidRecovery(plan: Plan, e: Envelope, b: Binding, now: int) {
    && Forward(e) && b.operationId == plan.operationId && b.envelope == e
    && Window(e, b.authorizedAt) && b.authorizedAt <= now + SKEW
  }

  predicate ValidRollback(e: Envelope, receipt: Receipt, now: int) {
    && e.genuine && e.undoes == Some(receipt) && e.issuedAt < e.expiresAt <= e.issuedAt + LONGEST
    && e.issuedAt <= now + SKEW && now <= e.expiresAt
  }

  /** The unit always moves before the serving symlink. */
  function First(action: Action): Side {
    Unit
  }

  predicate Recorded(plan: Plan, d: Disk) {
    && Bound(plan, d.apply) && Bound(plan, d.rollback)
    && InOrder(d, Apply, First(Apply)) && InOrder(d, Rollback, First(Rollback))
    && (d.apply.intent.Some? ==>
          Forward(d.apply.intent.value.envelope)
          && Window(d.apply.intent.value.envelope, d.apply.intent.value.authorizedAt))
    && (d.rollback.intent.Some? ==>
          && d.receipt.Some?
          && d.rollback.intent.value.envelope.genuine
          && d.rollback.intent.value.envelope.undoes == d.receipt
          && d.rollback.intent.value.envelope.expiresAt <= d.rollback.intent.value.envelope.issuedAt + LONGEST
          && Window(d.rollback.intent.value.envelope, d.rollback.intent.value.authorizedAt))
    && (d.receipt.Some? ==>
          && d.apply.intent.Some?
          && d.receipt.value.Receipt? && d.receipt.value.operationId == plan.operationId
          && d.receipt.value.envelope == d.apply.intent.value.envelope
          && Window(d.receipt.value.envelope, d.receipt.value.acceptedAt))
  }

  /** Nothing of this operation is on disk. */
  predicate Untouched(plan: Plan, d: Disk) {
    && AllOld(plan, d) && d.apply == BLANK && d.rollback == BLANK
    && d.receipt.None? && d.rolledBack.None? && d.prepared.None?
  }

  /** What holds of the disk however often the handoff is invoked and cut.
      Without PENDING the three effects agree; with it, a side that left its place
      has the intent of the running direction on disk. */
  predicate Safe(plan: Plan, d: Disk) {
    && WellPlanned(plan)
    && Recorded(plan, d)
    && d.prepared.None?
    && (d.core == plan.oldMain || d.core == plan.newMain)
    && (d.unit == plan.oldUnit || d.unit == plan.newUnit)
    && (d.pointer != plan.previous ==>
          d.receipt.Some? && d.pointer == Some(Pointer(plan.operationId, d.receipt.value)))
    && (d.receipt.None? ==>
          && (d.core != plan.oldMain ==> d.apply.main.intent.Some?)
          && (d.unit != plan.oldUnit ==> d.apply.unit.intent.Some?))
    && (d.receipt.Some? ==>
          && (d.core != plan.newMain ==> d.rollback.main.intent.Some?)
          && (d.unit != plan.newUnit ==> d.rollback.unit.intent.Some?))
    && (d.rolledBack.Some? ==> AllOld(plan, d) && d.rolledBack.value.binding.operationId == plan.operationId)
    && (d.pending.None? ==>
          if d.receipt.Some? && d.rolledBack.None? then AllNew(plan, d) else AllOld(plan, d))
    && (d.pending.None? && d.receipt.None? && d.rolledBack.None? ==>
          d.apply.unit.intent.None? && d.apply.main.intent.None?)
    && (d.pending.Some? && d.pending.value != plan.operationId ==> Untouched(plan, d))
  }

  /** The effects may run: this operation is pending under a published intent. */
  predicate Armed(plan: Plan, d: Disk, action: Action, binding: Binding) {
    && Safe(plan, d)
    && d.pending == Some(plan.operationId)
    && TrailOf(d, action).intent == Some(binding)
    && d.rolledBack.None?
    && (action == Apply ==> d.receipt.None?)
    && (action == Rollback ==> d.receipt.Some?)
  }

  lemma IntendedKeepsArmed(plan: Plan, d: Disk, action: Action, side: Side, binding: Binding)
    requires Armed(plan, d, action, binding) && MayBegin(d, action, First(action), side)
    ensures Armed(plan, Intended(d, action, side, binding), action, binding)
    ensures Advances(d, Intended(d, action, side, binding), action)
  {
  }

  lemma ReceiptedKeepsArmed(plan: Plan, d: Disk, action: Action, side: Side, binding: Binding)
    requires Armed(plan, d, action, binding) && PhaseOf(d, action, side).intent.Some?
    ensures Armed(plan, Receipted(d, action, side, binding), action, binding)
    ensures Advances(d, Receipted(d, action, side, binding), action)
  {
  }

  lemma MovedKeepsArmed(plan: Plan, d: Disk, action: Action, side: Side, binding: Binding)
    requires Armed(plan, d, action, binding)
    requires PhaseOf(d, action, side).intent.Some?
    ensures Armed(plan, Moved(d, side, After(plan, action, side)), action, binding)
    ensures Advances(d, Moved(d, side, After(plan, action, side)), action)
  {
  }

  /** Each cut of a phase keeps the invariant, and an armed phase is never refused. */
  lemma PhaseKeepsArmed(plan: Plan, d: Disk, action: Action, side: Side, binding: Binding, n: nat)
    requires Armed(plan, d, action, binding) && MayBegin(d, action, First(action), side)
    ensures Armed(plan, PhaseDisk(d, action, side, binding, After(plan, action, side), n), action, binding)
    ensures Advances(d, PhaseDisk(d, action, side, binding, After(plan, action, side), n), action)
    ensures Free(PhaseOf(d, action, side).intent, binding) && Free(PhaseOf(d, action, side).receipt, binding)
    ensures PhaseMay(d, action, side, Before(plan, action, side), After(plan, action, side))
  {
    var d1 := Intended(d, action, side, binding);
    var d2 := Moved(d1, side, After(plan, action, side));
    IntendedKeepsArmed(plan, d, action, side, binding);
    MovedKeepsArmed(plan, d1, action, side, binding);
    ReceiptedKeepsArmed(plan, d2, action, side, binding);
  }

  method RunPhase(m: Machine<Disk>, plan: Plan, action: Action, side: Side, binding: Binding)
    returns (r: Status, ghost writes: nat)
    requires Armed(plan, m.disk, action, binding) && MayBegin(m.disk, action, First(action), side)
    modifies m
    ensures Armed(plan, m.disk, action, binding) && Advances(old(m.disk), m.disk, action)
    ensures writes <= 3 && m.disk == PhaseDisk(old(m.disk), action, side, binding, After(plan, action, side), writes)
    ensures !r.Refused? && (r.Ok? ==> writes == 3)
    ensures old(m.power) == 1 && Current(old(m.disk), side) == Before(plan, action, side)
            && PhaseOf(old(m.disk), action, side) == BLANK.unit ==>
              r.PowerLost? && m.disk == Intended(old(m.disk), action, side, binding)
    ensures r.PowerLost? ==> old(m.power) < 3
    ensures old(m.power) - 3 <= m.power <= old(m.power)
  {
    PhaseKeepsArmed(plan, m.disk, action, side, binding, 0);
    r, writes := PhaseEffect(m, action, side, binding, Before(plan, action, side), After(plan, action, side));
    PhaseKeepsArmed(plan, old(m.disk), action, side, binding, writes);
  }

  /** The commands and re-observations between the effects and the terminal records. */
  predicate Postchecks(a: Attempt) {
    a.reload && (a.rollback || a.refresh) && a.stable
  }

  predicate Succeeds(a: Attempt) {
    Postchecks(a) && (a.rollback || ValidForward(a.envelope, a.accepting, a.accepting))
  }

  function Direction(a: Attempt): Action {
    if a.rollback then Rollback else Apply
  }

  /** The end of an accepted apply, or of a completed rollback. */
  predicate Finished(plan: Plan, d: Disk, a: Attempt, binding: Binding) {
    && d.pending.None? && TrailOf(d, Direction(a)).intent == Some(binding)
    && if a.rollback then
         AllOld(plan, d) && d.rolledBack == Some(Terminal(binding, SignedRollback))
       else
         && AllNew(plan, d) && d.rolledBack.None?
         && d.receipt == Some(Receipt(plan.operationId, a.envelope, a.accepting))
  }

  method Accept(m: Machine<Disk>, plan: Plan, a: Attempt, binding: Binding) returns (r: Status)
    requires Armed(plan, m.disk, Apply, binding) && !a.rollback && binding.envelope == a.envelope
    requires m.disk.core == plan.newMain && m.disk.unit == plan.newUnit
    modifies m
    ensures Safe(plan, m.disk) && Advances(old(m.disk), m.disk, Direction(a))
    ensures r.Ok? ==> Finished(plan, m.disk, a, binding)
    ensures r.Ok? ==> ValidForward(a.envelope, a.accepting, a.accepting)
    ensures r.Refused? ==> m.disk == old(m.disk) && !ValidForward(a.envelope, a.accepting, a.accepting)
    ensures r.PowerLost? ==> old(m.power) < 3
    ensures old(m.power) - 3 <= m.power <= old(m.power)
  {
    r := Ok;
    :- Need(ValidForward(a.envelope, a.accepting, a.accepting));
    var receipt := Receipt(plan.operationId, a.envelope, a.accepting);
    :- PublishReceipt(m, receipt);
    :- SetPointer(m, Pointer(plan.operationId, receipt));
    r := FinishPending(m, plan.operationId);
  }

  method Revert(m: Machine<Disk>, plan: Plan, binding: Binding) returns (r: Status)
    requires Armed(plan, m.disk, Rollback, binding)
    requires m.disk.core == plan.oldMain && m.disk.unit == plan.oldUnit
    modifies m
    ensures Safe(plan, m.disk) && Advances(old(m.disk), m.disk, Rollback)
    ensures r.Ok? ==> m.disk == old(m.disk).(pointer := plan.previous, pending := None,
                                             rolledBack := Some(Terminal(binding, SignedRollback)))
    ensures !r.Refused?
    ensures r.PowerLost? ==> old(m.power) < 3
    ensures old(m.power) - 3 <= m.power <= old(m.power)
  {
    r := Ok;
    :- RestorePointer(m, plan);
    :- PublishRolledBack(m, Terminal(binding, SignedRollback));
    r := FinishPending(m, plan.operationId);
  }

  /** The unit moves before the serving symlink, in both directions. */
  method RunPhases(m: Machine<Disk>, plan: Plan, action: Action, binding: Binding) returns (r: Status)
    requires Armed(plan, m.disk, action, binding)
    modifies m
    ensures Armed(plan, m.disk, action, binding) && Advances(old(m.disk), m.disk, action)
    ensures !r.Refused?
    ensures r.Ok? ==> m.disk.core == After(plan, action, Main) && m.disk.unit == After(plan, action, Unit)
    ensures m.disk.core != old(m.disk).core ==> m.disk.unit == After(plan, action, Unit)
    ensures (old(m.power) == 1 && Current(old(m.disk), Unit) == Before(plan, action, Unit)
             && PhaseOf(old(m.disk), action, Unit) == BLANK.unit) ==>
              r.PowerLost? && m.disk == Intended(old(m.disk), action, Unit, binding)
    ensures r.PowerLost? ==> old(m.power) < 6
    ensures old(m.power) - 6 <= m.power <= old(m.power)
  {
    ghost var writes;
    r, writes := RunPhase(m, plan, action, Unit, binding);
    if r.Ok? {
      r, writes := RunPhase(m, plan, action, Main, binding);
    }
  }

  /** The guarded body of `activate`: both phases, the commands, the terminal. */
  method TryEffects(m: Machine<Disk>, plan: Plan, a: Attempt, binding: Binding) returns (r: Status)
    requires Armed(plan, m.disk, Direction(a), binding) && binding.envelope == a.envelope
    modifies m
    ensures Safe(plan, m.disk) && Advances(old(m.disk), m.disk, Direction(a))
    ensures r.Ok? ==> Finished(plan, m.disk, a, binding)
    ensures r.Ok? ==> Succeeds(a)
    ensures r.Refused? ==> !Succeeds(a)
    ensures r.Refused? ==> Armed(plan, m.disk, Direction(a), binding)
    ensures (old(m.power) == 1 && Current(old(m.disk), Unit) == Before(plan, Direction(a), Unit)
             && PhaseOf(old(m.disk), Direction(a), Unit) == BLANK.unit) ==>
              r.PowerLost? && m.disk == Intended(old(m.disk), Direction(a), Unit, binding)
    ensures r.PowerLost? ==> old(m.power) < 9
    ensures old(m.power) - 9 <= m.power <= old(m.power)
  {
    r := Ok;
    :- RunPhases(m, plan, Direction(a), binding);
    :- Need(a.reload);
    if !a.rollback {
      :- Need(a.refresh);
    }
    :- Need(a.stable);
    if a.rollback {
      r := Revert(m, plan, binding);
    } else {
      r := Accept(m, plan, a, binding);
    }
  }

  /** Moving both sides back is safe while nothing is accepted. */
  method MoveBack(m: Machine<Disk>, plan: Plan, binding: Binding) returns (r: Status)
    requires Armed(plan, m.disk, Apply, binding)
    modifies m
    ensures Armed(plan, m.disk, Apply, binding)
    ensures m.disk == old(m.disk).(core := m.disk.core, unit := m.disk.unit)
    ensures !r.Refused?
    ensures r.Ok? ==> m.disk.core == plan.oldMain && m.disk.unit == plan.oldUnit
    ensures r.PowerLost? ==> old(m.power) < 2
    ensures old(m.power) - 2 <= m.power <= old(m.power)
  {
    if m.disk.core == plan.newMain {
      :- Switch(m, Main, plan.newMain, plan.oldMain);
    }
    if m.disk.unit == plan.newUnit {
      :- Switch(m, Unit, plan.newUnit, plan.oldUnit);
    }
    r := Ok;
  }

  /** An apply that ended undone: everything old, and a terminal that says why. */
  predicate Undone(plan: Plan, d: Disk, binding: Binding, reason: Reason) {
    d.pending.None? && AllOld(plan, d) && d.receipt.None? && d.rolledBack == Some(Terminal(binding, reason))
  }

  method Terminate(m: Machine<Disk>, plan: Plan, binding: Binding, reason: Reason) returns (r: Status)
    requires Safe(plan, m.disk) && m.disk.receipt.None? && m.disk.rolledBack.None?
    requires Free(m.disk.pending, plan.operationId) && binding.operationId == plan.operationId
    requires m.disk.core == plan.oldMain && m.disk.unit == plan.oldUnit
    requires m.disk.apply.intent.Some?
    modifies m
    ensures Safe(plan, m.disk) && Advances(old(m.disk), m.disk, Apply)
    ensures !r.Refused?
    ensures r.Ok? ==> Undone(plan, m.disk, binding, reason)
    ensures r.PowerLost? ==> old(m.power) < 3
    ensures old(m.power) - 3 <= m.power <= old(m.power)
  {
    r := Ok;
    :- RestorePointer(m, plan);
    :- PublishRolledBack(m, Terminal(binding, reason));
    r := FinishPending(m, plan.operationId);
  }

  /** Only what this operation's own intents announced moves back, and that is all
      that can be out of place. */
  method MoveAnnouncedBack(m: Machine<Disk>, plan: Plan, binding: Binding) returns (r: Status)
    requires Armed(plan, m.disk, Apply, binding)
    modifies m
    ensures Armed(plan, m.disk, Apply, binding)
    ensures m.disk == old(m.disk).(core := m.disk.core, unit := m.disk.unit)
    ensures !r.Refused? && (r.Ok? ==> AllOld(plan, m.disk))
    ensures r.PowerLost? ==> old(m.power) < 2
    ensures old(m.power) - 2 <= m.power <= old(m.power)
  {
    if m.disk.apply.main.intent.Some? && m.disk.core == plan.newMain {
      :- Switch(m, Main, plan.newMain, plan.oldMain);
    }
    if m.disk.apply.unit.intent.Some? && m.disk.unit == plan.newUnit {
      :- Switch(m, Unit, plan.newUnit, plan.oldUnit);
    }
    r := Ok;
  }

  /** The exception handler of `activate`: undo exact states that this
      operation's own intents announced, never after acceptance. */
  method Undo(m: Machine<Disk>, plan: Plan, a: Attempt, binding: Binding) returns (r: Status)
    requires Armed(plan, m.disk, Apply, binding)
    modifies m
    ensures Safe(plan, m.disk) && Advances(old(m.disk), m.disk, Apply)
    ensures r.Ok? ==> a.undoReload && Undone(plan, m.disk, binding, PostcheckFailed)
    ensures r.Refused? ==> !a.undoReload && Armed(plan, m.disk, Apply, binding) && AllOld(plan, m.disk)
    ensures r.PowerLost? ==> old(m.power) < 5
    ensures old(m.power) - 5 <= m.power <= old(m.power)
  {
    r := Ok;
    :- MoveAnnouncedBack(m, plan, binding);
    hide Safe;
    if m.disk.core == plan.oldMain && m.disk.unit == plan.oldUnit {
      :- Need(a.undoReload);
      r := Terminate(m, plan, binding, PostcheckFailed);
    } else {
      r := Ok;
    }
  }

  /** What expiry recovery needs beyond a timely intent: when an effect was
      announced, the live state must still be the planned one. */
  predicate MayRecover(plan: Plan, d: Disk, a: Attempt) {
    && (plan.profileBootstrap ==> a.live)
    && (d.apply.unit.intent.Some? || d.apply.main.intent.Some? ==> a.live && a.timers && a.reload && a.stable)
  }

  /** Effects were announced: both sides go back under the same marker. */
  method RecoverEffects(m: Machine<Disk>, plan: Plan, a: Attempt, binding: Binding) returns (r: Status)
    requires Safe(plan, m.disk) && m.disk.receipt.None? && m.disk.rolledBack.None?
    requires m.disk.apply.intent == Some(binding) && Free(m.disk.pending, plan.operationId)
    modifies m
    ensures Safe(plan, m.disk) && m.disk == old(m.disk).(core := m.disk.core, unit := m.disk.unit)
    ensures r.Ok? ==> m.disk.core == plan.oldMain && m.disk.unit == plan.oldUnit && m.disk.pending.Some?
    ensures r.Ok? ==> a.live && a.timers && a.reload && a.stable
    ensures r.Refused? ==> !(a.live && a.timers && a.reload && a.stable && m.disk.pending.Some?)
    ensures r.PowerLost? ==> old(m.power) < 2
    ensures old(m.power) - 2 <= m.power <= old(m.power)
  {
    r := Ok;
    :- Need(a.live && m.disk.pending.Some?);
    :- Need(a.timers);
    :- MoveBack(m, plan, binding);
    :- Need(a.reload);
    r := Need(a.stable);
  }

  /** The same, in the leaves and outcomes themselves. */
  predicate Recovers(plan: Plan, d: Disk, a: Attempt) {
    && (plan.profileBootstrap ==> a.live)
    && (d.apply.unit.intent.Some? ==> a.live && a.timers && a.reload && a.stable)
  }

  method RecoverExpired(m: Machine<Disk>, plan: Plan, a: Attempt) returns (r: Status)
    requires Safe(plan, m.disk) && m.disk.receipt.None? && m.disk.rolledBack.None?
    requires m.disk.apply.intent.Some? && ValidRecovery(plan, a.envelope, m.disk.apply.intent.value, a.inLock)
    modifies m
    ensures Safe(plan, m.disk) && Advances(old(m.disk), m.disk, Apply)
    ensures r.Ok? ==> Recovers(plan, old(m.disk), a)
    ensures r.Ok? ==> Undone(plan, m.disk, old(m.disk).apply.intent.value, ExpiredBeforeAcceptance)
    ensures r.Refused? ==> !MayRecover(plan, old(m.disk), a) && m.disk.pending == old(m.disk).pending
    ensures r.PowerLost? ==> old(m.power) < 5
    ensures old(m.power) - 5 <= m.power <= old(m.power)
  {
    var binding := m.disk.apply.intent.value;
    var core, unit := m.disk.core, m.disk.unit;
    var mainIntent, unitIntent := m.disk.apply.main.intent, m.disk.apply.unit.intent;
    :- Need(&& Free(m.disk.pending, plan.operationId)
            && (core == plan.oldMain || core == plan.newMain) && (unit == plan.oldUnit || unit == plan.newUnit)
            && (if mainIntent.Some? then mainIntent.value == binding else core == plan.oldMain)
            && (if unitIntent.Some? then unitIntent.value == binding else unit == plan.oldUnit)
            && (plan.profileBootstrap ==> a.live));
    if mainIntent.Some? || unitIntent.Some? {
      :- RecoverEffects(m, plan, a, binding);
    }
    r := Terminate(m, plan, binding, ExpiredBeforeAcceptance);
  }

  method TryEffectsOrUndo(m: Machine<Disk>, plan: Plan, a: Attempt, binding: Binding) returns (r: Status)
    requires Armed(plan, m.disk, Direction(a), binding) && binding.envelope == a.envelope
    modifies m
    ensures Safe(plan, m.disk) && Advances(old(m.disk), m.disk, Direction(a))
    ensures r.Ok? ==> Succeeds(a) && Finished(plan, m.disk, a, binding)
    ensures r.Refused? ==> !Succeeds(a)
    ensures r.Refused? && !a.rollback && a.undoReload ==> Undone(plan, m.disk, binding, PostcheckFailed)
    ensures (old(m.power) == 1 && Current(old(m.disk), Unit) == Before(plan, Direction(a), Unit)
             && PhaseOf(old(m.disk), Direction(a), Unit) == BLANK.unit) ==>
              r.PowerLost? && m.disk == Intended(old(m.disk), Direction(a), Unit, binding)
    ensures r.PowerLost? ==> old(m.power) < 14
  {
    r := TryEffects(m, plan, a, binding);
    if r.Refused? && !a.rollback {
      var undone := Undo(m, plan, a, binding);
      r := if undone.PowerLost? then PowerLost else Refused;
    }
  }

  /** The binding an invocation runs under: its own on the first attempt, the
      recorded one afterwards. */
  function BindingOf(plan: Plan, d: Disk, a: Attempt): Binding {
    var intent := TrailOf(d, Direction(a)).intent;
    if intent.None? then Binding(plan.operationId, a.envelope, a.inLock) else intent.value
  }

  /** The checks between the lock and the first write. A first attempt needs the
      exact preimage; an unfinished one without PENDING needs it too, and no
      announced phase. */
  predicate Authorized(plan: Plan, d: Disk, a: Attempt) {
    var action := Direction(a);
    var t := TrailOf(d, action);
    var b := BindingOf(plan, d, a);
    && b.operationId == plan.operationId && b.envelope == a.envelope
    && Window(a.envelope, b.authorizedAt) && b.authorizedAt <= a.inLock + SKEW
    && (t.intent.None? || d.pending.None? ==>
          d.core == Before(plan, action, Main) && d.unit == Before(plan, action, Unit))
    && (t.intent.Some? && d.pending.None? ==> !HasPhaseIntent(t))
    && (if a.rollback then d.receipt.Some? && ValidRollback(a.envelope, d.receipt.value, a.publishing)
        else a.serving && ValidForward(a.envelope, a.publishing, a.publishing))
  }

  function Approved(d: Disk, a: Attempt): Disk {
    WithTrail(d, Direction(a), TrailOf(d, Direction(a)).(approval := Some(a.envelope)))
  }

  function Announced(plan: Plan, d: Disk, a: Attempt): Disk {
    var t := TrailOf(d, Direction(a));
    WithTrail(d, Direction(a), t.(approval := Some(a.envelope), intent := Some(BindingOf(plan, d, a))))
  }

  predicate MayArm(plan: Plan, d: Disk, a: Attempt) {
    && Safe(plan, d) && d.rolledBack.None?
    && (!a.rollback ==> d.receipt.None?)
    && Free(d.pending, plan.operationId)
  }

  /** A first attempt in its direction: nothing of it is on disk yet. */
  predicate Opening(plan: Plan, d: Disk, a: Attempt) {
    TrailOf(d, Direction(a)) == BLANK && d.pending.None? && Authorized(plan, d, a)
  }

  /** What a first attempt leaves when it is cut after its fourth write: armed, the
      unit's phase announced, and nothing moved. */
  function FirstIntent(plan: Plan, d: Disk, a: Attempt): Disk {
    Intended(Announced(plan, d, a).(pending := Some(plan.operationId)), Direction(a), Unit, BindingOf(plan, d, a))
  }

  /** An unfinished rollback whose PENDING marker is gone but whose phases were
      announced: `activate` refuses it for good. */
  predicate Stranded(d: Disk) {
    && d.pending.None? && d.rolledBack.None? && d.rollback.intent.Some?
    && (d.rollback.unit.intent.Some? || d.rollback.main.intent.Some?)
  }

  lemma ApprovedKeepsSafe(plan: Plan, d: Disk, a: Attempt)
    requires MayArm(plan, d, a) && Authorized(plan, d, a) && Free(TrailOf(d, Direction(a)).approval, a.envelope)
    ensures Safe(plan, Approved(d, a)) && Advances(d, Approved(d, a), Direction(a))
  {
  }

  lemma AnnouncedKeepsSafe(plan: Plan, d: Disk, a: Attempt)
    requires MayArm(plan, d, a) && Authorized(plan, d, a) && Free(TrailOf(d, Direction(a)).approval, a.envelope)
    ensures Safe(plan, Announced(plan, d, a)) && Advances(d, Announced(plan, d, a), Direction(a))
    ensures Armed(plan, Announced(plan, d, a).(pending := Some(plan.operationId)), Direction(a), BindingOf(plan, d, a))
    ensures Free(TrailOf(d, Direction(a)).intent, BindingOf(plan, d, a))
  {
  }

  /** The three publications that arm the effects. */
  method Arm(m: Machine<Disk>, plan: Plan, a: Attempt) returns (r: Status)
    requires MayArm(plan, m.disk, a)
    modifies m
    ensures Safe(plan, m.disk) && Advances(old(m.disk), m.disk, Direction(a))
    ensures r.Ok? || m.disk != old(m.disk) ==> Authorized(plan, old(m.disk), a)
    ensures r.Ok? ==> m.disk == Announced(plan, old(m.disk), a).(pending := Some(plan.operationId))
    ensures r.Ok? ==> Armed(plan, m.disk, Direction(a), BindingOf(plan, old(m.disk), a))
    ensures r.Refused? ==> m.disk == old(m.disk)
    ensures r.Refused? ==>
              !Authorized(plan, old(m.disk), a) || !Free(TrailOf(m.disk, Direction(a)).approval, a.envelope)
    ensures Opening(plan, old(m.disk), a) && old(m.power) >= 3 ==> r.Ok? && m.power == old(m.power) - 3
    ensures Stranded(old(m.disk)) ==> m.disk == old(m.disk) && r.Refused?
    ensures r.PowerLost? ==> old(m.power) < 3
    ensures old(m.power) - 3 <= m.power <= old(m.power)
  {
    var action, binding := Direction(a), BindingOf(plan, m.disk, a);
    :- Need(Authorized(plan, m.disk, a));
    if Free(TrailOf(m.disk, action).approval, a.envelope) {
      ApprovedKeepsSafe(plan, m.disk, a);
      AnnouncedKeepsSafe(plan, m.disk, a);
    }
    hide Safe;
    hide Authorized;
    hide Advances;
    :- PublishApproval(m, action, a.envelope);
    :- PublishIntent(m, action, binding);
    r := PublishPending(m, plan.operationId);
  }

  predicate Expired(a: Attempt, at: int) {
    at > a.envelope.expiresAt
  }

  /** Every outside check and command succeeds, and the clock does not run back. */
  predicate Unhindered(a: Attempt) {
    && a.evidence && a.lock && a.identity && a.live && a.timers && a.serving
    && a.reload && a.refresh && a.stable && a.undoReload
    && a.entry <= a.inLock <= a.publishing <= a.accepting
  }

  /** `a` runs again, under the same approval, an apply whose intent is on disk
      and that no rollback has touched. */
  predicate Rerun(plan: Plan, d: Disk, a: Attempt) {
    && !a.rollback
    && d.apply.intent.Some? && d.rollback.intent.None?
    && a.envelope == d.apply.intent.value.envelope
    && d.apply.intent.value.authorizedAt <= a.entry
    && (d.receipt.Some? ==> d.receipt.value.acceptedAt <= a.entry)
  }

  /** The approval expired after the locked recovery check and before the check
      that precedes the effects: the only re-run that leaves PENDING in place. */
  predicate ExpiresBetweenChecks(d: Disk, a: Attempt) {
    d.receipt.None? && d.rolledBack.None? && !Expired(a, a.inLock) && Expired(a, a.publishing)
  }

  /** Where one uninterrupted re-run ends. */
  predicate Completes(plan: Plan, d: Disk, a: Attempt, after: Disk)
    requires Rerun(plan, d, a)
  {
    if d.rolledBack.Some? then
      after == d.(pending := None)
    else if d.receipt.Some? then
      after == d.(pending := None, pointer := Some(Pointer(plan.operationId, d.receipt.value))) && AllNew(plan, after)
    else if ExpiresBetweenChecks(d, a) then
      after == d
    else if Expired(a, a.inLock) then
      Undone(plan, after, d.apply.intent.value, ExpiredBeforeAcceptance)
    else if Expired(a, a.accepting) then
      Undone(plan, after, d.apply.intent.value, PostcheckFailed)
    else
      Finished(plan, after, a, d.apply.intent.value)
  }

  /** A re-run that has not met its expiry passes every check before the effects. */
  lemma RerunIsAuthorized(plan: Plan, d: Disk, a: Attempt)
    requires Safe(plan, d) && Rerun(plan, d, a) && Unhindered(a)
    requires d.receipt.None? && d.rolledBack.None?
    ensures Free(d.pending, plan.operationId)
    ensures Free(d.apply.approval, a.envelope)
    ensures ValidRecovery(plan, a.envelope, d.apply.intent.value, a.entry)
    ensures ValidRecovery(plan, a.envelope, d.apply.intent.value, a.inLock)
    ensures Authorized(plan, d, a) <==> !Expired(a, a.publishing)
    ensures Succeeds(a) <==> !Expired(a, a.accepting)
  {
  }

  lemma OpeningStands(plan: Plan, d: Disk, a: Attempt)
    requires Opening(plan, d, a)
    ensures var armed := Announced(plan, d, a).(pending := Some(plan.operationId));
            && Current(armed, Unit) == Before(plan, Direction(a), Unit)
            && PhaseOf(armed, Direction(a), Unit) == BLANK.unit
    ensures Free(TrailOf(d, Direction(a)).approval, a.envelope)
  {
  }

  /** The locked body of `activate`: arm, run, and undo a failed apply. */
  method Effect(m: Machine<Disk>, plan: Plan, a: Attempt) returns (r: Status)
    requires Safe(plan, m.disk) && m.disk.rolledBack.None?
    requires !a.rollback ==> m.disk.receipt.None?
    requires Free(m.disk.pending, plan.operationId)
    modifies m
    ensures Safe(plan, m.disk) && Advances(old(m.disk), m.disk, Direction(a))
    ensures var d := old(m.disk); var binding := BindingOf(plan, d, a);
            && (r.Ok? ==> Authorized(plan, d, a) && Succeeds(a) && Finished(plan, m.disk, a, binding))
            && (r.Refused? && Authorized(plan, d, a) && Free(TrailOf(d, Direction(a)).approval, a.envelope) ==>
                  && !Succeeds(a)
                  && (!a.rollback && a.undoReload ==> Undone(plan, m.disk, binding, PostcheckFailed)))
            && (m.disk != d ==> Authorized(plan, d, a))
    ensures Opening(plan, old(m.disk), a) && old(m.power) == 4 ==>
              r.PowerLost? && m.disk == FirstIntent(plan, old(m.disk), a)
    ensures Stranded(old(m.disk)) ==> m.disk == old(m.disk) && r.Refused?
    ensures r.PowerLost? ==> old(m.power) < 17
  {
    r := Ok;
    if Opening(plan, m.disk, a) {
      OpeningStands(plan, m.disk, a);
    }
    hide Safe;
    hide Authorized;
    hide Finished;
    hide Undone;
    hide InOrder;
    :- Arm(m, plan, a);
    r := TryEffectsOrUndo(m, plan, a, TrailOf(m.disk, Direction(a)).intent.value);
  }

  /** What is read before the lock is taken. */
  predicate Admitted(plan: Plan, d: Disk, a: Attempt) {
    if a.rollback then
      d.receipt.Some? && ValidRollback(a.envelope, d.receipt.value, a.entry) && a.identity
    else if d.receipt.None? then
      && a.identity
      && if d.apply.intent.Some? then ValidRecovery(plan, a.envelope, d.apply.intent.value, a.entry)
         else ValidForward(a.envelope, a.entry, a.entry)
    else
      true
  }

  /** A first apply or any rollback: the invocations no earlier record decides. */
  predicate Starts(d: Disk, a: Attempt) {
    if a.rollback then d.receipt.Some? else d.receipt.None? && d.apply.intent.None?
  }

  /** Which outside checks and commands a returning invocation saw succeed. */
  predicate Vouches(plan: Plan, d: Disk, a: Attempt, decision: Decision) {
    match decision
    case Accepted =>
      && a.live && a.timers && a.serving && a.reload && a.refresh && a.stable
      && a.envelope.issuedAt <= a.accepting <= a.envelope.expiresAt
    case RolledBack => a.live && a.timers && a.reload && a.stable
    case RolledBackExpired => a.inLock > a.envelope.expiresAt && a.identity && Recovers(plan, d, a)
    case Reconciled =>
      a.live && a.timers && d.receipt.Some? && d.receipt.value.Receipt?
      && d.receipt.value.acceptedAt <= a.publishing + 30000
    case RollbackCleanup => a.lock && a.live
    case _ => true
  }

  /** What each decision of a returning invocation says about the disk. */
  predicate Delivers(plan: Plan, d: Disk, a: Attempt, decision: Decision, after: Disk) {
    match decision
    case Undecided => false
    case AlreadyRolledBack => after == d && d.rolledBack.Some?
    case RollbackCleanup => after == d.(pending := None) && d.rolledBack.Some? && AllOld(plan, d)
    case AlreadyApplied => after == d && !a.rollback && d.receipt.Some? && (d.pending.None? ==> AllNew(plan, d))
    case Reconciled => after == d.(pending := None, pointer := after.pointer) && AllNew(plan, after)
    case Accepted => !a.rollback && Finished(plan, after, a, BindingOf(plan, d, a))
    case RolledBack => a.rollback && Finished(plan, after, a, BindingOf(plan, d, a))
    case RolledBackExpired =>
      d.apply.intent.Some? && Undone(plan, after, d.apply.intent.value, ExpiredBeforeAcceptance)
  }

  /** Both effects of an accepted apply are in place and only its marker stands: an
      undisturbed apply invocation settles the matter. */
  predicate Settles(plan: Plan, d: Disk, a: Attempt) {
    && !a.rollback && Unhindered(a) && d.rolledBack.None? && d.pending == Some(plan.operationId)
    && d.core == plan.newMain && d.unit == plan.newUnit
    && d.receipt.Some? && d.receipt.value.Receipt?
    && d.receipt.value.acceptedAt <= a.entry + 30000 && d.receipt.value.acceptedAt <= a.publishing + 30000
  }

  /** Acceptance was published but not announced: republish the pointer. */
  method Reconcile(m: Machine<Disk>, plan: Plan, a: Attempt) returns (r: Status)
    requires Safe(plan, m.disk) && m.disk.rolledBack.None? && m.disk.receipt.Some?
    modifies m
    ensures Safe(plan, m.disk) && Advances(old(m.disk), m.disk, Direction(a))
    ensures r.Ok? ==> AllNew(plan, m.disk)
    ensures r.Ok? ==> m.disk == old(m.disk).(pending := None, pointer := m.disk.pointer)
    ensures r.Ok? || m.disk != old(m.disk) ==>
              && a.live && a.timers && old(m.disk).receipt.value.Receipt?
              && old(m.disk).receipt.value.acceptedAt <= a.publishing + 30000
    ensures Rerun(plan, old(m.disk), a) && Unhindered(a) && !r.PowerLost? ==>
              r.Ok? && Completes(plan, old(m.disk), a, m.disk)
    ensures Settles(plan, old(m.disk), a) && old(m.power) >= 2 ==> r.Ok?
    ensures r.PowerLost? ==> old(m.power) < 2
  {
    r := Ok;
    :- Need(a.live && a.timers && Free(m.disk.pending, plan.operationId));
    :- Need(m.disk.core == plan.newMain && m.disk.unit == plan.newUnit && ValidSaved(plan, m.disk, a.publishing));
    :- SetPointer(m, Pointer(plan.operationId, m.disk.receipt.value));
    r := FinishPending(m, plan.operationId);
  }

  /** The live state is re-observed under the lock, and only then are the
      effects armed. */
  method Begin(m: Machine<Disk>, plan: Plan, a: Attempt) returns (r: Status)
    requires Safe(plan, m.disk) && m.disk.rolledBack.None?
    requires !a.rollback ==> m.disk.receipt.None?
    modifies m
    ensures Safe(plan, m.disk) && Advances(old(m.disk), m.disk, Direction(a))
    ensures r.Ok? ==> Finished(plan, m.disk, a, BindingOf(plan, old(m.disk), a))
    ensures a.live && a.timers && Succeeds(a) && !r.PowerLost?
            && Free(old(m.disk).pending, plan.operationId)
            && Free(TrailOf(old(m.disk), Direction(a)).approval, a.envelope) ==>
              (r.Ok? <==> Authorized(plan, old(m.disk), a))
    ensures r.Ok? || m.disk != old(m.disk) ==> a.live && a.timers && Authorized(plan, old(m.disk), a)
    ensures r.Ok? ==> Succeeds(a)
    ensures Rerun(plan, old(m.disk), a) && Unhindered(a) && !Expired(a, a.inLock) && !r.PowerLost? ==>
              Completes(plan, old(m.disk), a, m.disk)
    ensures Opening(plan, old(m.disk), a) && old(m.power) == 4 && a.live && a.timers ==>
              r.PowerLost? && m.disk == FirstIntent(plan, old(m.disk), a)
    ensures Stranded(old(m.disk)) ==> m.disk == old(m.disk) && r.Refused?
    ensures r.PowerLost? ==> old(m.power) < 17
  {
    if Rerun(plan, m.disk, a) && Unhindered(a) {
      RerunIsAuthorized(plan, m.disk, a);
    }
    :- Need(a.live && a.timers);
    :- Need(Free(m.disk.pending, plan.operationId));
    r := Effect(m, plan, a);
  }

  /** What the checks under the lock let through. */
  predicate Locks(plan: Plan, d: Disk, a: Attempt) {
    if d.receipt.None? && !a.rollback && d.apply.intent.Some? then
      && ValidRecovery(plan, a.envelope, d.apply.intent.value, a.inLock) && a.identity
      && (Expired(a, a.inLock) || (a.live && a.timers && Authorized(plan, d, a)))
    else
      a.live && a.timers && (a.rollback || d.receipt.None? ==> Authorized(plan, d, a))
  }

  /** A re-run of an unaccepted apply: expiry may only undo. */
  method Resume(m: Machine<Disk>, plan: Plan, a: Attempt) returns (r: Status, decision: Decision)
    requires Safe(plan, m.disk) && m.disk.rolledBack.None? && m.disk.receipt.None?
    requires !a.rollback && m.disk.apply.intent.Some?
    modifies m
    ensures Safe(plan, m.disk) && Advances(old(m.disk), m.disk, Direction(a))
    ensures r.Ok? ==> decision in {Accepted, RolledBackExpired} && Delivers(plan, old(m.disk), a, decision, m.disk)
    ensures r.Ok? ==> Vouches(plan, old(m.disk), a, decision)
    ensures m.disk != old(m.disk) ==> Locks(plan, old(m.disk), a)
    ensures Rerun(plan, old(m.disk), a) && Unhindered(a) && !r.PowerLost? ==>
              Completes(plan, old(m.disk), a, m.disk)
    ensures r.PowerLost? ==> old(m.power) < 17
  {
    decision := Undecided;
    if Rerun(plan, m.disk, a) && Unhindered(a) {
      RerunIsAuthorized(plan, m.disk, a);
    }
    :- Need(ValidRecovery(plan, a.envelope, m.disk.apply.intent.value, a.inLock) && a.identity);
    if Expired(a, a.inLock) {
      r := RecoverExpired(m, plan, a);
      return r, RolledBackExpired;
    }
    r := Begin(m, plan, a);
    decision := Accepted;
  }

  /** The locked part of `activate`. */
  method Locked(m: Machine<Disk>, plan: Plan, a: Attempt) returns (r: Status, decision: Decision)
    requires Safe(plan, m.disk) && m.disk.rolledBack.None?
    modifies m
    ensures Safe(plan, m.disk) && Advances(old(m.disk), m.disk, Direction(a))
    ensures Opening(plan, old(m.disk), a) && Starts(old(m.disk), a) && old(m.power) == 4 && a.live && a.timers ==>
              r.PowerLost? && m.disk == FirstIntent(plan, old(m.disk), a)
    ensures Stranded(old(m.disk)) && a.rollback ==> m.disk == old(m.disk) && r.Refused?
    ensures Settles(plan, old(m.disk), a) && old(m.power) >= 2 ==> r.Ok? && decision == Reconciled
    ensures r.PowerLost? ==> old(m.power) < 17
    ensures r.Ok? ==> Delivers(plan, old(m.disk), a, decision, m.disk)
    ensures Starts(old(m.disk), a) && a.live && a.timers && Succeeds(a) && !r.PowerLost?
            && Free(old(m.disk).pending, plan.operationId)
            && Free(TrailOf(old(m.disk), Direction(a)).approval, a.envelope) ==>
              (r.Ok? <==> Authorized(plan, old(m.disk), a))
    ensures r.Ok? && Starts(old(m.disk), a) ==> decision == if a.rollback then RolledBack else Accepted
    ensures r.Ok? ==> Vouches(plan, old(m.disk), a, decision)
    ensures m.disk != old(m.disk) ==> Locks(plan, old(m.disk), a)
    ensures Rerun(plan, old(m.disk), a) && Unhindered(a) && !r.PowerLost? ==>
      Completes(plan, old(m.disk), a, m.disk)
  {
    decision := Undecided;
    hide Safe;
    hide Authorized;
    hide Finished;
    hide Undone;
    hide Completes;
    hide ValidRecovery;
    if m.disk.receipt.None? && !a.rollback && m.disk.apply.intent.Some? {
      r, decision := Resume(m, plan, a);
    } else if m.disk.receipt.Some? && !a.rollback {
      r := Reconcile(m, plan, a);
      decision := Reconciled;
    } else {
      r := Begin(m, plan, a);
      decision := if a.rollback then RolledBack else Accepted;
    }
  }

  /** A rollback the operator may ask for: current, bound to the receipt, and
      under the same approval as any unfinished attempt. */
  predicate RollbackReady(plan: Plan, d: Disk, a: Attempt) {
    && a.rollback && d.rolledBack.None?
    && d.receipt.Some? && d.receipt.value.Receipt? && d.receipt.value.acceptedAt <= a.entry + 30000
    && a.envelope.genuine && a.envelope.undoes == d.receipt
    && 0 < a.envelope.expiresAt - a.envelope.issuedAt <= 14400000
    && a.envelope.issuedAt <= a.inLock && a.entry <= a.envelope.expiresAt
    && a.envelope.issuedAt <= a.entry + 30000
    && a.inLock <= a.envelope.expiresAt && a.publishing <= a.envelope.expiresAt
    && a.envelope.issuedAt <= a.publishing + 30000
    && Free(d.rollback.approval, a.envelope)
    && (d.rollback.intent.Some? ==> d.rollback.intent.value.authorizedAt <= a.inLock)
  }

  lemma RollbackIsAuthorized(plan: Plan, d: Disk, a: Attempt)
    requires Safe(plan, d) && RollbackReady(plan, d, a)
    ensures Free(d.pending, plan.operationId)
    ensures Authorized(plan, d, a) <==> !Stranded(d)
  {
  }

  /** A first apply under a valid approval on an untouched host. */
  predicate Fresh(plan: Plan, d: Disk, a: Attempt) {
    && !a.rollback && Untouched(plan, d) && d.pending.None?
    && a.envelope.genuine && a.envelope.undoes.None?
    && 0 < a.envelope.expiresAt - a.envelope.issuedAt <= 14400000
    && a.envelope.issuedAt <= a.entry && a.accepting <= a.envelope.expiresAt
  }

  /** A first apply, or the first attempt at a ready rollback. */
  predicate CutAtFirstIntent(plan: Plan, d: Disk, a: Attempt) {
    Unhindered(a) && Opening(plan, d, a) && (Fresh(plan, d, a) || RollbackReady(plan, d, a))
  }

  /** What the checks before the lock decide for the three kinds of invocation. */
  lemma BeforeTheLock(plan: Plan, d: Disk, a: Attempt)
    requires Safe(plan, d)
    ensures d.rolledBack.Some? ==> d.rolledBack.value.binding.operationId == plan.operationId
    ensures d.pending.None? && d.receipt.Some? && d.rolledBack.None? ==> AllNew(plan, d)
    ensures Rerun(plan, d, a) && Unhindered(a) ==>
              && Free(d.pending, plan.operationId)
              && (d.receipt.Some? ==> ValidSaved(plan, d, a.entry))
              && (d.receipt.None? && d.rolledBack.None? ==> Admitted(plan, d, a))
    ensures RollbackReady(plan, d, a) && Unhindered(a) ==>
              && Admitted(plan, d, a) && Free(d.pending, plan.operationId) && Succeeds(a) && Starts(d, a)
              && (Authorized(plan, d, a) <==> !Stranded(d))
    ensures Fresh(plan, d, a) && Unhindered(a) ==>
              && Admitted(plan, d, a) && Free(d.pending, plan.operationId) && Succeeds(a) && Starts(d, a)
              && Authorized(plan, d, a) && Free(d.apply.approval, a.envelope)
    ensures Stranded(d) ==> d.receipt.Some?
    ensures Settles(plan, d, a) ==> Admitted(plan, d, a)
  {
  }

  /** The terminal was published but PENDING was left behind. */
  method CleanUp(m: Machine<Disk>, plan: Plan, a: Attempt) returns (r: Status)
    requires Safe(plan, m.disk) && m.disk.rolledBack.Some? && m.disk.pending == Some(plan.operationId)
    modifies m
    ensures Safe(plan, m.disk) && AllOld(plan, old(m.disk))
    ensures m.disk == if r.Ok? then old(m.disk).(pending := None) else old(m.disk)
    ensures r.Refused? <==> !(a.lock && a.live)
    ensures r.PowerLost? ==> old(m.power) == 0
    ensures m.disk != old(m.disk) ==> a.lock && a.live
  {
    r := Ok;
    :- Need(a.lock && m.disk.core == plan.oldMain && m.disk.unit == plan.oldUnit && a.live);
    r := FinishPending(m, plan.operationId);
  }

  /** Why an invocation may change the disk, in its envelope, its clocks and the outside
      outcomes themselves: a first apply and every rollback run under an authentic
      envelope of four hours at most, current wherever the clock is read; a re-run
      repeats the recorded envelope, and after expiry only goes back. */
  predicate Warranted(plan: Plan, d: Disk, a: Attempt) {
    var e := a.envelope;
    && a.evidence && a.lock
    && (d.rolledBack.Some? ==> a.live)
    && (d.rolledBack.None? && a.rollback ==>
          && d.receipt.Some? && e.genuine && e.undoes == d.receipt && 0 < e.expiresAt - e.issuedAt <= 14400000
          && e.issuedAt <= a.entry + 30000 && a.entry <= e.expiresAt
          && e.issuedAt <= a.publishing + 30000 && a.publishing <= e.expiresAt
          && (d.rollback.intent.None? ==> e.issuedAt <= a.inLock <= e.expiresAt)
          && (d.rollback.intent.Some? ==>
                e == d.rollback.intent.value.envelope && d.rollback.intent.value.authorizedAt <= a.inLock + 30000)
          && a.identity && a.live && a.timers)
    && (d.rolledBack.None? && !a.rollback && d.receipt.Some? ==> a.live && a.timers)
    && (d.rolledBack.None? && !a.rollback && d.apply.intent.None? ==>
          && e.genuine && e.undoes.None? && 0 < e.expiresAt - e.issuedAt <= 14400000
          && e.issuedAt <= a.entry <= e.expiresAt && e.issuedAt <= a.inLock <= e.expiresAt
          && e.issuedAt <= a.publishing <= e.expiresAt
          && a.identity && a.live && a.timers && a.serving)
    && (d.rolledBack.None? && !a.rollback && d.apply.intent.Some? && d.receipt.None? ==>
          && e == d.apply.intent.value.envelope && d.apply.intent.value.authorizedAt <= a.entry + 30000
          && d.apply.intent.value.authorizedAt <= a.inLock + 30000 && a.identity
          && (a.inLock <= e.expiresAt ==>
                a.live && a.timers && a.serving && e.issuedAt <= a.publishing <= e.expiresAt))
  }

  lemma ChecksAreWarrant(plan: Plan, d: Disk, a: Attempt)
    requires Safe(plan, d) && a.evidence && a.lock && d.rolledBack.None?
    requires Admitted(plan, d, a) && Locks(plan, d, a)
    ensures Warranted(plan, d, a)
  {
  }

  /** The invocations whose end is decided before they begin. */
  predicate Decided(plan: Plan, d: Disk, a: Attempt, power: nat, r: Status, decision: Decision, after: Disk) {
    && (Rerun(plan, d, a) && Unhindered(a) && power >= 17 ==> Completes(plan, d, a, after))
    && (RollbackReady(plan, d, a) && Unhindered(a) && power >= 17 ==>
          if Stranded(d) then r.Refused? && after == d else r.Ok? && decision == RolledBack)
    && (Fresh(plan, d, a) && Unhindered(a) && power >= 17 ==>
          && r.Ok? && decision == Accepted && AllNew(plan, after) && after.pending.None?
          && after.apply.intent == Some(Binding(plan.operationId, a.envelope, a.inLock))
          && after.receipt == Some(Receipt(plan.operationId, a.envelope, a.accepting)))
    && (CutAtFirstIntent(plan, d, a) && power == 4 ==> r.PowerLost? && after == FirstIntent(plan, d, a))
    && (Settles(plan, d, a) && power >= 2 ==> r.Ok? && decision == Reconciled)
    && (Stranded(d) ==> after == d && (a.rollback ==> r.Refused?))
  }

  /** The invocation goes on to the lock. */
  method Enter(m: Machine<Disk>, plan: Plan, a: Attempt) returns (r: Status, decision: Decision)
    requires Safe(plan, m.disk) && m.disk.rolledBack.None? && (Stranded(m.disk) ==> a.rollback)
    modifies m
    ensures Safe(plan, m.disk) && Advances(old(m.disk), m.disk, Direction(a))
    ensures r.PowerLost? ==> old(m.power) < 17
    ensures r.Ok? ==> Delivers(plan, old(m.disk), a, decision, m.disk)
    ensures r.Ok? ==> a.lock && Vouches(plan, old(m.disk), a, decision)
    ensures a.evidence && m.disk != old(m.disk) ==> Warranted(plan, old(m.disk), a)
    ensures Decided(plan, old(m.disk), a, old(m.power), r, decision, m.disk)
  {
    decision := Undecided;
    BeforeTheLock(plan, m.disk, a);
    if a.evidence && a.lock && Admitted(plan, m.disk, a) && Locks(plan, m.disk, a) {
      ChecksAreWarrant(plan, m.disk, a);
    }
    hide Safe;
    hide Authorized;
    hide Finished;
    hide Undone;
    hide Completes;
    hide Warranted;
    hide Locks;
    hide Admitted;
    hide Vouches;
    hide ValidSaved;
    :- Need(Admitted(plan, m.disk, a));
    :- Need(a.lock);
    r, decision := Locked(m, plan, a);
  }

  /** The operation has already ended in a rollback. */
  method Report(m: Machine<Disk>, plan: Plan, a: Attempt) returns (r: Status, decision: Decision)
    requires Safe(plan, m.disk) && m.disk.rolledBack.Some?
    modifies m
    ensures Safe(plan, m.disk) && Advances(old(m.disk), m.disk, Direction(a))
    ensures r.PowerLost? ==> old(m.power) < 17
    ensures r.Ok? ==> Delivers(plan, old(m.disk), a, decision, m.disk)
    ensures r.Ok? ==> Vouches(plan, old(m.disk), a, decision)
    ensures a.evidence && m.disk != old(m.disk) ==> Warranted(plan, old(m.disk), a)
    ensures Decided(plan, old(m.disk), a, old(m.power), r, decision, m.disk)
  {
    decision := AlreadyRolledBack;
    BeforeTheLock(plan, m.disk, a);
    hide Safe;
    hide Authorized;
    if m.disk.pending == Some(plan.operationId) {
      r := CleanUp(m, plan, a);
      decision := RollbackCleanup;
    } else {
      r := Ok;
    }
  }

  /** `activate`: one invocation, from the disk alone. An undisturbed re-run completes,
      a ready rollback goes through exactly when the host is not stranded, and a
      stranded host is never changed again. */
  method Activate(m: Machine<Disk>, plan: Plan, a: Attempt) returns (r: Status, decision: Decision)
    requires Safe(plan, m.disk)
    modifies m
    ensures Safe(plan, m.disk) && Advances(old(m.disk), m.disk, Direction(a))
    ensures r.PowerLost? ==> old(m.power) < 17
    ensures r.Ok? ==> Delivers(plan, old(m.disk), a, decision, m.disk)
    ensures r.Ok? ==> a.evidence && Vouches(plan, old(m.disk), a, decision)
    ensures (r.Ok? || m.disk != old(m.disk)) && old(m.disk).receipt.Some? ==>
              && old(m.disk).receipt.value.Receipt? && old(m.disk).receipt.value.acceptedAt <= a.entry + 30000
              && (old(m.disk).pending == Some(plan.operationId) ==> a.identity)
    ensures m.disk != old(m.disk) ==> Warranted(plan, old(m.disk), a)
    ensures Decided(plan, old(m.disk), a, old(m.power), r, decision, m.disk)
  {
    decision := Undecided;
    BeforeTheLock(plan, m.disk, a);
    hide Safe;
    hide Authorized;
    hide Finished;
    hide Undone;
    hide Warranted;
    hide Vouches;
    :- Need(a.evidence
            && (m.disk.rolledBack.Some? ==> m.disk.rolledBack.value.binding.operationId == plan.operationId));
    var forward := m.disk.receipt.Some?;
    var ownPending := m.disk.pending == Some(plan.operationId);
    if forward {
      :- Need(ValidSaved(plan, m.disk, a.entry) && (ownPending ==> a.identity));
    }
    if m.disk.rolledBack.Some? {
      r, decision := Report(m, plan, a);
      return;
    }
    if forward && !a.rollback && !ownPending {
      return Ok, AlreadyApplied;
    }
    r, decision := Enter(m, plan, a);
  }

  /** One invocation of the operator, and how many durable writes it may make. */
  datatype Invocation = Invocation(attempt: Attempt, power: nat)

  /** Every intent on disk was signed: an apply's by a forward approval, a rollback's by
      one that names the accepted receipt, each within a window of four hours at most;
      and an acceptance fell into the window of the apply it accepts. */
  predicate Signed(d: Disk) {
    && (d.apply.intent.Some? ==>
          && var b := d.apply.intent.value;
          && b.envelope.genuine && b.envelope.undoes.None? && b.envelope.expiresAt - b.envelope.issuedAt <= 14400000
          && b.envelope.issuedAt <= b.authorizedAt <= b.envelope.expiresAt)
    && (d.rollback.intent.Some? ==>
          && var b := d.rollback.intent.value;
          && d.receipt.Some? && b.envelope.genuine && b.envelope.undoes == d.receipt
          && b.envelope.expiresAt - b.envelope.issuedAt <= 14400000
          && b.envelope.issuedAt <= b.authorizedAt <= b.envelope.expiresAt)
    && (d.receipt.Some? ==>
          && d.apply.intent.Some? && d.receipt.value.Receipt?
          && d.receipt.value.envelope == d.apply.intent.value.envelope
          && d.receipt.value.envelope.issuedAt <= d.receipt.value.acceptedAt <= d.receipt.value.envelope.expiresAt)
  }

  /** The promise to whoever looks at the host: a side that is out of place is
      explained by PENDING and by the signed intent of the direction in progress. */
  predicate Consistent(plan: Plan, d: Disk) {
    && (d.pending.None? ==> AllOld(plan, d) || AllNew(plan, d))
    && (AllOld(plan, d) || AllNew(plan, d) || d.pending == Some(plan.operationId))
    && (d.receipt.None? && d.core != plan.oldMain ==> d.apply.main.intent.Some?)
    && (d.receipt.None? && d.unit != plan.oldUnit ==> d.apply.unit.intent.Some?)
    && (d.receipt.Some? && d.core != plan.newMain ==> d.rollback.main.intent.Some?)
    && (d.receipt.Some? && d.unit != plan.newUnit ==> d.rollback.unit.intent.Some?)
    && Precedes(d.apply.unit, d.apply.main) && Precedes(d.rollback.unit, d.rollback.main)
    && UnderIntent(d.apply) && UnderIntent(d.rollback) && Signed(d)
    && (d.rolledBack.Some? ==> AllOld(plan, d))
    && (d.pointer != plan.previous ==> d.receipt.Some? && d.pointer == Some(Pointer(plan.operationId, d.receipt.value)))
  }

  /** Any sequence of apply and rollback invocations, each cut after any durable
      write, leaves a consistent host. */
  method Operate(m: Machine<Disk>, plan: Plan, script: seq<Invocation>)
    requires WellPlanned(plan) && Untouched(plan, m.disk)
    modifies m
    ensures Consistent(plan, m.disk)
  {
    for i := 0 to |script|
      invariant Safe(plan, m.disk)
    {
      m.power := script[i].power;
      var _, _ := Activate(m, plan, script[i].attempt);
    }
  }

  /** A signed rollback of what `forward` will have accepted, asked for afterwards. */
  predicate Answers(plan: Plan, forward: Attempt, back: Attempt) {
    var e := back.envelope;
    && back.rollback && e.genuine && e.undoes == Some(Receipt(plan.operationId, forward.envelope, forward.accepting))
    && 0 < e.expiresAt - e.issuedAt <= 14400000
    && e.issuedAt <= back.inLock && e.issuedAt <= back.entry + 30000
    && forward.accepting <= back.entry && back.publishing <= e.expiresAt
  }

  /** A first apply and then its signed rollback put the unit, the symlink and the
      pointer back where they were. */
  method ForthAndBack(m: Machine<Disk>, plan: Plan, forward: Attempt, back: Attempt) returns (r: Status)
    requires WellPlanned(plan) && Fresh(plan, m.disk, forward) && Unhindered(forward)
    requires Unhindered(back) && Answers(plan, forward, back)
    modifies m
    ensures r.Ok? && AllOld(plan, m.disk) && m.disk.pending.None? && m.disk.rolledBack.Some?
  {
    m.power := 17;
    var decision;
    r, decision := Activate(m, plan, forward);
    assert RollbackReady(plan, m.disk, back) && !Stranded(m.disk);
    m.power := 17;
    r, decision := Activate(m, plan, back);
  }

  /** Once stranded, always stranded: no sequence of invocations changes the host, and
      every rollback is refused. */
  method StayStranded(m: Machine<Disk>, plan: Plan, script: seq<Invocation>, last: Attempt) returns (r: Status)
    requires Safe(plan, m.disk) && Stranded(m.disk)
    modifies m
    ensures m.disk == old(m.disk) && (last.rollback ==> r.Refused?)
  {
    var decision;
    for i := 0 to |script|
      invariant m.disk == old(m.disk)
    {
      m.power := script[i].power;
      r, decision := Activate(m, plan, script[i].attempt);
    }
    r, decision := Activate(m, plan, last);
  }

  /** Stranding is reachable: a rollback cut after its fourth write, then an ordinary
      apply invocation, which finds both effects in place and clears PENDING. */
  method StrandRollback(m: Machine<Disk>, plan: Plan, forward: Attempt, back: Attempt, again: Attempt)
    requires WellPlanned(plan) && Fresh(plan, m.disk, forward) && Unhindered(forward)
    requires Unhindered(back) && Answers(plan, forward, back)
    requires Unhindered(again) && !again.rollback && forward.accepting <= again.entry
    modifies m
    ensures Safe(plan, m.disk) && AllNew(plan, m.disk) && Stranded(m.disk) && RollbackReady(plan, m.disk, back)
  {
    m.power := 17;
    var _, _ := Activate(m, plan, forward);
    assert RollbackReady(plan, m.disk, back) && Opening(plan, m.disk, back);
    m.power := 4;
    var _, _ := Activate(m, plan, back);
    assert Settles(plan, m.disk, again);
    m.power := 2;
    var _, _ := Activate(m, plan, again);
  }

  /** The one re-run that leaves PENDING behind is reachable: a first apply cut after
      its fourth write, then a re-run whose approval expires between its two checks. */
  method LeavePending(m: Machine<Disk>, plan: Plan, forward: Attempt, again: Attempt) returns (r: Status)
    requires WellPlanned(plan) && Fresh(plan, m.disk, forward) && Unhindered(forward)
    requires Unhindered(again) && !again.rollback && again.envelope == forward.envelope
    requires forward.accepting <= again.entry && again.inLock <= again.envelope.expiresAt < again.publishing
    modifies m
    ensures m.disk.pending == Some(plan.operationId) && m.disk == FirstIntent(plan, old(m.disk), forward)
  {
    m.power := 4;
    var decision;
    assert Opening(plan, m.disk, forward);
    r, decision := Activate(m, plan, forward);
    assert Rerun(plan, m.disk, again) && ExpiresBetweenChecks(m.disk, again);
    m.power := 17;
    r, decision := Activate(m, plan, again);
  }
}
