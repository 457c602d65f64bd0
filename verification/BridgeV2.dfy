/** The V2 exact-target bridge: `bridge_activate` and `bridge_rollback` of
    `control_handoff.py`. Publishing the accepted-handoff pointer is the commit
    point; before it a failure undoes, after it only a signed rollback may. */
module BridgeV2 {
  import opened Power
  import opened Host

  /** One invocation: the operator's permit, the clock where it is read, and the
      outcome of every check and command outside the handoff's own files. */
  datatype Attempt = Attempt(
    permit: Envelope, first: int, authorizing: int, second: int, third: int, accepting: int,
    evidence: bool, lock: bool, live: bool, timers: bool,
    reload: bool, stable: bool, terminal: bool, undoReload: bool, undoStable: bool)

  datatype Decision = Undecided | Cleanup | Reconciled | Accepted | RolledBackExpired | RolledBackSigned

  /** `exact_target_permit` and its rollback twin, over the permit's own bytes. */
  predicate Valid(e: Envelope, undoes: Option<Receipt>, now: int, allowExpired: bool) {
    && e.genuine && e.undoes == undoes
    && e.issuedAt <= now && (allowExpired || now <= e.expiresAt)
    && e.expiresAt - e.issuedAt <= LONGEST
  }

  function Own(plan: Plan, receipt: Receipt): Option<Pointer> {
    Some(Pointer(plan.operationId, receipt))
  }

  /** The accepted-handoff record names this operation: the handoff is committed. */
  predicate Committed(plan: Plan, d: Disk) {
    d.prepared.Some? && d.pointer == Own(plan, d.prepared.value)
  }

  /** Forward the unit moves first, and it comes back last. */
  function First(action: Action): Side {
    if action == Apply then Unit else Main
  }

  predicate Recorded(plan: Plan, d: Disk) {
    && Bound(plan, d.apply) && Bound(plan, d.rollback)
    && InOrder(d, Apply, First(Apply)) && InOrder(d, Rollback, First(Rollback))
    && (d.apply.intent.Some? ==>
          && d.apply.intent.value.envelope.genuine && d.apply.intent.value.envelope.undoes.None?
          && d.apply.intent.value.envelope.expiresAt - d.apply.intent.value.envelope.issuedAt <= LONGEST)
    && (d.prepared.Some? ==>
          && d.prepared.value.BridgeReceipt?
          && d.apply.intent == Some(d.prepared.value.binding))
    && (HasPhaseIntent(d.apply) ==> d.prepared.Some?)
    && (d.receipt.Some? ==> d.prepared == d.receipt)
    && (d.rollback.intent.Some? ==>
          && d.receipt.Some?
          && d.rollback.intent.value.envelope.genuine
          && d.rollback.intent.value.envelope.undoes == d.receipt
          && d.rollback.intent.value.envelope.expiresAt - d.rollback.intent.value.envelope.issuedAt <= LONGEST)
    && (d.rolledBack.Some? ==>
          && d.rolledBack.value.binding.operationId == plan.operationId
          && if d.receipt.Some? then
               && d.rolledBack.value.reason == SignedRollback
               && d.rollback.intent == Some(d.rolledBack.value.binding)
             else
               d.rolledBack.value.reason != SignedRollback)
  }

  /** What holds of the disk however often the bridge is invoked and cut. */
  predicate Safe(plan: Plan, d: Disk) {
    && WellPlanned(plan)
    && Recorded(plan, d)
    && (d.core == plan.oldMain || d.core == plan.newMain)
    && (d.unit == plan.oldUnit || d.unit == plan.newUnit)
    && (d.pointer == plan.previous || Committed(plan, d))
    && (d.receipt.None? ==>
          && (Committed(plan, d) ==> d.core == plan.newMain && d.unit == plan.newUnit && d.apply.intent.Some?)
          && (d.core != plan.oldMain ==> d.apply.main.intent.Some?)
          && (d.unit != plan.oldUnit ==> d.apply.unit.intent.Some?))
    && (d.receipt.Some? ==>
          && (d.core != plan.newMain ==> d.rollback.main.intent.Some?)
          && (d.unit != plan.newUnit ==> d.rollback.unit.intent.Some?)
          && (d.pointer == plan.previous ==> AllOld(plan, d) && d.rollback.intent.Some?))
    && (d.rolledBack.Some? ==> AllOld(plan, d))
    && (d.pending.None? ==> if d.receipt.Some? && d.rolledBack.None? then AllNew(plan, d) else AllOld(plan, d))
    && (d.pending != Some(plan.operationId) && d.receipt.None? && d.rolledBack.None? ==>
          AllOld(plan, d) && d.prepared.None?)
    && (d.pending.Some? && d.pending.value != plan.operationId ==>
          AllOld(plan, d) && d.prepared.None? && d.receipt.None?)
  }

  predicate Armed(plan: Plan, d: Disk, action: Action, binding: Binding) {
    && Safe(plan, d)
    && d.pending == Some(plan.operationId)
    && TrailOf(d, action).intent == Some(binding)
    && d.rolledBack.None?
    && (action == Apply ==> d.receipt.None? && d.prepared.Some? && d.pointer == plan.previous)
    && (action == Rollback ==> d.receipt.Some?)
  }

  lemma IntendedKeepsArmed(plan: Plan, d: Disk, action: Action, side: Side, binding: Binding)
    requires Armed(plan, d, action, binding) && MayBegin(d, action, First(action), side)
    ensures Armed(plan, Intended(d, action, side, binding), action, binding)
    ensures Advances(d, Intended(d, action, side, binding), action)
  {
  }

  lemma ReceiptedKeepsArmed(plan: Plan, d: Disk, action: Action, side: Side, binding: Binding)
    requires Armed(plan, d, action, binding) && PhaseOf(d, action, side).intent.Some?
    ensures Armed(plan, Receipted(d, action, side, binding), action, binding)
    ensures Advances(d, Receipted(d, action, side, binding), action)
  {
  }

  lemma MovedKeepsArmed(plan: Plan, d: Disk, action: Action, side: Side, binding: Binding)
    requires Armed(plan, d, action, binding)
    requires PhaseOf(d, action, side).intent.Some?
    requires action == Rollback && d.pointer == plan.previous ==> Current(d, side) == Old(plan, side)
    ensures Armed(plan, Moved(d, side, After(plan, action, side)), action, binding)
    ensures Advances(d, Moved(d, side, After(plan, action, side)), action)
  {
  }

  lemma PhaseKeepsArmed(plan: Plan, d: Disk, action: Action, side: Side, binding: Binding, n: nat)
    requires Armed(plan, d, action, binding) && MayBegin(d, action, First(action), side)
    ensures Armed(plan, PhaseDisk(d, action, side, binding, After(plan, action, side), n), action, binding)
    ensures Advances(d, PhaseDisk(d, action, side, binding, After(plan, action, side), n), action)
    ensures Free(PhaseOf(d, action, side).intent, binding) && Free(PhaseOf(d, action, side).receipt, binding)
    ensures PhaseMay(d, action, side, Before(plan, action, side), After(plan, action, side))
  {
    var d1 := Intended(d, action, side, binding);
    var d2 := Moved(d1, side, After(plan, action, side));
    IntendedKeepsArmed(plan, d, action, side, binding);
    MovedKeepsArmed(plan, d1, action, side, binding);
    ReceiptedKeepsArmed(plan, d2, action, side, binding);
  }

  method RunPhase(m: Machine<Disk>, plan: Plan, action: Action, side: Side, binding: Binding)
    returns (r: Status, ghost writes: nat)
    requires Armed(plan, m.disk, action, binding) && MayBegin(m.disk, action, First(action), side)
    modifies m
    ensures Armed(plan, m.disk, action, binding) && Advances(old(m.disk), m.disk, action)
    ensures writes <= 3 && m.disk == PhaseDisk(old(m.disk), action, side, binding, After(plan, action, side), writes)
    ensures !r.Refused? && (r.Ok? ==> writes == 3)
    ensures (&& Current(old(m.disk), side) == Before(plan, action, side) != After(plan, action, side)
             && PhaseOf(old(m.disk), action, side) == Phase(None, None)) ==>
              writes == if old(m.power) < 3 then old(m.power) else 3
    ensures r.PowerLost? ==> old(m.power) < 3
    ensures old(m.power) - 3 <= m.power <= old(m.power)
  {
    PhaseKeepsArmed(plan, m.disk, action, side, binding, 0);
    r, writes := PhaseEffect(m, action, side, binding, Before(plan, action, side), After(plan, action, side));
    PhaseKeepsArmed(plan, old(m.disk), action, side, binding, writes);
  }

  /** The guarded body may start: nothing is committed yet. */
  predicate Ready(plan: Plan, d: Disk, binding: Binding) {
    && Safe(plan, d)
    && d.pending == Some(plan.operationId)
    && d.apply.intent == Some(binding)
    && d.rolledBack.None? && d.receipt.None? && d.pointer == plan.previous
  }

  /** The record frozen before the first effect: the one on disk, or a new one. */
  function Frozen(d: Disk, binding: Binding, now: int): Receipt {
    if d.prepared.Some? then d.prepared.value else BridgeReceipt(binding, now)
  }

  predicate Accepted(plan: Plan, d: Disk) {
    d.pending.None? && AllNew(plan, d) && d.prepared == d.receipt && d.rolledBack.None?
  }

  method RunForward(m: Machine<Disk>, plan: Plan, a: Attempt, binding: Binding) returns (r: Status)
    requires Armed(plan, m.disk, Apply, binding)
    modifies m
    ensures Armed(plan, m.disk, Apply, binding) && Advances(old(m.disk), m.disk, Apply)
    ensures r.Ok? ==> m.disk.core == plan.newMain && m.disk.unit == plan.newUnit
    ensures r.Ok? ==> a.reload && a.stable && a.timers
    ensures r.Refused? ==> !(a.reload && a.stable && a.timers)
    ensures r.PowerLost? ==> old(m.power) < 6
    ensures old(m.power) - 6 <= m.power <= old(m.power)
  {
    ghost var writes;
    r, writes := RunPhase(m, plan, Apply, Unit, binding);
    if !r.Ok? {
      return;
    }
    r, writes := RunPhase(m, plan, Apply, Main, binding);
    if !r.Ok? {
      return;
    }
    :- Need(a.reload && a.stable);
    r := Need(a.timers);
  }

  /** The guarded body: freeze the receipt, run both phases, publish the pointer,
      and only then the receipt. */
  method TryCommit(m: Machine<Disk>, plan: Plan, a: Attempt, binding: Binding) returns (r: Status)
    requires Ready(plan, m.disk, binding)
    modifies m
    ensures Safe(plan, m.disk) && Advances(old(m.disk), m.disk, Apply)
    ensures m.disk.prepared == Some(Frozen(old(m.disk), binding, a.accepting)) || m.disk == old(m.disk)
    ensures r.Ok? ==> a.reload && a.stable && a.timers
    ensures r.Ok? ==>
              a.terminal && Accepted(plan, m.disk) && m.disk.receipt == Some(Frozen(old(m.disk), binding, a.accepting))
    ensures r.Refused? ==> m.disk.pending == old(m.disk).pending && m.disk.receipt.None?
    ensures r.Refused? ==> if Committed(plan, m.disk) then !a.terminal
                           else !(a.reload && a.stable && a.timers) && Armed(plan, m.disk, Apply, binding)
    ensures !r.PowerLost? ==> m.disk.prepared == Some(Frozen(old(m.disk), binding, a.accepting))
    ensures r.PowerLost? ==> old(m.power) < 10
    ensures old(m.power) - 10 <= m.power <= old(m.power)
  {
    var receipt := Frozen(m.disk, binding, a.accepting);
    :- PublishPrepared(m, receipt);
    :- RunForward(m, plan, a, binding);
    r := Commit(m, plan, a, receipt);
  }

  /** The accepted pointer first, then receipt.json, then PENDING. */
  method Commit(m: Machine<Disk>, plan: Plan, a: Attempt, receipt: Receipt) returns (r: Status)
    requires Safe(plan, m.disk) && m.disk.pending == Some(plan.operationId)
    requires m.disk.prepared == Some(receipt) && m.disk.receipt.None? && m.disk.rolledBack.None?
    requires m.disk.core == plan.newMain && m.disk.unit == plan.newUnit
    modifies m
    ensures Safe(plan, m.disk) && Advances(old(m.disk), m.disk, Apply)
    ensures m.disk == old(m.disk).(pointer := m.disk.pointer, receipt := m.disk.receipt, pending := m.disk.pending)
    ensures m.disk.receipt.Some? ==> Committed(plan, m.disk)
    ensures r.Refused? ==> !a.terminal && Committed(plan, m.disk) && m.disk == old(m.disk).(pointer := m.disk.pointer)
    ensures r.Ok? ==> a.terminal && Accepted(plan, m.disk)
    ensures r.PowerLost? ==> old(m.power) < 3
    ensures old(m.power) - 3 <= m.power <= old(m.power)
  {
    assert m.disk.pointer == plan.previous || m.disk.pointer == Own(plan, receipt);
    :- SetPointer(m, Pointer(plan.operationId, receipt));
    :- Need(a.terminal);
    :- PublishReceipt(m, receipt);
    r := FinishPending(m, plan.operationId);
  }

  /** An apply that ended undone before the commit. */
  predicate Undone(plan: Plan, d: Disk, binding: Binding, reason: Reason) {
    d.pending.None? && AllOld(plan, d) && d.receipt.None? && d.rolledBack == Some(Terminal(binding, reason))
  }

  method Terminate(m: Machine<Disk>, plan: Plan, binding: Binding, reason: Reason) returns (r: Status)
    requires Safe(plan, m.disk) && m.disk.receipt.None? && m.disk.rolledBack.None?
    requires m.disk.apply.intent == Some(binding) && reason != SignedRollback
    requires AllOld(plan, m.disk) && !Committed(plan, m.disk)
    modifies m
    ensures Safe(plan, m.disk) && Advances(old(m.disk), m.disk, Apply)
    ensures r.Refused? ==> !Free(old(m.disk).pending, plan.operationId)
    ensures m.disk == old(m.disk).(rolledBack := m.disk.rolledBack, pending := m.disk.pending)
    ensures r.Ok? ==> Undone(plan, m.disk, binding, reason)
    ensures r.PowerLost? ==> old(m.power) < 2
    ensures old(m.power) - 2 <= m.power <= old(m.power)
  {
    r := Ok;
    :- PublishRolledBack(m, Terminal(binding, reason));
    r := FinishPending(m, plan.operationId);
  }

  method MoveBack(m: Machine<Disk>, plan: Plan) returns (r: Status)
    requires Safe(plan, m.disk)
    requires m.disk.receipt.None? && m.disk.rolledBack.None? && !Committed(plan, m.disk)
    modifies m
    ensures Safe(plan, m.disk) && !Committed(plan, m.disk)
    ensures m.disk == old(m.disk).(core := m.disk.core, unit := m.disk.unit)
    ensures !r.Refused? && (r.Ok? ==> m.disk.core == plan.oldMain && m.disk.unit == plan.oldUnit)
    ensures r.PowerLost? ==> old(m.power) < 2
    ensures old(m.power) - 2 <= m.power <= old(m.power)
  {
    if m.disk.core == plan.newMain {
      :- Switch(m, Main, plan.newMain, plan.oldMain);
    }
    if m.disk.unit == plan.newUnit {
      :- Switch(m, Unit, plan.newUnit, plan.oldUnit);
    }
    r := Ok;
  }

  /** The exception handler before the commit. Every moved side has its intent,
      so undoing the announced effects undoes all of them. */
  method Undo(m: Machine<Disk>, plan: Plan, a: Attempt, binding: Binding) returns (r: Status)
    requires Armed(plan, m.disk, Apply, binding)
    modifies m
    ensures Safe(plan, m.disk) && Advances(old(m.disk), m.disk, Apply)
    ensures r.Ok? ==> a.undoReload && Undone(plan, m.disk, binding, PostcheckFailed)
    ensures r.Refused? ==> !a.undoReload && m.disk.rolledBack.None? && m.disk.pending == old(m.disk).pending
    ensures r.PowerLost? ==> old(m.power) < 5
  {
    assert m.disk.core == plan.newMain ==> m.disk.apply.main.intent.Some?;
    assert m.disk.unit == plan.newUnit ==> m.disk.apply.unit.intent.Some? || plan.newUnit == plan.oldUnit;
    :- MoveBack(m, plan);
    :- Need(a.undoReload);
    :- RestorePointer(m, plan);
    r := Terminate(m, plan, binding, PostcheckFailed);
  }

  /** The permit expired before acceptance: move back, then record why. */
  method UndoExpired(m: Machine<Disk>, plan: Plan, a: Attempt, binding: Binding) returns (r: Status)
    requires Safe(plan, m.disk) && m.disk.apply.intent == Some(binding)
    requires m.disk.receipt.None? && m.disk.rolledBack.None? && !Committed(plan, m.disk)
    modifies m
    ensures Safe(plan, m.disk) && Advances(old(m.disk), m.disk, Apply)
    ensures r.Ok? ==> Undone(plan, m.disk, binding, ExpiredBeforeAcceptance) && a.reload && a.undoStable
    ensures m.disk.prepared == old(m.disk).prepared && m.disk.pointer == old(m.disk).pointer
    ensures m.disk.apply == old(m.disk).apply
    ensures r.Refused? ==> !(a.reload && a.undoStable) || !Free(old(m.disk).pending, plan.operationId)
    ensures r.PowerLost? ==> old(m.power) < 5
  {
    r := Ok;
    :- MoveBack(m, plan);
    :- Need(a.reload);
    :- RestorePointer(m, plan);
    :- Need(a.undoStable && m.disk.core == plan.oldMain && m.disk.unit == plan.oldUnit);
    r := Terminate(m, plan, binding, ExpiredBeforeAcceptance);
  }

  /** A rollback terminal explains itself: the signed one undoes the receipt, the
      others precede it. Pointer and PENDING are cleaned up after it. */
  method CleanUp(m: Machine<Disk>, plan: Plan, a: Attempt) returns (r: Status)
    requires Safe(plan, m.disk) && m.disk.rolledBack.Some?
    modifies m
    ensures Safe(plan, m.disk)
    ensures m.disk == old(m.disk).(pending := m.disk.pending)
    ensures r.Ok? ==> m.disk.pending.None?
    ensures r.Ok? || m.disk != old(m.disk) ==> a.lock && a.live
    ensures r.Refused? ==> m.disk == old(m.disk) && (!(a.lock && a.live) || !Free(m.disk.pending, plan.operationId))
    ensures r.PowerLost? ==> old(m.power) < 2
  {
    r := Ok;
    :- Need(a.lock && a.live && m.disk.core == plan.oldMain && m.disk.unit == plan.oldUnit);
    :- RestorePointer(m, plan);
    r := FinishPending(m, plan.operationId);
  }

  /** The pointer is already published and only the receipt may be missing: the
      frozen bytes are published if they were accepted inside the permit window. */
  predicate Timely(d: Disk) {
    && d.prepared.Some? && d.prepared.value.BridgeReceipt?
    && var b := d.prepared.value.binding;
       b.envelope.issuedAt <= b.authorizedAt <= d.prepared.value.acceptedAt <= b.envelope.expiresAt
  }

  /** A signed forward permit that has begun; it may have expired. */
  ghost predicate StillSigned(e: Envelope, a: Attempt) {
    e.genuine && e.undoes.None? && e.issuedAt <= a.first && e.expiresAt - e.issuedAt <= 14400000
  }

  method PublishCommitted(m: Machine<Disk>, plan: Plan, a: Attempt) returns (r: Status)
    requires Safe(plan, m.disk) && Committed(plan, m.disk) && m.disk.receipt.None? && m.disk.rolledBack.None?
    modifies m
    ensures Safe(plan, m.disk) && Advances(old(m.disk), m.disk, Apply)
    ensures m.disk == old(m.disk).(receipt := m.disk.receipt, pending := m.disk.pending)
    ensures r.Ok? ==> Accepted(plan, m.disk)
    ensures m.disk != old(m.disk) ==> Timely(old(m.disk)) && StillSigned(old(m.disk).prepared.value.binding.envelope, a)
    ensures r.Refused? ==> m.disk == old(m.disk)
    ensures r.Refused? ==> !Timely(old(m.disk))
                           || !Valid(old(m.disk).apply.intent.value.envelope, None, a.first, true)
    ensures r.PowerLost? ==> old(m.power) < 2
  {
    var binding := m.disk.apply.intent.value;
    :- Need(Valid(binding.envelope, None, a.first, true));
    :- Need(Timely(m.disk));
    :- PublishReceipt(m, m.disk.prepared.value);
    r := FinishPending(m, plan.operationId);
  }

  /** The intent is published before anything moves, under an immutable permit. */
  predicate MayPublish(plan: Plan, d: Disk, a: Attempt) {
    && Free(d.apply.approval, a.permit)
    && (d.apply.intent.None? ==> Valid(a.permit, None, a.first, false))
  }

  /** What the publication of authority writes. */
  predicate Publishes(plan: Plan, d: Disk, a: Attempt, after: Disk) {
    && Free(d.apply.approval, a.permit)
    && (after == d.(apply := d.apply.(approval := Some(a.permit)))
        || (&& MayPublish(plan, d, a)
            && after == d.(apply := d.apply.(approval := Some(a.permit), intent := Some(BindingOf(plan, d, a))))))
  }

  method PublishAuthority(m: Machine<Disk>, plan: Plan, a: Attempt) returns (r: Status)
    requires Safe(plan, m.disk)
    requires m.disk.receipt.None? && m.disk.rolledBack.None? && !Committed(plan, m.disk)
    modifies m
    ensures Safe(plan, m.disk) && Advances(old(m.disk), m.disk, Apply)
    ensures m.disk == old(m.disk).(apply := m.disk.apply)
    ensures r.Ok? ==> m.disk.apply.intent.Some? && m.disk.apply.approval == Some(a.permit)
    ensures r.Ok? && old(m.disk).apply.intent.Some? ==> m.disk == old(m.disk)
    ensures r.Ok? ==> MayPublish(plan, old(m.disk), a)
    ensures r.Refused? ==> !MayPublish(plan, old(m.disk), a)
    ensures r.Ok? ==> m.disk.apply.intent == Some(BindingOf(plan, old(m.disk), a))
    ensures m.disk != old(m.disk) || r.Ok? ==> Publishes(plan, old(m.disk), a, m.disk)
    ensures r.PowerLost? ==> old(m.power) < 2
    ensures old(m.power) - 2 <= m.power <= old(m.power)
  {
    r := Ok;
    :- PublishApproval(m, Apply, a.permit);
    if m.disk.apply.intent.None? {
      :- Need(Valid(a.permit, None, a.first, false));
      :- PublishIntent(m, Apply, Binding(plan.operationId, a.permit, a.authorizing));
    }
    r := Ok;
  }

  /** Every outside check and command succeeds and nothing raises. */
  predicate Unhindered(a: Attempt) {
    && a.evidence && a.lock && a.live && a.timers && a.reload && a.stable && a.terminal
    && a.undoReload && a.undoStable
  }

  /** `a` runs again, under its own authentic permit, a bridge whose intent is on
      disk; the clock does not run back. */
  predicate Rerun(plan: Plan, d: Disk, a: Attempt) {
    && plan.oldUnit == plan.newUnit
    && d.apply.intent.Some? && d.rollback.intent.None? && d.apply.approval == Some(a.permit)
    && Free(d.pending, plan.operationId)
    && a.permit.issuedAt <= a.first <= a.second <= a.third
  }

  /** Before the commit an apply ends with its permit: undone once that has expired. */
  predicate Ends(plan: Plan, binding: Binding, a: Attempt, after: Disk) {
    if a.second > binding.envelope.expiresAt then Undone(plan, after, binding, ExpiredBeforeAcceptance)
    else Accepted(plan, after)
  }

  /** Where one uninterrupted re-run ends. A committed bridge whose frozen record
      was not accepted in time is the only one that cannot end. */
  predicate Completes(plan: Plan, d: Disk, a: Attempt, after: Disk) {
    if d.rolledBack.Some? then
      after == d.(pending := None)
    else if d.receipt.Some? then
      after == d.(pending := None) && AllNew(plan, after)
    else if Committed(plan, d) then
      if Timely(d) then Accepted(plan, after) && after.receipt == d.prepared else after == d
    else
      d.apply.intent.Some? && Ends(plan, d.apply.intent.value, a, after)
  }

  /** The permit still holds at the second check, and every command succeeds. */
  predicate Goes(d: Disk, binding: Binding, plan: Plan, a: Attempt) {
    && Valid(binding.envelope, None, a.second, false) && Free(d.pending, plan.operationId)
    && a.reload && a.stable && a.timers
  }

  /** Where an apply that goes ends: the record is frozen and the pointer published;
      it is accepted exactly if publication does not raise. */
  predicate Lands(plan: Plan, frozen: Receipt, a: Attempt, r: Status, after: Disk) {
    && after.prepared == Some(frozen)
    && if a.terminal then r.Ok? && Accepted(plan, after)
       else r.Refused? && Committed(plan, after) && after.receipt.None? && after.pending == Some(plan.operationId)
  }

  /** Which outside checks and commands a returning invocation saw succeed. */
  predicate Vouches(plan: Plan, a: Attempt, e: Envelope, decision: Decision) {
    match decision
    case Accepted => a.reload && a.stable && a.timers && a.terminal && e.issuedAt <= a.second <= e.expiresAt
    case RolledBackExpired => a.reload && a.undoStable && a.third > e.expiresAt
    case RolledBackSigned => a.reload && a.stable && a.timers
    case _ => true
  }

  /** What the attempt under a recorded authority leads to. */
  predicate Proceeds(plan: Plan, d: Disk, a: Attempt, binding: Binding, r: Status, decision: Decision, after: Disk) {
    && (r.Ok? ==>
          match decision
          case Accepted => Accepted(plan, after) && Valid(binding.envelope, None, a.second, false)
          case RolledBackExpired =>
            Undone(plan, after, binding, ExpiredBeforeAcceptance) && !Valid(binding.envelope, None, a.second, false)
          case _ => false)
    && (r.Ok? ==> Vouches(plan, a, binding.envelope, decision))
    && (d.prepared != after.prepared || d.apply != after.apply ==> Valid(binding.envelope, None, a.second, false))
    && (r.Refused? && Unhindered(a) && Free(d.pending, plan.operationId) ==>
          && !Valid(binding.envelope, None, a.second, false)
          && !(a.third > binding.envelope.expiresAt && Valid(binding.envelope, None, a.third, true)))
    && ((&& Unhindered(a) && Free(d.pending, plan.operationId) && Valid(binding.envelope, None, a.first, true)
         && a.first <= a.second <= a.third && !r.PowerLost?) ==> Ends(plan, binding, a, after))
    && (Goes(d, binding, plan, a) && !r.PowerLost? ==> Lands(plan, Frozen(d, binding, a.accepting), a, r, after))
  }

  /** Authority is on disk: either it has expired, and everything goes back, or
      the operation is marked pending and tries to commit. */
  method Proceed(m: Machine<Disk>, plan: Plan, a: Attempt, binding: Binding) returns (r: Status, decision: Decision)
    requires Safe(plan, m.disk) && m.disk.apply.intent == Some(binding)
    requires m.disk.receipt.None? && m.disk.rolledBack.None? && !Committed(plan, m.disk)
    modifies m
    ensures Safe(plan, m.disk) && Advances(old(m.disk), m.disk, Apply)
    ensures Proceeds(plan, old(m.disk), a, binding, r, decision, m.disk)
    ensures r.PowerLost? ==> old(m.power) < 17
  {
    hide Safe;
    hide Proceeds;
    if Valid(binding.envelope, None, a.second, false) {
      r := ProceedCurrent(m, plan, a, binding);
      decision := Decision.Accepted;
    } else {
      r := ProceedLate(m, plan, a, binding);
      decision := RolledBackExpired;
    }
  }

  method ProceedLate(m: Machine<Disk>, plan: Plan, a: Attempt, binding: Binding) returns (r: Status)
    requires Safe(plan, m.disk) && m.disk.apply.intent == Some(binding)
    requires m.disk.receipt.None? && m.disk.rolledBack.None? && !Committed(plan, m.disk)
    requires !Valid(binding.envelope, None, a.second, false)
    modifies m
    ensures Safe(plan, m.disk) && Advances(old(m.disk), m.disk, Apply)
    ensures Proceeds(plan, old(m.disk), a, binding, r, RolledBackExpired, m.disk)
    ensures r.PowerLost? ==> old(m.power) < 17
  {
    r := Ok;
    hide Safe;
    :- Need(a.third > binding.envelope.expiresAt && Valid(binding.envelope, None, a.third, true));
    r := UndoExpired(m, plan, a, binding);
  }

  method ProceedCurrent(m: Machine<Disk>, plan: Plan, a: Attempt, binding: Binding) returns (r: Status)
    requires Safe(plan, m.disk) && m.disk.apply.intent == Some(binding)
    requires m.disk.receipt.None? && m.disk.rolledBack.None? && !Committed(plan, m.disk)
    requires Valid(binding.envelope, None, a.second, false)
    modifies m
    ensures Safe(plan, m.disk) && Advances(old(m.disk), m.disk, Apply)
    ensures Proceeds(plan, old(m.disk), a, binding, r, Decision.Accepted, m.disk)
    ensures r.PowerLost? ==> old(m.power) < 17
  {
    r := Ok;
    :- PublishPending(m, plan.operationId);
    r := CommitOrUndo(m, plan, a, binding);
  }

  method CommitOrUndo(m: Machine<Disk>, plan: Plan, a: Attempt, binding: Binding) returns (r: Status)
    requires Ready(plan, m.disk, binding)
    modifies m
    ensures Safe(plan, m.disk) && Advances(old(m.disk), m.disk, Apply)
    ensures r.Ok? ==> Accepted(plan, m.disk) && a.reload && a.stable && a.timers && a.terminal
    ensures r.Refused? ==> !(a.reload && a.stable && a.timers && a.terminal)
    ensures r.Refused? && a.undoReload && !Committed(plan, m.disk) ==> Undone(plan, m.disk, binding, PostcheckFailed)
    ensures a.reload && a.stable && a.timers && !r.PowerLost? ==>
              Lands(plan, Frozen(old(m.disk), binding, a.accepting), a, r, m.disk)
    ensures r.PowerLost? ==> old(m.power) < 15
  {
    r := TryCommit(m, plan, a, binding);
    if r.Refused? && !(m.disk.prepared.Some? && m.disk.pointer == Own(plan, m.disk.prepared.value)) {
      var undone := Undo(m, plan, a, binding);
      r := if undone.PowerLost? then PowerLost else Refused;
    }
  }

  /** The authority an apply runs under: its own permit, or the recorded one. */
  function BindingOf(plan: Plan, d: Disk, a: Attempt): Binding {
    if d.apply.intent.Some? then d.apply.intent.value else Binding(plan.operationId, a.permit, a.authorizing)
  }

  /** What an apply may write before anything is committed. Only the permit's own copy is
      kept before it is checked; an intent needs a valid permit, a re-run repeats the
      recorded one, and a phase or a frozen record needs it unexpired once more. */
  predicate Starts(plan: Plan, d: Disk, a: Attempt, after: Disk) {
    && (after.apply.intent.None? ==> after == d.(apply := d.apply.(approval := Some(a.permit))))
    && (d.apply.intent.None? && after.apply.intent.Some? ==>
          && after.apply.intent == Some(Binding(plan.operationId, a.permit, a.authorizing))
          && a.permit.genuine && a.permit.undoes.None? && a.permit.expiresAt - a.permit.issuedAt <= 14400000
          && a.permit.issuedAt <= a.first <= a.permit.expiresAt)
    && (d.apply.intent.Some? ==> a.permit == d.apply.intent.value.envelope)
    && (after.prepared != d.prepared || after.apply.unit != d.apply.unit || after.apply.main != d.apply.main ==>
          a.permit.issuedAt <= a.second <= a.permit.expiresAt)
  }

  /** What an apply leads to once nothing is accepted or committed. */
  predicate Forwarded(plan: Plan, d: Disk, a: Attempt, r: Status, decision: Decision, after: Disk) {
    && (r.Ok? ==>
          match decision
          case Accepted => Accepted(plan, after)
          case RolledBackExpired =>
            after.apply.intent.Some? && Undone(plan, after, after.apply.intent.value, ExpiredBeforeAcceptance)
          case _ => false)
    && (r.Ok? ==> after.apply.intent.Some? && Vouches(plan, a, after.apply.intent.value.envelope, decision))
    && (after != d ==> Starts(plan, d, a, after))
    && (Rerun(plan, d, a) && Unhindered(a) && !r.PowerLost? ==> Ends(plan, d.apply.intent.value, a, after))
    && (MayPublish(plan, d, a) && Goes(d, BindingOf(plan, d, a), plan, a) && !r.PowerLost? ==>
          Lands(plan, Frozen(d, BindingOf(plan, d, a), a.accepting), a, r, after))
  }

  /** The records of an apply repeat its permit. */
  predicate Repeats(d: Disk) {
    d.apply.intent.Some? ==>
      && d.apply.approval == Some(d.apply.intent.value.envelope)
      && d.apply.intent.value.envelope.genuine && d.apply.intent.value.envelope.undoes.None?
      && d.apply.intent.value.envelope.expiresAt - d.apply.intent.value.envelope.issuedAt <= LONGEST
  }

  /** The locked body once nothing is accepted or committed. */
  method Forward(m: Machine<Disk>, plan: Plan, a: Attempt) returns (r: Status, decision: Decision)
    requires Safe(plan, m.disk)
    requires m.disk.receipt.None? && m.disk.rolledBack.None? && !Committed(plan, m.disk)
    modifies m
    ensures Safe(plan, m.disk) && Advances(old(m.disk), m.disk, Apply)
    ensures Forwarded(plan, old(m.disk), a, r, decision, m.disk)
    ensures r.PowerLost? ==> old(m.power) < 19
  {
    decision := Undecided;
    assert Repeats(m.disk);
    hide Safe;
    hide Proceeds;
    hide Forwarded;
    r := PublishAuthority(m, plan, a);
    if !r.Ok? {
      NotPublished(plan, old(m.disk), a, r, m.disk);
      return;
    }
    ghost var d := m.disk;
    r, decision := Proceed(m, plan, a, m.disk.apply.intent.value);
    PublishedProceeds(plan, old(m.disk), a, d, r, decision, m.disk);
  }

  lemma NotPublished(plan: Plan, d: Disk, a: Attempt, r: Status, after: Disk)
    requires Repeats(d) && (after == d || Publishes(plan, d, a, after))
    requires r.PowerLost? || (r.Refused? && !MayPublish(plan, d, a))
    ensures Forwarded(plan, d, a, r, Undecided, after)
  {
  }

  /** Authority first, and everything else under it. */
  lemma PublishedProceeds(plan: Plan, d0: Disk, a: Attempt, d: Disk, r: Status, decision: Decision, after: Disk)
    requires Repeats(d0) && Publishes(plan, d0, a, d) && d.apply.intent == Some(BindingOf(plan, d0, a))
    requires MayPublish(plan, d0, a) && after.apply.intent == d.apply.intent
    requires Proceeds(plan, d, a, d.apply.intent.value, r, decision, after)
    ensures Forwarded(plan, d0, a, r, decision, after)
  {
    hide Lands;
    hide Accepted;
    hide Undone;
  }

  /** The interrupted invocations have left something to reconcile, and the one
      running is allowed to look at it: the checks that precede any write. */
  predicate Observed(a: Attempt) {
    a.evidence && a.lock && a.live && a.timers
  }

  /** From the commit on, only a signed rollback moves the effects or ends the
      operation; a receipt that appears is the frozen one. */
  predicate CommitHolds(plan: Plan, d: Disk, after: Disk) {
    && (Committed(plan, d) ==>
          && after.core == d.core && after.unit == d.unit && after.pointer == d.pointer
          && after.rolledBack == d.rolledBack
          && (after.receipt == d.receipt || after.receipt == d.prepared))
    && (d.receipt.Some? || d.rolledBack.Some? ==> after == d.(pending := after.pending))
  }

  /** Committed without a receipt, and the frozen record is not timely. */
  predicate Overdue(plan: Plan, d: Disk) {
    Committed(plan, d) && d.receipt.None? && d.rolledBack.None? && !Timely(d)
  }

  /** A first apply on an untouched host, whose permit holds at both of its checks. */
  predicate FirstApply(plan: Plan, d: Disk, a: Attempt) {
    && WellPlanned(plan) && plan.oldUnit == plan.newUnit
    && AllOld(plan, d) && d.apply == BLANK && d.rollback == BLANK
    && d.prepared.None? && d.receipt.None? && d.rolledBack.None? && d.pending.None?
    && a.permit.genuine && a.permit.undoes.None? && a.permit.expiresAt - a.permit.issuedAt <= 14400000
    && a.permit.issuedAt <= a.first <= a.permit.expiresAt && a.permit.issuedAt <= a.second <= a.permit.expiresAt
    && a.evidence && a.lock && a.live && a.timers && a.reload && a.stable
  }

  /** An apply that finds the handoff accepted or committed only finishes its records. */
  method Reconcile(m: Machine<Disk>, plan: Plan, a: Attempt) returns (r: Status)
    requires Safe(plan, m.disk) && m.disk.rolledBack.None?
    requires m.disk.receipt.Some? || Committed(plan, m.disk)
    modifies m
    ensures Safe(plan, m.disk) && Advances(old(m.disk), m.disk, Apply)
    ensures m.disk == old(m.disk).(receipt := m.disk.receipt, pending := m.disk.pending)
    ensures CommitHolds(plan, old(m.disk), m.disk)
    ensures Overdue(plan, old(m.disk)) ==> m.disk == old(m.disk)
    ensures r.Ok? ==> Accepted(plan, m.disk) && Committed(plan, old(m.disk))
    ensures m.disk != old(m.disk) ==>
              if old(m.disk).receipt.Some? then old(m.disk).core == plan.newMain
              else Timely(old(m.disk)) && StillSigned(old(m.disk).prepared.value.binding.envelope, a)
    ensures Rerun(plan, old(m.disk), a) && !r.PowerLost? ==> Completes(plan, old(m.disk), a, m.disk)
    ensures r.PowerLost? ==> old(m.power) < 2
  {
    r := Ok;
    if m.disk.receipt.Some? {
      :- Need(m.disk.core == plan.newMain && m.disk.unit == plan.newUnit
              && m.disk.pointer == Own(plan, m.disk.receipt.value));
      r := FinishPending(m, plan.operationId);
    } else {
      r := PublishCommitted(m, plan, a);
    }
  }

  /** Why an apply may change the disk, in its permit, its clocks and the outside
      outcomes themselves. */
  ghost predicate Warranted(plan: Plan, d: Disk, a: Attempt, after: Disk) {
    && a.evidence && a.lock && a.live && plan.oldUnit == plan.newUnit
    && (d.rolledBack.None? ==> a.timers)
    && (d.rolledBack.None? && d.receipt.Some? ==> d.core == plan.newMain)
    && (d.rolledBack.None? && d.receipt.None? ==>
          if d.prepared.Some? && d.pointer == Some(Pointer(plan.operationId, d.prepared.value)) then
            && d.prepared.value.BridgeReceipt?
            && var b := d.prepared.value.binding;
            && b.envelope.issuedAt <= b.authorizedAt <= d.prepared.value.acceptedAt <= b.envelope.expiresAt
            && StillSigned(b.envelope, a)
          else
            Starts(plan, d, a, after))
  }

  /** `bridge_activate`. */
  method Activate(m: Machine<Disk>, plan: Plan, a: Attempt) returns (r: Status, decision: Decision)
    requires Safe(plan, m.disk)
    modifies m
    ensures Safe(plan, m.disk) && Advances(old(m.disk), m.disk, Apply)
    ensures CommitHolds(plan, old(m.disk), m.disk)
    ensures Overdue(plan, old(m.disk)) ==> m.disk == old(m.disk)
    ensures m.disk.receipt.Some? && old(m.disk).receipt.None? ==> Committed(plan, m.disk)
    ensures r.Ok? ==>
              match decision
              case Cleanup => old(m.disk).rolledBack.Some? && m.disk.pending.None?
              case Reconciled => Accepted(plan, m.disk) && Committed(plan, old(m.disk))
              case Accepted => Accepted(plan, m.disk) && !Committed(plan, old(m.disk))
              case RolledBackExpired =>
                && m.disk.apply.intent.Some?
                && Undone(plan, m.disk, m.disk.apply.intent.value, ExpiredBeforeAcceptance)
              case _ => false
    ensures Rerun(plan, old(m.disk), a) && Unhindered(a) && old(m.power) >= 19 ==>
              Completes(plan, old(m.disk), a, m.disk)
    ensures m.disk != old(m.disk) ==> Warranted(plan, old(m.disk), a, m.disk)
    ensures r.Ok? && decision in {Decision.Accepted, RolledBackExpired} ==>
              m.disk.apply.intent.Some? && Vouches(plan, a, m.disk.apply.intent.value.envelope, decision)
    ensures r.Ok? ==> a.evidence && a.lock && a.live && (decision == Cleanup || a.timers)
    ensures FirstApply(plan, old(m.disk), a) && old(m.power) >= 19 ==>
              Lands(plan, BridgeReceipt(BindingOf(plan, old(m.disk), a), a.accepting), a, r, m.disk)
    ensures r.PowerLost? ==> old(m.power) < 19
  {
    hide InOrder;
    hide Bound;
    decision := Undecided;
    :- Need(a.evidence && plan.oldUnit == plan.newUnit);
    if m.disk.rolledBack.Some? {
      r := CleanUp(m, plan, a);
      return r, Cleanup;
    }
    :- Need(Observed(a));
    if m.disk.receipt.Some? || (m.disk.prepared.Some? && m.disk.pointer == Own(plan, m.disk.prepared.value)) {
      r := Reconcile(m, plan, a);
      return r, Reconciled;
    }
    r, decision := Forward(m, plan, a);
  }

  /** The rollback permit: current for the first attempt, the original immutable
      one for a retry, whose intent must have been authorized inside its window. */
  predicate MayRollBack(d: Disk, a: Attempt) {
    && d.receipt.Some?
    && if d.rollback.intent.None? then
         && Valid(a.permit, d.receipt, a.first, false)
         && Free(d.rollback.approval, a.permit)
       else
         var b := d.rollback.intent.value;
         && d.rollback.approval == Some(a.permit) && b.envelope == a.permit
         && Valid(a.permit, d.receipt, a.first, true)
         && a.permit.issuedAt <= b.authorizedAt <= a.permit.expiresAt
  }

  method PublishRollbackAuthority(m: Machine<Disk>, plan: Plan, a: Attempt) returns (r: Status)
    requires Safe(plan, m.disk) && m.disk.receipt.Some? && m.disk.rolledBack.None?
    modifies m
    ensures Safe(plan, m.disk) && Advances(old(m.disk), m.disk, Rollback)
    ensures r.Ok? ==> m.disk.rollback.intent.Some? && Armed(plan, m.disk, Rollback, m.disk.rollback.intent.value)
    ensures r.Ok? || m.disk != old(m.disk) ==> MayRollBack(old(m.disk), a)
    ensures m.disk == old(m.disk).(rollback := m.disk.rollback, pending := m.disk.pending)
    ensures r.Refused? ==> m.disk == old(m.disk) && !MayRollBack(old(m.disk), a)
    ensures (&& old(m.disk).rollback == BLANK && old(m.disk).pending.None?
             && MayRollBack(old(m.disk), a) && old(m.power) >= 3) ==>
              && r.Ok? && m.power == old(m.power) - 3
              && m.disk.rollback == BLANK.(approval := Some(a.permit),
                                           intent := Some(Binding(plan.operationId, a.permit, a.authorizing)))
    ensures r.PowerLost? ==> old(m.power) < 3
    ensures old(m.power) - 3 <= m.power <= old(m.power)
  {
    r := Ok;
    :- Need(MayRollBack(m.disk, a));
    if m.disk.rollback.intent.None? {
      :- PublishApproval(m, Rollback, a.permit);
      :- PublishIntent(m, Rollback, Binding(plan.operationId, a.permit, a.authorizing));
    }
    r := PublishPending(m, plan.operationId);
  }

  method RunBack(m: Machine<Disk>, plan: Plan, a: Attempt, binding: Binding) returns (r: Status)
    requires Armed(plan, m.disk, Rollback, binding)
    modifies m
    ensures Armed(plan, m.disk, Rollback, binding) && Advances(old(m.disk), m.disk, Rollback)
    ensures r.Ok? ==> m.disk.core == plan.oldMain && m.disk.unit == plan.oldUnit
    ensures r.Ok? ==> a.reload && a.stable && a.timers
    ensures r.Refused? ==> !(a.reload && a.stable && a.timers)
    ensures old(m.power) == 2 && old(m.disk).core == plan.newMain && old(m.disk).rollback.main == Phase(None, None) ==>
              r.PowerLost? && m.disk.core == plan.oldMain
    ensures r.PowerLost? ==> old(m.power) < 6
    ensures old(m.power) - 6 <= m.power <= old(m.power)
  {
    ghost var writes;
    r, writes := RunPhase(m, plan, Rollback, Main, binding);
    if !r.Ok? {
      return;
    }
    r, writes := RunPhase(m, plan, Rollback, Unit, binding);
    if !r.Ok? {
      return;
    }
    :- Need(a.reload && a.stable);
    r := Need(a.timers);
  }

  /** The same, spelled out: an authentic permit that names the accepted receipt, current
      at the first attempt, and afterwards the recorded one, whose intent fell into its
      window. */
  predicate Granted(d: Disk, a: Attempt) {
    && d.receipt.Some? && a.permit.genuine && a.permit.undoes == d.receipt
    && a.permit.expiresAt - a.permit.issuedAt <= 14400000 && a.permit.issuedAt <= a.first
    && (d.rollback.approval.Some? ==> d.rollback.approval.value == a.permit)
    && (d.rollback.intent.None? ==> a.first <= a.permit.expiresAt)
    && (d.rollback.intent.Some? ==>
          && d.rollback.intent.value.envelope == a.permit
          && a.permit.issuedAt <= d.rollback.intent.value.authorizedAt <= a.permit.expiresAt)
  }

  lemma GrantedExactly(plan: Plan, d: Disk, a: Attempt)
    requires Safe(plan, d)
    ensures MayRollBack(d, a) <==> Granted(d, a)
  {
  }

  /** The signed end of an accepted bridge. */
  predicate SignedBack(plan: Plan, d: Disk) {
    && d.pending.None? && AllOld(plan, d) && d.receipt.Some?
    && d.rollback.intent.Some? && d.rolledBack == Some(Terminal(d.rollback.intent.value, SignedRollback))
  }

  method Revert(m: Machine<Disk>, plan: Plan, binding: Binding) returns (r: Status)
    requires Armed(plan, m.disk, Rollback, binding)
    requires m.disk.core == plan.oldMain && m.disk.unit == plan.oldUnit
    modifies m
    ensures Safe(plan, m.disk) && Advances(old(m.disk), m.disk, Rollback)
    ensures !r.Refused? && (r.Ok? ==> SignedBack(plan, m.disk))
    ensures r.PowerLost? ==> old(m.power) < 3
  {
    r := Ok;
    :- RestorePointer(m, plan);
    :- PublishRolledBack(m, Terminal(binding, SignedRollback));
    r := FinishPending(m, plan.operationId);
  }

  /** The locked body of a signed rollback: its authority, both phases back, its record. */
  method Backward(m: Machine<Disk>, plan: Plan, a: Attempt) returns (r: Status)
    requires Safe(plan, m.disk) && m.disk.receipt.Some? && m.disk.rolledBack.None?
    modifies m
    ensures Safe(plan, m.disk) && Advances(old(m.disk), m.disk, Rollback)
    ensures m.disk != old(m.disk) ==> MayRollBack(old(m.disk), a)
    ensures r.Ok? ==> SignedBack(plan, m.disk) && a.reload && a.stable && a.timers
    ensures r.Refused? ==> !MayRollBack(old(m.disk), a) || !(a.reload && a.stable && a.timers)
    ensures (&& old(m.disk).rollback == BLANK && old(m.disk).pending.None? && old(m.disk).core == plan.newMain
             && MayRollBack(old(m.disk), a) && old(m.power) == 5) ==>
              && m.disk.core == plan.oldMain && m.disk.rolledBack.None?
              && m.disk.rollback.intent == Some(Binding(plan.operationId, a.permit, a.authorizing))
    ensures r.PowerLost? ==> old(m.power) < 12
  {
    hide Safe;
    :- PublishRollbackAuthority(m, plan, a);
    var binding := m.disk.rollback.intent.value;
    :- RunBack(m, plan, a, binding);
    r := Revert(m, plan, binding);
  }

  /** `bridge_rollback`: an accepted bridge goes back only under a signed permit
      that names its receipt, and an interrupted one resumes under that permit. */
  method RollBack(m: Machine<Disk>, plan: Plan, a: Attempt) returns (r: Status, decision: Decision)
    requires Safe(plan, m.disk)
    modifies m
    ensures Safe(plan, m.disk) && Advances(old(m.disk), m.disk, Rollback)
    ensures Overdue(plan, old(m.disk)) ==> m.disk == old(m.disk)
    ensures old(m.disk).rolledBack.Some? ==> m.disk == old(m.disk).(pending := m.disk.pending)
    ensures r.Ok? || m.disk != old(m.disk) ==>
              a.evidence && a.lock && a.live && old(m.disk).receipt.Some? && plan.oldUnit == plan.newUnit
    ensures m.disk != old(m.disk) && old(m.disk).rolledBack.None? ==> a.timers && Granted(old(m.disk), a)
    ensures r.Ok? ==>
              match decision
              case Cleanup => old(m.disk).rolledBack.Some? && m.disk.pending.None?
              case RolledBackSigned => SignedBack(plan, m.disk) && a.reload && a.stable && a.timers
              case _ => false
    ensures (&& Granted(old(m.disk), a) && old(m.disk).rolledBack.None? && plan.oldUnit == plan.newUnit
             && Unhindered(a) && old(m.power) >= 12) ==> r.Ok? && decision == RolledBackSigned
    ensures (&& old(m.disk).rollback == BLANK && old(m.disk).pending.None? && old(m.disk).core == plan.newMain
             && Granted(old(m.disk), a) && Observed(a) && plan.oldUnit == plan.newUnit && old(m.disk).rolledBack.None?
             && old(m.power) == 5) ==>
              && m.disk.core == plan.oldMain && m.disk.rolledBack.None?
              && m.disk.rollback.intent == Some(Binding(plan.operationId, a.permit, a.authorizing))
    ensures r.PowerLost? ==> old(m.power) < 12
  {
    decision := Undecided;
    :- Need(a.evidence && plan.oldUnit == plan.newUnit && m.disk.receipt.Some?);
    if m.disk.rolledBack.Some? {
      r := CleanUp(m, plan, a);
      return r, Cleanup;
    }
    :- Need(Observed(a));
    GrantedExactly(plan, m.disk, a);
    r := Backward(m, plan, a);
    decision := RolledBackSigned;
  }

  /** A rollback moved the symlink under an intent dated outside its permit's window. */
  predicate Lapsed(plan: Plan, d: Disk) {
    && d.receipt.Some? && d.rolledBack.None? && d.core == plan.oldMain && d.rollback.intent.Some?
    && var b := d.rollback.intent.value;
    && !(b.envelope.issuedAt <= b.authorizedAt <= b.envelope.expiresAt)
  }

  datatype Invocation =
    | Forwards(attempt: Attempt, power: nat)
    | Backwards(attempt: Attempt, power: nat)

  /** Every intent on disk was signed: an apply's by a forward permit, a rollback's by one
      that names the accepted receipt, each for four hours at most; and the frozen record
      repeats the apply's intent. */
  predicate Signed(d: Disk) {
    && (d.apply.intent.Some? ==>
          && var e := d.apply.intent.value.envelope;
          && e.genuine && e.undoes.None? && e.expiresAt - e.issuedAt <= 14400000)
    && (d.rollback.intent.Some? ==>
          && var e := d.rollback.intent.value.envelope;
          && d.receipt.Some? && e.genuine && e.undoes == d.receipt && e.expiresAt - e.issuedAt <= 14400000)
    && (d.prepared.Some? ==> d.prepared.value.BridgeReceipt? && d.apply.intent == Some(d.prepared.value.binding))
  }

  /** What the host promises after any run: the pointer is the commit point, the
      receipt is the frozen record and never precedes it, and an accepted bridge
      is moved or ended only by an authentic rollback of that very receipt. */
  predicate Consistent(plan: Plan, d: Disk) {
    && (d.pending.None? ==> AllOld(plan, d) || AllNew(plan, d))
    && (AllOld(plan, d) || AllNew(plan, d) || d.pending == Some(plan.operationId))
    && Precedes(d.apply.unit, d.apply.main) && Precedes(d.rollback.main, d.rollback.unit)
    && UnderIntent(d.apply) && UnderIntent(d.rollback) && Signed(d)
    && (d.receipt.Some? ==> d.receipt == d.prepared)
    && (d.receipt.Some? ==> Committed(plan, d) || d.rollback.intent.Some?)
    && (Committed(plan, d) && d.receipt.None? ==>
          d.core == plan.newMain && d.unit == plan.newUnit && d.rolledBack.None?)
    && (d.receipt.Some? && (d.core != plan.newMain || d.unit != plan.newUnit || d.rolledBack.Some?) ==>
          d.rollback.intent.Some? && d.rollback.intent.value.envelope.genuine
          && d.rollback.intent.value.envelope.undoes == d.receipt)
    && (d.receipt.None? && (d.core != plan.oldMain || d.unit != plan.oldUnit) ==> d.prepared.Some?)
    && (d.rolledBack.Some? ==> AllOld(plan, d))
  }

  /** Any sequence of bridge applies and rollbacks, each cut after any durable write. */
  method Operate(m: Machine<Disk>, plan: Plan, script: seq<Invocation>)
    requires WellPlanned(plan) && AllOld(plan, m.disk) && m.disk.apply == BLANK && m.disk.rollback == BLANK
    requires m.disk.prepared.None? && m.disk.receipt.None? && m.disk.rolledBack.None?
    modifies m
    ensures Consistent(plan, m.disk)
  {
    for i := 0 to |script|
      invariant Safe(plan, m.disk)
    {
      m.power := script[i].power;
      match script[i] {
        case Forwards(a, _) => var _, _ := Activate(m, plan, a);
        case Backwards(a, _) => var _, _ := RollBack(m, plan, a);
      }
    }
  }

  /** An overdue commit is reachable and final. The permit is checked, expires
      before the record is frozen, and publishing the receipt raises: from there
      no sequence of applies and rollbacks changes the host any more. */
  method StrandLateCommit(m: Machine<Disk>, plan: Plan, a: Attempt, script: seq<Invocation>)
    requires FirstApply(plan, m.disk, a) && !a.terminal && a.permit.expiresAt < a.accepting
    modifies m
    ensures Overdue(plan, m.disk) && m.disk.pending == Some(plan.operationId)
    ensures m.disk.prepared == Some(BridgeReceipt(BindingOf(plan, old(m.disk), a), a.accepting))
  {
    m.power := 19;
    var _, _ := Activate(m, plan, a);
    ghost var stranded := m.disk;
    for i := 0 to |script|
      invariant Safe(plan, m.disk) && m.disk == stranded
    {
      m.power := script[i].power;
      match script[i] {
        case Forwards(b, _) => var _, _ := Activate(m, plan, b);
        case Backwards(b, _) => var _, _ := RollBack(m, plan, b);
      }
    }
  }

  /** The other half: with publication undisturbed, a first apply is accepted whether
      or not its permit still held when the record was frozen. The accepted receipt is
      timely exactly when the clock did not run back and the permit had not expired. */
  method AcceptAnyway(m: Machine<Disk>, plan: Plan, a: Attempt) returns (r: Status)
    requires FirstApply(plan, m.disk, a) && a.terminal && a.first <= a.authorizing
    modifies m
    ensures r.Ok? && Accepted(plan, m.disk)
    ensures Timely(m.disk) <==> a.authorizing <= a.accepting <= a.permit.expiresAt
  {
    m.power := 19;
    var decision;
    r, decision := Activate(m, plan, a);
  }

  /** The permit of a rollback is checked before its intent is dated. If it expires in
      between and the rollback is cut once the symlink has moved, nothing finishes it and
      nothing takes it back: no sequence of applies and rollbacks changes the host. */
  method StrandLateRollback(m: Machine<Disk>, plan: Plan, a: Attempt, script: seq<Invocation>)
    requires Safe(plan, m.disk) && Accepted(plan, m.disk) && m.disk.receipt.Some? && m.disk.rollback == BLANK
    requires Granted(m.disk, a) && Unhindered(a) && plan.oldUnit == plan.newUnit
    requires a.permit.expiresAt < a.authorizing
    modifies m
    ensures Lapsed(plan, m.disk) && m.disk.pending == Some(plan.operationId)
  {
    m.power := 5;
    var _, _ := RollBack(m, plan, a);
    ghost var stranded := m.disk;
    for i := 0 to |script|
      invariant Safe(plan, m.disk) && m.disk == stranded
    {
      m.power := script[i].power;
      match script[i] {
        case Forwards(b, _) => var _, _ := Activate(m, plan, b);
        case Backwards(b, _) => var _, _ := RollBack(m, plan, b);
      }
    }
  }
}
