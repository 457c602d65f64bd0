/** The canonical V1 lineage of one operation behind the RPC host: a child process
    may send any calls in any order, over any number of requests, and power may
    fail before any durable write. */
module Lineage {
  import opened Power

  datatype Mode = Read | Write

  datatype Phase = Forward | Rollback

  datatype Command = Prepare | Apply | Reconcile | RollBack | ReconcileRollback | TerminalizeNoEffect

  /** Records of one operation. SHA-256 is injective, so a record that stores the
      digest of another holds that record itself. */
  datatype Bootstrap = Bootstrap(oldPointer: string, newPointer: string, serial: nat)

  /** `supported` is what `validate_v1_plan` decides from the remaining fields. */
  datatype V1Plan = V1Plan(bootstrap: Bootstrap, previous: Option<Active>, supported: bool, serial: nat)

  datatype Approval = Approval(plan: V1Plan, issuedAt: int, expiresAt: int, genuine: bool)

  datatype Receipt = Receipt(plan: V1Plan, approval: Approval, acceptedAt: int)

  datatype Active = Own(receipt: Receipt) | Other(serial: nat)

  datatype RollbackApproval =
    RollbackApproval(plan: V1Plan, receipt: Receipt, issuedAt: int, expiresAt: int, genuine: bool)

  datatype Binding<A> = Binding(plan: V1Plan, approval: A, authorizedAt: int)

  datatype Terminal = Terminal(binding: Binding<RollbackApproval>, receipt: Receipt)

  /** The child's own record of what it means to do; its fields are the child's choice. */
  datatype Intent = Intent(own: bool, plan: Bootstrap, oldPointer: string, newPointer: string, authorizedAt: int)

  datatype NoEffect = NoEffect(plan: V1Plan, intent: Intent)

  datatype ForwardLeaves = ForwardLeaves(
    plan: Option<V1Plan>, approval: Option<Approval>,
    intent: Option<Binding<Approval>>, mainIntent: Option<Binding<Approval>>,
    frozen: Option<Receipt>, mainReceipt: Option<Binding<Approval>>,
    receipt: Option<Receipt>, noEffect: Option<NoEffect>)

  datatype RollbackLeaves = RollbackLeaves(
    approval: Option<RollbackApproval>,
    intent: Option<Binding<RollbackApproval>>, mainIntent: Option<Binding<RollbackApproval>>,
    mainReceipt: Option<Binding<RollbackApproval>>,
    rolledBack: Option<Terminal>, noEffect: Option<NoEffect>)

  /** The write-once records the child publishes; `passes` is the decision of its receipt. */
  datatype NativeRecords = NativeRecords(
    intent: Option<Intent>, passes: Option<bool>, rollbackIntent: Option<Intent>,
    rollbackReceipt: Option<nat>, terminalNoEffect: Option<nat>, rollbackNoEffect: Option<nat>)

  const NO_ROLLBACK := RollbackLeaves(None, None, None, None, None, None)

  datatype Marker = OwnMarker | ForeignMarker

  /** A temporary that power loss may leave half written. */
  datatype Temporary = Torn | Whole(pointer: Active)

  datatype Disk = Disk(
    core: string, coreTemporary: Option<string>,
    active: Option<Active>, activeTemporary: Option<Temporary>,
    pending: Option<Marker>,
    forward: ForwardLeaves, rollback: RollbackLeaves, native: NativeRecords)

  /** What the host held before the operation began. */
  datatype Origin = Origin(core: string, active: Option<Active>)

  /** One request file. `phase` is read only by a recovery. */
  datatype Inputs = Inputs(plan: Bootstrap, v1Plan: V1Plan, v1Approval: Approval, v1Rollback: Option<RollbackApproval>)

  datatype Request = Request(command: Command, phase: Option<Phase>, inputs: Option<Inputs>)

  const LONGEST := 240 * 60000

  predicate Window(issuedAt: int, expiresAt: int, at: int) {
    issuedAt <= at < expiresAt && expiresAt - issuedAt <= LONGEST
  }

  predicate ValidApproval(plan: V1Plan, a: Approval, at: int) {
    a.plan == plan && a.genuine && Window(a.issuedAt, a.expiresAt, at)
  }

  predicate ValidRollback(plan: V1Plan, receipt: Receipt, a: RollbackApproval, at: int) {
    a.plan == plan && a.receipt == receipt && a.genuine && Window(a.issuedAt, a.expiresAt, at)
  }

  /** The lineage object can be built: its V1 plan belongs to the bootstrap plan. */
  predicate Linked(i: Inputs) {
    i.v1Plan.bootstrap == i.plan && i.v1Plan.supported
  }

  /** The forward leaves agree with one another, and each was written after those it names. */
  predicate ForwardRecorded(f: ForwardLeaves) {
    && (f.approval.Some? ==> f.plan.Some?)
    && (f.intent.Some? ==>
          && f.plan == Some(f.intent.value.plan) && f.approval == Some(f.intent.value.approval)
          && ValidApproval(f.intent.value.plan, f.intent.value.approval, f.intent.value.authorizedAt))
    && (f.mainIntent.Some? ==> f.intent == f.mainIntent)
    && (f.frozen.Some? ==>
          f.mainIntent.Some? && f.frozen.value ==
          Receipt(f.mainIntent.value.plan, f.mainIntent.value.approval, f.mainIntent.value.authorizedAt))
    && (f.mainReceipt.Some? ==> f.mainIntent == f.mainReceipt)
    && (f.receipt.Some? ==> f.frozen == f.receipt && f.mainReceipt.Some?)
  }

  predicate RollbackRecorded(f: ForwardLeaves, b: RollbackLeaves) {
    && (b.approval.Some? ==> f.receipt.Some? && b.approval.value.receipt == f.receipt.value)
    && (b.intent.Some? ==>
          && f.plan == Some(b.intent.value.plan) && b.approval == Some(b.intent.value.approval)
          && f.receipt.Some?
          && ValidRollback(b.intent.value.plan, f.receipt.value, b.intent.value.approval, b.intent.value.authorizedAt))
    && (b.mainIntent.Some? ==> b.intent == b.mainIntent)
    && (b.mainReceipt.Some? ==> b.mainIntent == b.mainReceipt)
    && (b.rolledBack.Some? ==>
          b.mainReceipt == Some(b.rolledBack.value.binding) && f.receipt == Some(b.rolledBack.value.receipt))
  }

  /** The pointer effect was announced: the child's write-once intent names this
      plan, and the lineage's own intent was published at the same instant. */
  predicate Intended(d: Disk) {
    && d.forward.mainIntent.Some? && d.native.intent.Some?
    && d.native.intent.value.plan == d.forward.mainIntent.value.plan.bootstrap
    && d.native.intent.value.oldPointer == d.native.intent.value.plan.oldPointer
    && d.native.intent.value.newPointer == d.native.intent.value.plan.newPointer
    && d.native.intent.value.authorizedAt == d.forward.mainIntent.value.authorizedAt
  }

  predicate IsOld(o: Origin, d: Disk) {
    d.core == o.core && d.active == o.active
  }

  predicate IsNew(d: Disk) {
    && d.forward.plan.Some? && d.core == d.forward.plan.value.bootstrap.newPointer
    && d.forward.receipt.Some? && d.active == Some(Own(d.forward.receipt.value))
  }

  /** Where the two pointers may stand, once a plan is recorded. */
  predicate Placed(o: Origin, d: Disk) {
    && d.forward.plan.Some?
    && d.forward.plan.value.bootstrap.oldPointer == o.core && d.forward.plan.value.previous == o.active
    && d.forward.plan.value.bootstrap.newPointer != o.core
    && (d.core == o.core || (d.core == d.forward.plan.value.bootstrap.newPointer && Intended(d)))
    && (d.active == o.active || (d.forward.receipt.Some? && d.active == Some(Own(d.forward.receipt.value))))
    && (d.forward.receipt.Some? ==> Intended(d))
    && (d.pending != Some(OwnMarker) ==> IsOld(o, d) || IsNew(d))
    && (d.core == o.core && d.active != o.active ==> d.rollback.mainIntent.Some?)
    && (d.pending == Some(OwnMarker) ==> d.forward.intent.Some?)
  }

  /** What holds of the disk whatever calls were made and wherever power failed. */
  predicate Safe(o: Origin, d: Disk) {
    && (o.active.Some? ==> o.active.value.Other?)
    && ForwardRecorded(d.forward)
    && RollbackRecorded(d.forward, d.rollback)
    && (d.forward.plan.None? ==> IsOld(o, d) && d.pending != Some(OwnMarker))
    && (d.forward.plan.Some? ==> Placed(o, d))
  }

  /** Records are written once. */
  predicate Keeps(d0: Disk, d: Disk) {
    && Once(d0.forward.plan, d.forward.plan) && Once(d0.forward.approval, d.forward.approval)
    && Once(d0.forward.intent, d.forward.intent) && Once(d0.forward.mainIntent, d.forward.mainIntent)
    && Once(d0.forward.frozen, d.forward.frozen) && Once(d0.forward.mainReceipt, d.forward.mainReceipt)
    && Once(d0.forward.receipt, d.forward.receipt) && Once(d0.forward.noEffect, d.forward.noEffect)
    && Once(d0.rollback.approval, d.rollback.approval) && Once(d0.rollback.intent, d.rollback.intent)
    && Once(d0.rollback.mainIntent, d.rollback.mainIntent) && Once(d0.rollback.mainReceipt, d.rollback.mainReceipt)
    && Once(d0.rollback.rolledBack, d.rollback.rolledBack) && Once(d0.rollback.noEffect, d.rollback.noEffect)
    && Once(d0.native.intent, d.native.intent) && Once(d0.native.passes, d.native.passes)
    && Once(d0.native.rollbackIntent, d.native.rollbackIntent)
    && Once(d0.native.rollbackReceipt, d.native.rollbackReceipt)
    && Once(d0.native.terminalNoEffect, d.native.terminalNoEffect)
    && Once(d0.native.rollbackNoEffect, d.native.rollbackNoEffect)
  }

  method PublishForward(m: Machine<Disk>, f: ForwardLeaves) returns (r: Status)
    modifies m
    ensures r == if old(m.disk).forward == f then Ok else if old(m.power) == 0 then PowerLost else Ok
    ensures m.disk == if r.Ok? then old(m.disk).(forward := f) else old(m.disk)
    ensures m.power == if old(m.disk).forward == f || old(m.power) == 0 then old(m.power) else old(m.power) - 1
  {
    if m.disk.forward == f {
      return Ok;
    }
    r := m.Put(m.disk.(forward := f));
  }

  method PublishRollback(m: Machine<Disk>, b: RollbackLeaves) returns (r: Status)
    modifies m
    ensures r == if old(m.disk).rollback == b then Ok else if old(m.power) == 0 then PowerLost else Ok
    ensures m.disk == if r.Ok? then old(m.disk).(rollback := b) else old(m.disk)
    ensures m.power == if old(m.disk).rollback == b || old(m.power) == 0 then old(m.power) else old(m.power) - 1
  {
    if m.disk.rollback == b {
      return Ok;
    }
    r := m.Put(m.disk.(rollback := b));
  }

  /** `_cas_existing`: the new bytes are written beside the pointer and renamed
      over it. A leftover temporary is accepted only if it is complete and right. */
  predicate MayCas(d: Disk, to: Active) {
    d.activeTemporary in {None, Some(Whole(to))}
  }

  /** Replacing the active pointer by `next` leaves the operation where it may be. */
  predicate MayBecome(o: Origin, d: Disk, next: Option<Active>) {
    && d.pending == Some(OwnMarker)
    && (next == o.active || (d.forward.receipt.Some? && next == Some(Own(d.forward.receipt.value))))
    && (d.core == o.core && next != o.active ==> d.rollback.mainIntent.Some?)
  }

  /** The invariant does not look at the temporary, and allows the pointer's move. */
  lemma ActiveMoves(o: Origin, d: Disk, next: Option<Active>, t: Option<Temporary>)
    requires Safe(o, d)
    ensures Safe(o, d.(activeTemporary := t))
    ensures MayBecome(o, d, next) ==> Safe(o, d.(active := next, activeTemporary := t))
  {
  }

  method CasActive(m: Machine<Disk>, ghost o: Origin, to: Active) returns (r: Status)
    requires Safe(o, m.disk) && MayBecome(o, m.disk, Some(to))
    modifies m
    ensures Safe(o, m.disk)
    ensures m.disk == old(m.disk).(active := m.disk.active, activeTemporary := m.disk.activeTemporary)
    ensures r.Ok? ==> m.disk.active == Some(to) && m.disk.activeTemporary.None?
    ensures !r.Ok? ==> m.disk.active == old(m.disk).active
    ensures r.Refused? <==> !MayCas(old(m.disk), to)
    ensures r.Refused? ==> m.disk == old(m.disk)
    ensures old(m.disk).activeTemporary.None? && old(m.power) == 1 ==>
              r.PowerLost? && m.disk == old(m.disk).(activeTemporary := Some(Torn))
    ensures r.PowerLost? ==> old(m.power) < 4
    ensures old(m.power) - 4 <= m.power <= old(m.power)
  {
    forall t {
      ActiveMoves(o, m.disk, Some(to), t);
    }
    hide Safe;
    if m.disk.activeTemporary.Some? {
      :- Need(m.disk.activeTemporary.value == Whole(to));
      :- m.Put(m.disk.(activeTemporary := None));
    }
    :- m.Put(m.disk.(activeTemporary := Some(Torn)));
    :- m.Put(m.disk.(activeTemporary := Some(Whole(to))));
    r := m.Put(m.disk.(active := Some(to), activeTemporary := None));
  }

  /** The active pointer moves from one accepted record to the other. */
  method ReplaceActive(m: Machine<Disk>, ghost o: Origin, previous: Option<Active>, next: Option<Active>)
    returns (r: Status)
    requires Safe(o, m.disk) && MayBecome(o, m.disk, next)
    requires previous == o.active && (previous.Some? ==> next.Some?)
    modifies m
    ensures Safe(o, m.disk)
    ensures m.disk == old(m.disk).(active := m.disk.active, activeTemporary := m.disk.activeTemporary)
    ensures r.Ok? ==> m.disk.active == next
    ensures r.Ok? ==> m.disk.activeTemporary == if previous.Some? then None else old(m.disk).activeTemporary
    ensures !r.Ok? ==> m.disk.active == old(m.disk).active
    ensures r.Refused? <==> o.active.Some? && !MayCas(old(m.disk), next.value)
    ensures r.Refused? ==> m.disk == old(m.disk)
    ensures previous.Some? && old(m.disk).activeTemporary.None? && old(m.power) == 1 ==>
              r.PowerLost? && m.disk == old(m.disk).(activeTemporary := Some(Torn))
    ensures r.PowerLost? ==> old(m.power) < 4
    ensures old(m.power) - 4 <= m.power <= old(m.power)
  {
    if previous.None? {
      r := m.Put(m.disk.(active := next));
    } else {
      r := CasActive(m, o, next.value);
    }
  }

  /** Clearing PENDING is safe exactly where the two pointers agree. */
  method ClearPending(m: Machine<Disk>, ghost o: Origin) returns (r: Status)
    requires Safe(o, m.disk) && m.disk.pending == Some(OwnMarker) && (IsOld(o, m.disk) || IsNew(m.disk))
    modifies m
    ensures Safe(o, m.disk)
    ensures m.disk == if r.Ok? then old(m.disk).(pending := None) else old(m.disk)
    ensures !r.Refused? && (r.PowerLost? ==> old(m.power) == 0)
  {
    r := m.Put(m.disk.(pending := None));
  }

  predicate Ours(d: Disk) {
    d.pending.None? || d.pending == Some(OwnMarker)
  }

  function ForwardBinding(i: Inputs, at: int): Binding<Approval> {
    Binding(i.v1Plan, i.v1Approval, at)
  }

  predicate Exclusive(held: Option<Mode>) {
    held == Some(Write)
  }

  /** Exactly when `prepare_forward` is accepted. Neither an earlier cancellation
      nor an earlier completed rollback is among the conditions. */
  predicate MayPrepareForward(d: Disk, held: Option<Mode>, i: Inputs, intent: Intent, now: int) {
    && intent.own && intent.plan == i.plan
    && ValidApproval(i.v1Plan, i.v1Approval, intent.authorizedAt) && ValidApproval(i.v1Plan, i.v1Approval, now)
    && d.core == i.v1Plan.bootstrap.oldPointer && d.active == i.v1Plan.previous
    && Exclusive(held) && d.pending.None?
    && Free(d.forward.plan, i.v1Plan) && Free(d.forward.approval, i.v1Approval)
    && Free(d.forward.intent, ForwardBinding(i, intent.authorizedAt))
  }

  /** What a completed `prepare_forward` leaves. */
  function PreparedForward(d: Disk, i: Inputs, at: int): Disk {
    d.(pending := Some(OwnMarker),
       forward := d.forward.(plan := Some(i.v1Plan), approval := Some(i.v1Approval),
                             intent := Some(Binding(i.v1Plan, i.v1Approval, at)),
                             mainIntent := Some(Binding(i.v1Plan, i.v1Approval, at)),
                             frozen := Some(Receipt(i.v1Plan, i.v1Approval, at))))
  }

  function Unfrozen(d: Disk): Disk {
    d.(forward := d.forward.(frozen := None))
  }

  /** The predecessor pointer is unchanged and the authority is current. */
  method RecordForwardAuthority(m: Machine<Disk>, ghost o: Origin, i: Inputs, at: int) returns (r: Status)
    requires Safe(o, m.disk) && ValidApproval(i.v1Plan, i.v1Approval, at)
    requires i.v1Plan.bootstrap.oldPointer != i.v1Plan.bootstrap.newPointer
    requires m.disk.core == i.v1Plan.bootstrap.oldPointer && m.disk.active == i.v1Plan.previous
    modifies m
    ensures Safe(o, m.disk)
    ensures Once(old(m.disk).forward.plan, m.disk.forward.plan)
    ensures Once(old(m.disk).forward.approval, m.disk.forward.approval)
    ensures Once(old(m.disk).forward.intent, m.disk.forward.intent)
    ensures m.disk == old(m.disk).(forward := m.disk.forward)
    ensures m.disk.forward == old(m.disk).forward.(plan := m.disk.forward.plan, approval := m.disk.forward.approval,
                                                   intent := m.disk.forward.intent)
    ensures r.Ok? ==> m.disk.forward == old(m.disk).forward.(plan := Some(i.v1Plan), approval := Some(i.v1Approval),
                                                             intent := Some(ForwardBinding(i, at)))
    ensures r.Refused? <==>
              !(Free(old(m.disk).forward.plan, i.v1Plan) && Free(old(m.disk).forward.approval, i.v1Approval)
                && Free(old(m.disk).forward.intent, ForwardBinding(i, at)))
    ensures !Free(old(m.disk).forward.plan, i.v1Plan) ==> m.disk == old(m.disk)
    ensures old(m.disk).forward.plan.None? && old(m.disk).forward.intent.None? && old(m.power) >= 3 ==>
              m.power == old(m.power) - 3
    ensures r.PowerLost? ==> old(m.power) < 3
    ensures old(m.power) - 3 <= m.power <= old(m.power)
  {
    r := Ok;
    :- Need(Free(m.disk.forward.plan, i.v1Plan));
    :- PublishForward(m, m.disk.forward.(plan := Some(i.v1Plan)));
    :- Need(Free(m.disk.forward.approval, i.v1Approval));
    :- PublishForward(m, m.disk.forward.(approval := Some(i.v1Approval)));
    :- Need(Free(m.disk.forward.intent, ForwardBinding(i, at)));
    r := PublishForward(m, m.disk.forward.(intent := Some(ForwardBinding(i, at))));
  }

  /** The marker, then the intent of the effect and the receipt it will be accepted with. */
  method AnnounceForward(m: Machine<Disk>, ghost o: Origin, i: Inputs, at: int) returns (r: Status)
    requires Safe(o, m.disk) && m.disk.forward.intent == Some(ForwardBinding(i, at))
    requires m.disk.core == o.core && m.disk.active == o.active
    modifies m
    ensures Safe(o, m.disk)
    ensures Once(old(m.disk).forward.mainIntent, m.disk.forward.mainIntent)
    ensures Once(old(m.disk).forward.frozen, m.disk.forward.frozen)
    ensures m.disk == old(m.disk).(forward := m.disk.forward, pending := m.disk.pending)
    ensures m.disk.forward == old(m.disk).forward.(mainIntent := m.disk.forward.mainIntent,
                                                   frozen := m.disk.forward.frozen)
    ensures m.disk.pending in {old(m.disk).pending, Some(OwnMarker)}
    ensures r.Ok? ==> m.disk == PreparedForward(old(m.disk), i, at)
    ensures r.Refused? <==> old(m.disk).pending.Some?
    ensures r.Refused? ==> m.disk == old(m.disk)
    ensures old(m.disk).pending.None? && old(m.disk).forward.mainIntent.None? && old(m.power) == 2 ==>
              r.PowerLost? && m.disk == old(m.disk).(pending := Some(OwnMarker),
                                forward := old(m.disk).forward.(mainIntent := Some(ForwardBinding(i, at))))
    ensures m.disk.forward.mainIntent != old(m.disk).forward.mainIntent ==> m.disk.pending == Some(OwnMarker)
    ensures r.PowerLost? ==> old(m.power) < 3
  {
    r := Ok;
    :- Need(m.disk.pending.None?);
    :- m.Put(m.disk.(pending := Some(OwnMarker)));
    :- PublishForward(m, m.disk.forward.(mainIntent := Some(ForwardBinding(i, at))));
    r := PublishForward(m, m.disk.forward.(frozen := Some(Receipt(i.v1Plan, i.v1Approval, at))));
  }

  method PrepareForward(m: Machine<Disk>, ghost o: Origin, held: Option<Mode>, i: Inputs, intent: Intent, now: int)
    returns (r: Status)
    requires Safe(o, m.disk) && Linked(i) && i.plan.oldPointer != i.plan.newPointer
    modifies m
    ensures Safe(o, m.disk)
    ensures Once(old(m.disk).forward.plan, m.disk.forward.plan)
    ensures Once(old(m.disk).forward.approval, m.disk.forward.approval)
    ensures Once(old(m.disk).forward.intent, m.disk.forward.intent)
    ensures Once(old(m.disk).forward.mainIntent, m.disk.forward.mainIntent)
    ensures Once(old(m.disk).forward.frozen, m.disk.forward.frozen)
    ensures m.disk == old(m.disk).(forward := m.disk.forward, pending := m.disk.pending)
    ensures m.disk.forward == old(m.disk).forward.(plan := m.disk.forward.plan, approval := m.disk.forward.approval,
              intent := m.disk.forward.intent, mainIntent := m.disk.forward.mainIntent, frozen := m.disk.forward.frozen)
    ensures r.Ok? ==> MayPrepareForward(old(m.disk), held, i, intent, now)
                      && m.disk == PreparedForward(old(m.disk), i, intent.authorizedAt)
    ensures r.Refused? ==> !MayPrepareForward(old(m.disk), held, i, intent, now)
    ensures m.disk.forward.mainIntent != old(m.disk).forward.mainIntent ==> m.disk.pending == Some(OwnMarker)
    ensures r.PowerLost? ==> old(m.power) < 6
    ensures m.disk != old(m.disk) ==> Exclusive(held) && i.v1Plan.bootstrap.oldPointer == m.disk.core
                                      && Free(old(m.disk).forward.plan, i.v1Plan)
    ensures (old(m.disk).forward.plan.None? && MayPrepareForward(old(m.disk), held, i, intent, now)
             && old(m.power) == 5) ==>
              r.PowerLost? && m.disk == Unfrozen(PreparedForward(old(m.disk), i, intent.authorizedAt))
    ensures Stuck(o, old(m.disk), m.disk)
    ensures m.disk != old(m.disk) ==> ForwardWarrant(old(m.disk), i, intent, now)
  {
    r := Ok;
    :- Need(intent.own && intent.plan == i.plan);
    :- Need(ValidApproval(i.v1Plan, i.v1Approval, intent.authorizedAt));
    :- Need(ValidApproval(i.v1Plan, i.v1Approval, now));
    :- Need(m.disk.core == i.v1Plan.bootstrap.oldPointer && m.disk.active == i.v1Plan.previous);
    :- Need(Exclusive(held));
    :- RecordForwardAuthority(m, o, i, intent.authorizedAt);
    r := AnnounceForward(m, o, i, intent.authorizedAt);
  }

  predicate MayFinalizeForward(d: Disk, held: Option<Mode>, i: Inputs, at: int) {
    && Exclusive(held) && d.core == i.v1Plan.bootstrap.newPointer
    && Ours(d)
    && (d.pending.None? ==>
          d.forward.receipt.Some? && d.forward.receipt.value.plan == i.v1Plan
          && d.active == Some(Own(d.forward.receipt.value)))
    && d.forward.plan == Some(i.v1Plan) && d.forward.approval == Some(i.v1Approval)
    && d.forward.mainIntent.Some? && d.forward.mainIntent.value.authorizedAt == at
    && Completable(d)
  }

  /** The receipt was frozen before the pointer moved, and no broken temporary
      stands where the active pointer must be replaced. */
  predicate Completable(d: Disk) {
    && d.forward.frozen.Some? && d.forward.plan.Some?
    && (d.active != Some(Own(d.forward.frozen.value)) && d.forward.plan.value.previous.Some? ==>
          MayCas(d, Own(d.forward.frozen.value)))
  }

  /** What a completed `finalize_forward` leaves. */
  function FinalizedForward(d: Disk): Disk
    requires d.forward.frozen.Some? && d.forward.plan.Some?
  {
    var accepted := Some(Own(d.forward.frozen.value));
    d.(active := accepted, pending := None,
       activeTemporary := if d.active != accepted && d.forward.plan.value.previous.Some? then None
                          else d.activeTemporary,
       forward := d.forward.(mainReceipt := d.forward.mainIntent, receipt := d.forward.frozen))
  }

  /** A marked operation without receipts, whose active pointer must be replaced. */
  predicate Unaccepted(d: Disk) {
    && d.pending.Some? && d.forward.mainReceipt.None? && d.forward.receipt.None?
    && d.forward.plan.Some? && d.active.Some? && d.active == d.forward.plan.value.previous && d.activeTemporary.None?
  }

  /** Its acceptance cut while the temporary is being written. */
  function TornForward(d: Disk): Disk {
    d.(activeTemporary := Some(Torn),
       forward := d.forward.(mainReceipt := d.forward.mainIntent, receipt := d.forward.frozen))
  }

  method FinalizeForward(m: Machine<Disk>, ghost o: Origin, held: Option<Mode>, i: Inputs, at: int) returns (r: Status)
    requires Safe(o, m.disk) && Linked(i) && i.plan.oldPointer != i.plan.newPointer
    modifies m
    ensures Safe(o, m.disk)
    ensures Once(old(m.disk).forward.mainReceipt, m.disk.forward.mainReceipt)
    ensures Once(old(m.disk).forward.receipt, m.disk.forward.receipt)
    ensures m.disk == old(m.disk).(active := m.disk.active, activeTemporary := m.disk.activeTemporary,
                                   pending := m.disk.pending, forward := m.disk.forward)
    ensures m.disk.forward == old(m.disk).forward.(mainReceipt := m.disk.forward.mainReceipt,
                                                   receipt := m.disk.forward.receipt)
    ensures r.Ok? ==> IsNew(m.disk) && m.disk.pending.None?
    ensures r.Ok? ==> MayFinalizeForward(old(m.disk), held, i, at) && old(m.disk).forward.frozen.Some?
                      && old(m.disk).forward.plan.Some? && m.disk == FinalizedForward(old(m.disk))
    ensures r.Refused? ==> !MayFinalizeForward(old(m.disk), held, i, at)
    ensures r.Refused? || !Completable(old(m.disk)) ==> m.disk == old(m.disk).(forward := m.disk.forward)
    ensures m.disk.active != old(m.disk).active ==> old(m.disk).pending == Some(OwnMarker)
    ensures r.PowerLost? ==> old(m.power) < 7
    ensures m.disk != old(m.disk) ==> Exclusive(held)
    ensures old(m.disk).active != o.active ==>
              m.disk.active == old(m.disk).active && m.disk.activeTemporary == old(m.disk).activeTemporary
    ensures MayFinalizeForward(old(m.disk), held, i, at) && Unaccepted(old(m.disk)) && old(m.power) == 3 ==>
              r.PowerLost? && m.disk == TornForward(old(m.disk))
    ensures Stuck(o, old(m.disk), m.disk)
    ensures m.disk != old(m.disk) ==> AcceptanceWarrant(old(m.disk), i, at)
  {
    r := Ok;
    :- Need(Exclusive(held) && m.disk.core == i.v1Plan.bootstrap.newPointer);
    var marked := m.disk.pending.Some?;
    if marked {
      :- Need(m.disk.pending.value == OwnMarker);
    } else {
      :- Need(m.disk.forward.receipt.Some? && m.disk.forward.receipt.value.plan == i.v1Plan
              && m.disk.active == Some(Own(m.disk.forward.receipt.value)));
    }
    :- Need(m.disk.forward.plan == Some(i.v1Plan) && m.disk.forward.approval == Some(i.v1Approval)
            && m.disk.forward.mainIntent.Some? && m.disk.forward.intent == m.disk.forward.mainIntent
            && m.disk.forward.mainIntent.value.authorizedAt == at
            && ValidApproval(i.v1Plan, i.v1Approval, at)
            && m.disk.forward.frozen == Some(Receipt(i.v1Plan, i.v1Approval, at)));
    r := AcceptForward(m, o, marked);
  }

  /** The second half of `finalize_forward`: receipts, the active pointer, the marker. */
  method AcceptForward(m: Machine<Disk>, ghost o: Origin, marked: bool) returns (r: Status)
    requires Safe(o, m.disk) && m.disk.forward.frozen.Some?
    requires m.disk.forward.plan.Some? && m.disk.core == m.disk.forward.plan.value.bootstrap.newPointer
    requires if marked then m.disk.pending == Some(OwnMarker) else m.disk.pending.None? && IsNew(m.disk)
    modifies m
    ensures Safe(o, m.disk)
    ensures Once(old(m.disk).forward.mainReceipt, m.disk.forward.mainReceipt)
    ensures Once(old(m.disk).forward.receipt, m.disk.forward.receipt)
    ensures m.disk == old(m.disk).(active := m.disk.active, activeTemporary := m.disk.activeTemporary,
                                   pending := m.disk.pending, forward := m.disk.forward)
    ensures m.disk.forward == old(m.disk).forward.(mainReceipt := m.disk.forward.mainReceipt,
                                                   receipt := m.disk.forward.receipt)
    ensures r.Ok? ==> IsNew(m.disk) && m.disk.pending.None? && m.disk == FinalizedForward(old(m.disk))
    ensures r.Ok? ==> Completable(old(m.disk))
    ensures r.Refused? ==> !Completable(old(m.disk))
    ensures !Completable(old(m.disk)) ==> m.disk == old(m.disk).(forward := m.disk.forward)
    ensures m.disk.active != old(m.disk).active ==> marked
    ensures r.PowerLost? ==> old(m.power) < 7
    ensures old(m.disk).active != o.active ==>
              m.disk.active == old(m.disk).active && m.disk.activeTemporary == old(m.disk).activeTemporary
    ensures Unaccepted(old(m.disk)) && old(m.disk).forward.mainIntent.Some? && old(m.power) == 3 ==>
              r.PowerLost? && m.disk == TornForward(old(m.disk))
  {
    r := Ok;
    :- PublishForward(m, m.disk.forward.(mainReceipt := m.disk.forward.mainIntent));
    :- PublishForward(m, m.disk.forward.(receipt := m.disk.forward.frozen));
    var accepted := Own(m.disk.forward.receipt.value);
    var previous := m.disk.forward.plan.value.previous;
    assert m.disk.active in {previous, Some(accepted)};
    if m.disk.active == previous {
      :- ReplaceActive(m, o, previous, Some(accepted));
    }
    if marked {
      :- ClearPending(m, o);
    }
    return Ok;
  }

  function RollbackBinding(i: Inputs, at: int): Binding<RollbackApproval>
    requires i.v1Rollback.Some?
  {
    Binding(i.v1Plan, i.v1Rollback.value, at)
  }

  /** A rollback starts only from the accepted state, under an approval of its receipt. */
  predicate RollbackApproved(d: Disk, i: Inputs, at: int, now: int) {
    && d.forward.receipt.Some? && d.forward.frozen == d.forward.receipt
    && d.forward.receipt.value.plan == i.v1Plan
    && d.active == Some(Own(d.forward.receipt.value)) && d.core == i.v1Plan.bootstrap.newPointer
    && i.v1Rollback.Some?
    && ValidRollback(i.v1Plan, d.forward.receipt.value, i.v1Rollback.value, at)
    && ValidRollback(i.v1Plan, d.forward.receipt.value, i.v1Rollback.value, now)
  }

  predicate MayPrepareRollback(d: Disk, held: Option<Mode>, i: Inputs, at: int, linked: bool, now: int) {
    && Exclusive(held) && linked && RollbackApproved(d, i, at, now) && d.pending.None?
    && Free(d.rollback.approval, i.v1Rollback.value) && Free(d.rollback.intent, RollbackBinding(i, at))
  }

  /** What a completed `prepare_rollback` leaves. */
  function PreparedRollback(d: Disk, i: Inputs, at: int): Disk
    requires i.v1Rollback.Some?
  {
    d.(pending := Some(OwnMarker),
       rollback := d.rollback.(approval := i.v1Rollback, intent := Some(Binding(i.v1Plan, i.v1Rollback.value, at)),
                               mainIntent := Some(Binding(i.v1Plan, i.v1Rollback.value, at))))
  }

  method PrepareRollback(m: Machine<Disk>, ghost o: Origin, held: Option<Mode>, i: Inputs, at: int, linked: bool,
                         now: int)
    returns (r: Status)
    requires Safe(o, m.disk)
    modifies m
    ensures Safe(o, m.disk)
    ensures Once(old(m.disk).rollback.approval, m.disk.rollback.approval)
    ensures Once(old(m.disk).rollback.intent, m.disk.rollback.intent)
    ensures Once(old(m.disk).rollback.mainIntent, m.disk.rollback.mainIntent)
    ensures m.disk == old(m.disk).(rollback := m.disk.rollback, pending := m.disk.pending)
    ensures m.disk.rollback == old(m.disk).rollback.(approval := m.disk.rollback.approval,
              intent := m.disk.rollback.intent, mainIntent := m.disk.rollback.mainIntent)
    ensures r.Ok? ==> MayPrepareRollback(old(m.disk), held, i, at, linked, now)
                      && i.v1Rollback.Some? && m.disk == PreparedRollback(old(m.disk), i, at)
    ensures r.Refused? ==> !MayPrepareRollback(old(m.disk), held, i, at, linked, now)
    ensures m.disk.rollback.mainIntent != old(m.disk).rollback.mainIntent ==> m.disk.pending == Some(OwnMarker)
    ensures r.PowerLost? ==> old(m.power) < 4
    ensures m.disk != old(m.disk) ==> old(m.disk).active.Some? && old(m.disk).active.value.Own?
    ensures m.disk != old(m.disk) ==> Exclusive(held) && RollbackApproved(old(m.disk), i, at, now)
    ensures m.disk != old(m.disk) ==> linked && RollbackWarrant(old(m.disk), i, at, now)
  {
    r := Ok;
    :- Need(Exclusive(held) && linked);
    :- Need(RollbackApproved(m.disk, i, at, now));
    :- Need(Free(m.disk.rollback.approval, i.v1Rollback.value));
    :- PublishRollback(m, m.disk.rollback.(approval := i.v1Rollback));
    :- Need(Free(m.disk.rollback.intent, RollbackBinding(i, at)));
    :- PublishRollback(m, m.disk.rollback.(intent := Some(RollbackBinding(i, at))));
    :- Need(m.disk.pending.None?);
    :- m.Put(m.disk.(pending := Some(OwnMarker)));
    r := PublishRollback(m, m.disk.rollback.(mainIntent := Some(RollbackBinding(i, at))));
  }

  predicate MayFinalizeRollback(d: Disk, held: Option<Mode>, i: Inputs, at: int) {
    && Exclusive(held) && d.core == i.v1Plan.bootstrap.oldPointer
    && Ours(d)
    && (d.pending.None? ==> d.rollback.rolledBack.Some? && d.active == i.v1Plan.previous)
    && d.rollback.mainIntent.Some? && d.rollback.mainIntent.value.authorizedAt == at
    && d.forward.plan == Some(i.v1Plan)
    && Revertible(d)
  }

  /** No broken temporary stands where the previous pointer must be put back. */
  predicate Revertible(d: Disk) {
    && d.forward.plan.Some?
    && (d.active != d.forward.plan.value.previous && d.forward.plan.value.previous.Some? ==>
          MayCas(d, d.forward.plan.value.previous.value))
  }

  /** The previous pointer must be put back beside the accepted one. */
  predicate Returnable(d: Disk) {
    && d.forward.plan.Some? && d.forward.plan.value.previous.Some?
    && d.active != d.forward.plan.value.previous && d.activeTemporary.None?
  }

  /** The return cut while the temporary is being written. */
  function TornRollback(d: Disk): Disk {
    d.(activeTemporary := Some(Torn), rollback := d.rollback.(mainReceipt := d.rollback.mainIntent))
  }

  /** What a completed `finalize_rollback` leaves. */
  function FinalizedRollback(d: Disk): Disk
    requires d.forward.plan.Some? && d.forward.receipt.Some? && d.rollback.mainIntent.Some?
  {
    var previous := d.forward.plan.value.previous;
    d.(active := previous, pending := None,
       activeTemporary := if d.active != previous && previous.Some? then None else d.activeTemporary,
       rollback := d.rollback.(mainReceipt := d.rollback.mainIntent,
                               rolledBack := Some(Terminal(d.rollback.mainIntent.value, d.forward.receipt.value))))
  }

  method ReceiptRollback(m: Machine<Disk>, ghost o: Origin) returns (r: Status)
    requires Safe(o, m.disk) && m.disk.rollback.mainIntent.Some?
    modifies m
    ensures Safe(o, m.disk) && Once(old(m.disk).rollback.mainReceipt, m.disk.rollback.mainReceipt)
    ensures m.disk == old(m.disk).(rollback := old(m.disk).rollback.(mainReceipt := m.disk.rollback.mainReceipt))
    ensures r.Ok? ==> m.disk.rollback.mainReceipt == m.disk.rollback.mainIntent
    ensures !r.Refused? && (r.PowerLost? ==> old(m.power) == 0)
    ensures old(m.disk).rollback.mainReceipt.None? && old(m.power) > 0 ==> m.power == old(m.power) - 1
    ensures old(m.power) - 1 <= m.power <= old(m.power)
  {
    r := PublishRollback(m, m.disk.rollback.(mainReceipt := m.disk.rollback.mainIntent));
  }

  method FinalizeRollback(m: Machine<Disk>, ghost o: Origin, held: Option<Mode>, i: Inputs, at: int) returns (r: Status)
    requires Safe(o, m.disk)
    modifies m
    ensures Safe(o, m.disk)
    ensures Once(old(m.disk).rollback.mainReceipt, m.disk.rollback.mainReceipt)
    ensures Once(old(m.disk).rollback.rolledBack, m.disk.rollback.rolledBack)
    ensures m.disk == old(m.disk).(active := m.disk.active, activeTemporary := m.disk.activeTemporary,
                                   pending := m.disk.pending, rollback := m.disk.rollback)
    ensures m.disk.rollback == old(m.disk).rollback.(mainReceipt := m.disk.rollback.mainReceipt,
                                                     rolledBack := m.disk.rollback.rolledBack)
    ensures r.Ok? ==> IsOld(o, m.disk) && MayFinalizeRollback(old(m.disk), held, i, at)
    ensures r.Ok? ==> old(m.disk).forward.plan.Some? && old(m.disk).forward.receipt.Some?
                      && old(m.disk).rollback.mainIntent.Some? && m.disk == FinalizedRollback(old(m.disk))
    ensures r.Refused? ==> !MayFinalizeRollback(old(m.disk), held, i, at)
    ensures r.Refused? || !Revertible(old(m.disk)) ==> m.disk == old(m.disk).(rollback := m.disk.rollback)
    ensures (&& MayFinalizeRollback(old(m.disk), held, i, at) && Returnable(old(m.disk))
             && old(m.disk).rollback.mainReceipt.None? && old(m.power) == 2) ==>
              r.PowerLost? && m.disk == TornRollback(old(m.disk))
    ensures m.disk.active != old(m.disk).active ==> old(m.disk).pending == Some(OwnMarker)
    ensures r.PowerLost? ==> old(m.power) < 7
    ensures m.disk != old(m.disk) ==> Exclusive(held) && old(m.disk).rollback.mainIntent.Some?
                                      && m.disk.core == i.v1Plan.bootstrap.oldPointer
    ensures m.disk != old(m.disk) ==> ReturnWarrant(old(m.disk), i, at)
  {
    r := Ok;
    :- Need(Exclusive(held) && m.disk.core == i.v1Plan.bootstrap.oldPointer);
    var marked := m.disk.pending.Some?;
    if marked {
      :- Need(m.disk.pending.value == OwnMarker);
    } else {
      :- Need(m.disk.rollback.rolledBack.Some? && m.disk.active == i.v1Plan.previous);
    }
    :- Need(m.disk.rollback.mainIntent.Some? && m.disk.rollback.intent == m.disk.rollback.mainIntent
            && m.disk.rollback.mainIntent.value.authorizedAt == at
            && m.disk.forward.receipt.Some? && m.disk.rollback.approval.Some?
            && ValidRollback(m.disk.rollback.mainIntent.value.plan, m.disk.forward.receipt.value,
                             m.disk.rollback.approval.value, at));
    :- ReceiptRollback(m, o);
    :- Need(m.disk.forward.receipt.value.plan == i.v1Plan);
    hide RollbackRecorded;
    r := CompleteRollback(m, o, marked);
  }

  /** The second half of `finalize_rollback`. */
  method CompleteRollback(m: Machine<Disk>, ghost o: Origin, marked: bool) returns (r: Status)
    requires Safe(o, m.disk) && m.disk.rollback.mainIntent.Some?
    requires m.disk.rollback.mainReceipt == m.disk.rollback.mainIntent
    requires m.disk.core == o.core && m.disk.forward.receipt.Some?
    requires if marked then m.disk.pending == Some(OwnMarker)
             else m.disk.pending.None? && m.disk.rollback.rolledBack.Some? && m.disk.active == o.active
    modifies m
    ensures Safe(o, m.disk)
    ensures Once(old(m.disk).rollback.rolledBack, m.disk.rollback.rolledBack)
    ensures m.disk == old(m.disk).(active := m.disk.active, activeTemporary := m.disk.activeTemporary,
                                   pending := m.disk.pending, rollback := m.disk.rollback)
    ensures m.disk.rollback == old(m.disk).rollback.(rolledBack := m.disk.rollback.rolledBack)
    ensures r.Ok? ==> IsOld(o, m.disk) && m.disk == FinalizedRollback(old(m.disk))
    ensures r.Refused? <==> !Revertible(old(m.disk))
    ensures r.Refused? ==> m.disk == old(m.disk)
    ensures Returnable(old(m.disk)) && old(m.power) == 1 ==>
              r.PowerLost? && m.disk == old(m.disk).(activeTemporary := Some(Torn))
    ensures m.disk.active != old(m.disk).active ==> old(m.disk).pending == Some(OwnMarker)
    ensures r.PowerLost? ==> old(m.power) < 6
  {
    var accepted := Own(m.disk.forward.receipt.value);
    var previous := m.disk.forward.plan.value.previous;
    assert m.disk.active in {previous, Some(accepted)};
    if m.disk.active == Some(accepted) {
      :- ReplaceActive(m, o, previous, previous);
    }
    var terminal := Terminal(m.disk.rollback.mainIntent.value, m.disk.forward.receipt.value);
    :- PublishRollback(m, m.disk.rollback.(rolledBack := Some(terminal)));
    if marked {
      :- ClearPending(m, o);
    }
    return Ok;
  }

  /** What stands in the way of declaring that a direction had no effect. */
  predicate ForwardCancelable(d: Disk, i: Inputs, intent: Intent) {
    && Free(d.forward.plan, i.v1Plan) && Free(d.forward.approval, i.v1Approval)
    && d.core == i.v1Plan.bootstrap.oldPointer
    && Free(d.forward.intent, ForwardBinding(i, intent.authorizedAt))
    && Free(d.forward.mainIntent, ForwardBinding(i, intent.authorizedAt))
    && d.forward.receipt.None? && d.active == i.v1Plan.previous
    && Free(d.forward.noEffect, NoEffect(i.v1Plan, intent))
  }

  predicate RollbackCancelable(d: Disk, i: Inputs, intent: Intent) {
    && Free(d.forward.plan, i.v1Plan) && Free(d.forward.approval, i.v1Approval)
    && d.core == i.v1Plan.bootstrap.newPointer
    && (d.rollback.intent.Some? ==>
          d.rollback.approval.Some?
          && d.rollback.intent.value == Binding(i.v1Plan, d.rollback.approval.value, intent.authorizedAt))
    && (d.rollback.mainIntent.Some? ==>
          d.rollback.approval.Some?
          && d.rollback.mainIntent.value == Binding(i.v1Plan, d.rollback.approval.value, intent.authorizedAt))
    && d.forward.receipt.Some? && d.rollback.rolledBack.None? && d.forward.receipt.value.plan == i.v1Plan
    && d.active == Some(Own(d.forward.receipt.value))
    && Free(d.rollback.noEffect, NoEffect(i.v1Plan, intent))
  }

  predicate MayClose(d: Disk, held: Option<Mode>, i: Inputs, phase: Phase, intent: Intent) {
    && Exclusive(held) && Ours(d)
    && if phase == Forward then ForwardCancelable(d, i, intent) else RollbackCancelable(d, i, intent)
  }

  /** A direction can be cancelled only where the two pointers agree. */
  lemma CancelableAgrees(o: Origin, d: Disk, i: Inputs, intent: Intent)
    requires Safe(o, d) && d.pending == Some(OwnMarker)
    ensures ForwardCancelable(d, i, intent) ==> IsOld(o, d)
    ensures RollbackCancelable(d, i, intent) ==> IsNew(d)
  {
  }

  /** What a completed `close_no_effect` leaves. */
  function Closed(d: Disk, i: Inputs, phase: Phase, intent: Intent): Disk {
    var record := Some(NoEffect(i.v1Plan, intent));
    if phase == Forward then d.(pending := None, forward := d.forward.(noEffect := record))
    else d.(pending := None, rollback := d.rollback.(noEffect := record))
  }

  /** The no-effect record, and then the marker. */
  method RecordNoEffect(m: Machine<Disk>, ghost o: Origin, i: Inputs, phase: Phase, intent: Intent) returns (r: Status)
    requires Safe(o, m.disk) && Ours(m.disk)
    requires if phase == Forward then Free(m.disk.forward.noEffect, NoEffect(i.v1Plan, intent))
             else Free(m.disk.rollback.noEffect, NoEffect(i.v1Plan, intent))
    requires m.disk.pending.Some? ==> IsOld(o, m.disk) || IsNew(m.disk)
    modifies m
    ensures Safe(o, m.disk)
    ensures !r.Refused? && (r.PowerLost? ==> old(m.power) < 2)
    ensures m.disk in {old(m.disk), Closed(old(m.disk), i, phase, intent).(pending := old(m.disk).pending),
                       Closed(old(m.disk), i, phase, intent)}
    ensures r.Ok? ==> m.disk == Closed(old(m.disk), i, phase, intent)
  {
    hide Safe;
    NoEffectKeepsSafe(o, m.disk, Some(NoEffect(i.v1Plan, intent)));
    if phase == Forward {
      :- PublishForward(m, m.disk.forward.(noEffect := Some(NoEffect(i.v1Plan, intent))));
    } else {
      :- PublishRollback(m, m.disk.rollback.(noEffect := Some(NoEffect(i.v1Plan, intent))));
    }
    r := Ok;
    if m.disk.pending.Some? {
      r := ClearPending(m, o);
    }
  }

  lemma NoEffectKeepsSafe(o: Origin, d: Disk, n: Option<NoEffect>)
    requires Safe(o, d)
    ensures Safe(o, d.(forward := d.forward.(noEffect := n))) && Safe(o, d.(rollback := d.rollback.(noEffect := n)))
  {
  }

  method CloseNoEffect(m: Machine<Disk>, ghost o: Origin, held: Option<Mode>, i: Inputs, phase: Phase, intent: Intent)
    returns (r: Status)
    requires Safe(o, m.disk)
    modifies m
    ensures Safe(o, m.disk)
    ensures Once(old(m.disk).forward.noEffect, m.disk.forward.noEffect)
    ensures Once(old(m.disk).rollback.noEffect, m.disk.rollback.noEffect)
    ensures m.disk == old(m.disk).(pending := m.disk.pending, forward := m.disk.forward, rollback := m.disk.rollback)
    ensures m.disk.forward == old(m.disk).forward.(noEffect := m.disk.forward.noEffect)
    ensures m.disk.rollback == old(m.disk).rollback.(noEffect := m.disk.rollback.noEffect)
    ensures r.Ok? ==> MayClose(old(m.disk), held, i, phase, intent) && m.disk == Closed(old(m.disk), i, phase, intent)
    ensures r.Refused? ==> !MayClose(old(m.disk), held, i, phase, intent) && m.disk == old(m.disk)
    ensures r.PowerLost? ==> old(m.power) < 2
    ensures m.disk != old(m.disk) ==> MayClose(old(m.disk), held, i, phase, intent)
    ensures Stuck(o, old(m.disk), m.disk)
    ensures m.disk != old(m.disk) ==> Exclusive(held)
    ensures m.disk != old(m.disk) ==> IdleWarrant(old(m.disk), i, phase, intent)
  {
    r := Ok;
    :- Need(Exclusive(held) && Ours(m.disk));
    :- Need(if phase == Forward then ForwardCancelable(m.disk, i, intent) else RollbackCancelable(m.disk, i, intent));
    if m.disk.pending.Some? {
      CancelableAgrees(o, m.disk, i, intent);
    }
    hide ForwardCancelable;
    hide RollbackCancelable;
    r := RecordNoEffect(m, o, i, phase, intent);
  }

  /** One message of the child. Signatures, their windows, the permit and the Node
      validator are the verdict `trusted`; `linked` says whether the intent names
      the receipt it was sent with; `quiet` is the host observation made as the
      locks are taken, and `answered` whether a read raised. */
  datatype Call =
    | AcquireLocks(mode: Mode, quiet: bool)
    | ReleaseLocks
    | Look(answered: bool)
    | PublishIntent(record: Intent)
    | PublishReceipt(passes: bool)
    | PublishRollbackIntent(record: Intent)
    | PublishOther(leaf: nat, value: nat)
    | CompareAndSwap(oldPointer: string, newPointer: string, trusted: bool, now: int)
    | RecoverTemporary(oldPointer: string, pendingTarget: string, trusted: bool)
    | PrepareForwardCall(plan: Bootstrap, intent: Intent, now: int)
    | FinalizeForwardCall(plan: Bootstrap, intent: Intent)
    | PrepareRollbackCall(plan: Bootstrap, intent: Intent, linked: bool, now: int)
    | FinalizeRollbackCall(plan: Bootstrap, intent: Intent)
    | CloseNoEffectCall(plan: Bootstrap, phase: Phase, intent: Intent)
    | Unknown

  /** The direction of a pointer effect, decided by the request, not by the child. */
  function Direction(q: Request, recovery: bool): Option<Phase> {
    if recovery then q.phase else Some(if q.command == RollBack then Rollback else Forward)
  }

  function From(plan: Bootstrap, phase: Phase): string {
    if phase == Forward then plan.oldPointer else plan.newPointer
  }

  function To(plan: Bootstrap, phase: Phase): string {
    if phase == Forward then plan.newPointer else plan.oldPointer
  }

  predicate Targets(q: Request, oldPointer: string, newPointer: string, recovery: bool) {
    && q.inputs.Some? && Linked(q.inputs.value) && Direction(q, recovery).Some?
    && var phase := Direction(q, recovery).value;
    && oldPointer == From(q.inputs.value.plan, phase) && newPointer == To(q.inputs.value.plan, phase)
    && q.command == (if recovery then TerminalizeNoEffect else if phase == Rollback then RollBack else Apply)
  }

  /** The child's durable intent is the request's own. */
  predicate IntentOf(d: Disk, i: Inputs) {
    && d.native.intent.Some?
    && d.native.intent.value.plan == i.plan
    && d.native.intent.value.oldPointer == i.plan.oldPointer && d.native.intent.value.newPointer == i.plan.newPointer
  }

  predicate ForwardGate(d: Disk, i: Inputs, now: int, recovery: bool) {
    && IntentOf(d, i)
    && ValidApproval(i.v1Plan, i.v1Approval, d.native.intent.value.authorizedAt)
    && (!recovery ==> ValidApproval(i.v1Plan, i.v1Approval, now))
    && if d.pending.Some? then
         && d.forward.mainIntent.Some?
         && d.forward.mainIntent.value.authorizedAt == d.native.intent.value.authorizedAt
         && d.forward.plan == Some(i.v1Plan) && d.forward.approval == Some(i.v1Approval)
       else
         Free(d.forward.plan, i.v1Plan) && Free(d.forward.approval, i.v1Approval)
  }

  predicate RollbackGate(d: Disk, i: Inputs, now: int, recovery: bool) {
    && IntentOf(d, i)
    && ValidApproval(i.v1Plan, i.v1Approval, d.native.intent.value.authorizedAt)
    && d.native.passes == Some(true) && d.native.rollbackIntent.Some?
    && (d.pending.Some? ==>
          && d.rollback.mainIntent.Some?
          && d.rollback.mainIntent.value.authorizedAt == d.native.rollbackIntent.value.authorizedAt)
    && i.v1Rollback.Some? && d.forward.receipt.Some?
    && ValidRollback(i.v1Plan, d.forward.receipt.value, i.v1Rollback.value, d.native.rollbackIntent.value.authorizedAt)
    && (!recovery ==> ValidRollback(i.v1Plan, d.forward.receipt.value, i.v1Rollback.value, now))
  }

  /** `_assert_pointer_authority`. */
  predicate Authorized(d: Disk, q: Request, oldPointer: string, newPointer: string, recovery: bool, trusted: bool,
                       now: int) {
    && Targets(q, oldPointer, newPointer, recovery) && trusted
    && Ours(d) && (d.pending.None? ==> recovery && d.coreTemporary.None?)
    && if Direction(q, recovery).value == Forward then ForwardGate(d, q.inputs.value, now, recovery)
       else RollbackGate(d, q.inputs.value, now, recovery)
  }

  /** The gate and the swap's own preimage check leave two moves: forward under the
      published forward intents, and back under the published rollback intents. */
  lemma GateAgrees(o: Origin, d: Disk, q: Request, oldPointer: string, newPointer: string, trusted: bool, now: int)
    requires Safe(o, d) && Authorized(d, q, oldPointer, newPointer, false, trusted, now)
    requires d.core == oldPointer && oldPointer != newPointer
    ensures d.pending == Some(OwnMarker) && Intended(d) && d.forward.plan.value.bootstrap == q.inputs.value.plan
    ensures q.command == Apply ==> d.core == o.core && newPointer == d.forward.plan.value.bootstrap.newPointer
    ensures q.command == RollBack ==> newPointer == o.core && d.forward.receipt.Some? && d.rollback.mainIntent.Some?
    ensures q.command in {Apply, RollBack}
    ensures Safe(o, d.(core := newPointer, coreTemporary := None))
  {
  }

  /** Publishing a native record is allowed at any time, once for each name. */
  lemma NativeKeepsSafe(o: Origin, d: Disk, n: NativeRecords)
    requires Safe(o, d) && Once(d.native.intent, n.intent)
    ensures Safe(o, d.(native := n))
  {
  }

  /** What a swap of the serving symlink takes, leaf by leaf: the plan of a verified
      request, this operation's marker, the child's own intent and the lineage's intent of
      the same instant. Forward, an authentic approval of that plan, current at the intent
      and now. Back, the child's PASS receipt, its rollback intent, and an authentic
      approval that names the accepted receipt, current at that intent and now. */
  predicate SwapWarrant(d: Disk, q: Request, call: Call) {
    && call.CompareAndSwap? && call.trusted && call.oldPointer != call.newPointer && d.core == call.oldPointer
    && d.pending == Some(OwnMarker) && d.coreTemporary.None?
    && q.inputs.Some? && q.inputs.value.v1Plan.bootstrap == q.inputs.value.plan && q.inputs.value.v1Plan.supported
    && ChildIntends(d, q.inputs.value)
    && d.forward.plan.Some? && d.forward.plan.value.bootstrap == q.inputs.value.plan
    && d.forward.mainIntent.Some?
    && d.forward.mainIntent.value.authorizedAt == d.native.intent.value.authorizedAt
    && (q.command == Apply || q.command == RollBack)
    && (q.command == Apply ==> ForthWarrant(d, q.inputs.value, call))
    && (q.command == RollBack ==> BackWarrant(d, q.inputs.value, call))
  }

  /** The child's intent repeats the plan, under an authentic approval of four hours at
      most that was current when it was made. */
  predicate ChildIntends(d: Disk, i: Inputs) {
    && d.native.intent.Some? && d.native.intent.value.plan == i.plan
    && d.native.intent.value.oldPointer == i.plan.oldPointer && d.native.intent.value.newPointer == i.plan.newPointer
    && i.v1Approval.genuine && i.v1Approval.plan == i.v1Plan
    && i.v1Approval.expiresAt - i.v1Approval.issuedAt <= 14400000
    && i.v1Approval.issuedAt <= d.native.intent.value.authorizedAt < i.v1Approval.expiresAt
  }

  predicate ForthWarrant(d: Disk, i: Inputs, call: Call)
    requires call.CompareAndSwap?
  {
    && call.oldPointer == i.plan.oldPointer && call.newPointer == i.plan.newPointer
    && d.forward.plan == Some(i.v1Plan) && d.forward.approval == Some(i.v1Approval)
    && i.v1Approval.issuedAt <= call.now < i.v1Approval.expiresAt
  }

  predicate BackWarrant(d: Disk, i: Inputs, call: Call)
    requires call.CompareAndSwap?
  {
    && call.oldPointer == i.plan.newPointer && call.newPointer == i.plan.oldPointer
    && d.native.passes == Some(true) && d.native.rollbackIntent.Some?
    && d.rollback.mainIntent.Some?
    && d.rollback.mainIntent.value.authorizedAt == d.native.rollbackIntent.value.authorizedAt
    && RollbackNames(d, i, d.native.rollbackIntent.value.authorizedAt)
    && RollbackNames(d, i, call.now)
  }

  /** The request's rollback approval is authentic, names the accepted receipt, lasts four
      hours at most and is current. */
  predicate RollbackNames(d: Disk, i: Inputs, at: int) {
    && d.forward.receipt.Some? && i.v1Rollback.Some?
    && var b := i.v1Rollback.value;
    && b.genuine && b.plan == i.v1Plan && b.receipt == d.forward.receipt.value
    && b.expiresAt - b.issuedAt <= 14400000 && b.issuedAt <= at < b.expiresAt
  }

  /** Why the serving symlink moved: under exclusive locks, and never but between the
      origin and the plan's release. */
  predicate Moves(o: Origin, d0: Disk, held: Option<Mode>, q: Request, call: Call, d: Disk) {
    && held == Some(Write) && SwapWarrant(d0, q, call) && d.core == call.newPointer
    && (q.command == Apply ==> call.oldPointer == o.core)
    && (q.command == RollBack ==> call.newPointer == o.core)
  }

  /** The plan repeated by a canonical call is the request's, and its lineage links. */
  predicate OfRequest(q: Request, plan: Bootstrap) {
    && q.inputs.Some? && plan == q.inputs.value.plan
    && q.inputs.value.v1Plan.bootstrap == plan && q.inputs.value.v1Plan.supported
  }

  /** Why `prepare_forward` may write: from the plan's own predecessor, under an authentic
      approval current at the child's intent and now. */
  predicate ForwardWarrant(d: Disk, i: Inputs, intent: Intent, now: int) {
    && intent.own && intent.plan == i.plan
    && d.core == i.v1Plan.bootstrap.oldPointer && d.active == i.v1Plan.previous
    && i.v1Approval.genuine && i.v1Approval.plan == i.v1Plan
    && i.v1Approval.expiresAt - i.v1Approval.issuedAt <= 14400000
    && i.v1Approval.issuedAt <= intent.authorizedAt < i.v1Approval.expiresAt
    && i.v1Approval.issuedAt <= now < i.v1Approval.expiresAt
  }

  predicate AcceptanceWarrant(d: Disk, i: Inputs, at: int) {
    && d.core == i.v1Plan.bootstrap.newPointer && (d.pending.Some? ==> d.pending.value == OwnMarker)
    && d.forward.plan == Some(i.v1Plan) && d.forward.approval == Some(i.v1Approval) && d.forward.frozen.Some?
    && d.forward.mainIntent.Some? && d.forward.mainIntent.value.authorizedAt == at
  }

  predicate RollbackWarrant(d: Disk, i: Inputs, at: int, now: int) {
    && d.core == i.v1Plan.bootstrap.newPointer
    && d.forward.receipt.Some? && d.active == Some(Own(d.forward.receipt.value))
    && d.forward.receipt.value.plan == i.v1Plan
    && RollbackNames(d, i, at) && RollbackNames(d, i, now)
  }

  predicate ReturnWarrant(d: Disk, i: Inputs, at: int) {
    && d.core == i.v1Plan.bootstrap.oldPointer && (d.pending.Some? ==> d.pending.value == OwnMarker)
    && d.forward.receipt.Some?
    && d.rollback.mainIntent.Some? && d.rollback.mainIntent.value.authorizedAt == at
  }

  /** Why a direction may be declared without effect: the pointers stand where it found
      them, and what it recorded is this request's. */
  predicate IdleWarrant(d: Disk, i: Inputs, phase: Phase, intent: Intent) {
    && (d.pending.Some? ==> d.pending.value == OwnMarker)
    && (d.forward.plan.Some? ==> d.forward.plan.value == i.v1Plan)
    && (d.forward.approval.Some? ==> d.forward.approval.value == i.v1Approval)
    && (phase == Forward ==>
          && d.core == i.v1Plan.bootstrap.oldPointer && d.active == i.v1Plan.previous && d.forward.receipt.None?
          && (d.forward.intent.Some? ==>
                d.forward.intent.value == Binding(i.v1Plan, i.v1Approval, intent.authorizedAt))
          && (d.forward.mainIntent.Some? ==>
                d.forward.mainIntent.value == Binding(i.v1Plan, i.v1Approval, intent.authorizedAt))
          && (d.forward.noEffect.Some? ==> d.forward.noEffect.value == NoEffect(i.v1Plan, intent)))
    && (phase == Rollback ==>
          && d.core == i.v1Plan.bootstrap.newPointer
          && d.forward.receipt.Some? && d.active == Some(Own(d.forward.receipt.value))
          && d.forward.receipt.value.plan == i.v1Plan && d.rollback.rolledBack.None?
          && (d.rollback.intent.Some? ==>
                && d.rollback.approval.Some?
                && d.rollback.intent.value == Binding(i.v1Plan, d.rollback.approval.value, intent.authorizedAt))
          && (d.rollback.mainIntent.Some? ==>
                && d.rollback.approval.Some?
                && d.rollback.mainIntent.value == Binding(i.v1Plan, d.rollback.approval.value, intent.authorizedAt))
          && (d.rollback.noEffect.Some? ==> d.rollback.noEffect.value == NoEffect(i.v1Plan, intent)))
  }

  /** Only this operation's own residue is removed, for a recovery of the phase it names. */
  predicate ResidueWarrant(d: Disk, q: Request, call: Call) {
    && call.RecoverTemporary? && call.trusted && q.command == TerminalizeNoEffect
    && d.pending == Some(OwnMarker) && d.core == call.oldPointer && d.coreTemporary == Some(call.pendingTarget)
    && q.inputs.Some? && ChildIntends(d, q.inputs.value)
    && (q.phase == Some(Forward) || q.phase == Some(Rollback))
    && (q.phase == Some(Forward) ==>
          call.oldPointer == q.inputs.value.plan.oldPointer && call.pendingTarget == q.inputs.value.plan.newPointer)
    && (q.phase == Some(Rollback) ==>
          && call.oldPointer == q.inputs.value.plan.newPointer && call.pendingTarget == q.inputs.value.plan.oldPointer
          && d.native.passes == Some(true) && d.native.rollbackIntent.Some?
          && RollbackNames(d, q.inputs.value, d.native.rollbackIntent.value.authorizedAt))
  }

  /** Why a call may change anything at all. */
  predicate Warranted(d: Disk, q: Request, call: Call) {
    match call
    case PublishIntent(_) => d.native.intent.None?
    case PublishReceipt(_) => d.native.passes.None?
    case PublishRollbackIntent(_) => d.native.rollbackIntent.None?
    case PublishOther(leaf, _) =>
      && leaf in {0, 1, 2} && (leaf == 0 ==> d.native.rollbackReceipt.None?)
      && (leaf == 1 ==> d.native.terminalNoEffect.None?) && (leaf == 2 ==> d.native.rollbackNoEffect.None?)
    case CompareAndSwap(_, _, _, _) => SwapWarrant(d, q, call)
    case RecoverTemporary(_, _, _) => ResidueWarrant(d, q, call)
    case PrepareForwardCall(plan, intent, now) => OfRequest(q, plan) && ForwardWarrant(d, q.inputs.value, intent, now)
    case FinalizeForwardCall(plan, intent) =>
      OfRequest(q, plan) && AcceptanceWarrant(d, q.inputs.value, intent.authorizedAt)
    case PrepareRollbackCall(plan, intent, linked, now) =>
      OfRequest(q, plan) && linked && RollbackWarrant(d, q.inputs.value, intent.authorizedAt, now)
    case FinalizeRollbackCall(plan, intent) =>
      OfRequest(q, plan) && ReturnWarrant(d, q.inputs.value, intent.authorizedAt)
    case CloseNoEffectCall(plan, phase, intent) =>
      OfRequest(q, plan) && IdleWarrant(d, q.inputs.value, phase, intent)
    case _ => false
  }

  /** The pointer moved, but the receipt it must be accepted with was never frozen
      (or a broken temporary blocks the active pointer), and no rollback was armed. */
  predicate Wedged(o: Origin, d: Disk) {
    && Safe(o, d) && d.pending == Some(OwnMarker) && d.core != o.core && d.active == o.active
    && d.rollback.mainIntent.None? && !Completable(d)
  }

  predicate Stuck(o: Origin, d0: Disk, d: Disk) {
    Wedged(o, d0) ==> Wedged(o, d) && d.core == d0.core
  }

  /** A return of the previous active pointer was cut inside its temporary. */
  predicate TornBack(o: Origin, d: Disk) {
    && o.active.Some? && d.forward.receipt.Some? && d.active == Some(Own(d.forward.receipt.value))
    && d.activeTemporary == Some(Torn)
  }

  predicate StaysTorn(o: Origin, d0: Disk, d: Disk) {
    TornBack(o, d0) ==> TornBack(o, d)
  }

  lemma TornIsNotRevertible(o: Origin, d: Disk)
    requires Safe(o, d) && TornBack(o, d)
    ensures !Revertible(d) && d.active != o.active
  {
  }

  /** Neither half of a rollback reaches a wedged operation. */
  lemma RollbackLeavesStuck(o: Origin, d0: Disk, d: Disk)
    requires d != d0 ==> d0.rollback.mainIntent.Some? || (d0.active.Some? && d0.active.value.Own?)
    ensures Stuck(o, d0, d)
  {
  }

  /** Once the pointer has moved, the operation can be completed forward exactly
      when its receipt was frozen and nothing blocks the active pointer. */
  lemma CompletableIsEnough(o: Origin, d: Disk, i: Inputs)
    requires Safe(o, d) && d.pending == Some(OwnMarker) && d.core != o.core
    requires d.forward.plan == Some(i.v1Plan) && d.forward.approval == Some(i.v1Approval)
    ensures d.forward.mainIntent.Some?
    ensures MayFinalizeForward(d, Some(Write), i, d.forward.mainIntent.value.authorizedAt) <==> Completable(d)
  {
  }

  /** Once the pointer has moved back, the rollback can be completed exactly when
      nothing blocks the active pointer. */
  lemma RevertibleIsEnough(o: Origin, d: Disk, i: Inputs)
    requires Safe(o, d) && d.pending == Some(OwnMarker) && d.core == o.core && d.active != o.active
    requires d.forward.plan == Some(i.v1Plan)
    ensures d.rollback.mainIntent.Some?
    ensures MayFinalizeRollback(d, Some(Write), i, d.rollback.mainIntent.value.authorizedAt) <==> Revertible(d)
  {
  }

  /** The plan of a request names two different releases. */
  predicate Distinct(q: Request) {
    q.inputs.Some? ==> q.inputs.value.plan.oldPointer != q.inputs.value.plan.newPointer
  }

  /** Exactly which calls are answered with success, given power to finish them. */
  predicate Accepts(d: Disk, held: Option<Mode>, q: Request, call: Call) {
    match call
    case AcquireLocks(mode, quiet) => held.None? && quiet && Ours(d)
    case ReleaseLocks => held.Some?
    case Look(answered) => held.Some? && answered
    case CompareAndSwap(oldPointer, newPointer, trusted, now) =>
      && Authorized(d, q, oldPointer, newPointer, false, trusted, now)
      && Exclusive(held) && oldPointer != newPointer && d.core == oldPointer && d.coreTemporary.None?
    case RecoverTemporary(oldPointer, pendingTarget, trusted) =>
      && Authorized(d, q, oldPointer, pendingTarget, true, trusted, 0)
      && Exclusive(held) && oldPointer != pendingTarget && d.core == oldPointer && Free(d.coreTemporary, pendingTarget)
    case PrepareForwardCall(plan, intent, now) =>
      Canonical(q, plan) && MayPrepareForward(d, held, q.inputs.value, intent, now)
    case FinalizeForwardCall(plan, intent) =>
      Canonical(q, plan) && MayFinalizeForward(d, held, q.inputs.value, intent.authorizedAt)
    case PrepareRollbackCall(plan, intent, linked, now) =>
      Canonical(q, plan) && MayPrepareRollback(d, held, q.inputs.value, intent.authorizedAt, linked, now)
    case FinalizeRollbackCall(plan, intent) =>
      Canonical(q, plan) && MayFinalizeRollback(d, held, q.inputs.value, intent.authorizedAt)
    case CloseNoEffectCall(plan, phase, intent) =>
      Canonical(q, plan) && MayClose(d, held, q.inputs.value, phase, intent)
    case Unknown => false
    case _ => Exclusive(held) && Vacant(d.native, call)
  }

  /** A canonical call must repeat the request's own plan. */
  predicate Canonical(q: Request, plan: Bootstrap) {
    q.inputs.Some? && Linked(q.inputs.value) && plan == q.inputs.value.plan
  }

  /** The name a publication asks for is one of the six, and free. */
  predicate Vacant(n: NativeRecords, call: Call) {
    match call
    case PublishIntent(_) => n.intent.None?
    case PublishReceipt(_) => n.passes.None?
    case PublishRollbackIntent(_) => n.rollbackIntent.None?
    case PublishOther(leaf, _) =>
      leaf < 3
      && (if leaf == 0 then n.rollbackReceipt else if leaf == 1 then n.terminalNoEffect else n.rollbackNoEffect).None?
    case _ => false
  }

  predicate Publishes(call: Call) {
    call.PublishIntent? || call.PublishReceipt? || call.PublishRollbackIntent? || call.PublishOther?
  }

  /** What a publication adds to the child's records. */
  function Published(n: NativeRecords, call: Call): NativeRecords {
    match call
    case PublishIntent(record) => n.(intent := Some(record))
    case PublishReceipt(passes) => n.(passes := Some(passes))
    case PublishRollbackIntent(record) => n.(rollbackIntent := Some(record))
    case PublishOther(leaf, value) =>
      if leaf == 0 then n.(rollbackReceipt := Some(value))
      else if leaf == 1 then n.(terminalNoEffect := Some(value))
      else n.(rollbackNoEffect := Some(value))
    case _ => n
  }

  /** What an accepted call leaves on the disk, to the last leaf. */
  predicate Effected(d0: Disk, q: Request, call: Call, d: Disk) {
    match call
    case AcquireLocks(_, _) => d == d0
    case ReleaseLocks => d == d0
    case Look(_) => d == d0
    case PublishIntent(record) => d == d0.(native := d0.native.(intent := Some(record)))
    case PublishReceipt(passes) => d == d0.(native := d0.native.(passes := Some(passes)))
    case PublishRollbackIntent(record) => d == d0.(native := d0.native.(rollbackIntent := Some(record)))
    case PublishOther(leaf, value) =>
      && leaf in {0, 1, 2}
      && (leaf == 0 ==> d == d0.(native := d0.native.(rollbackReceipt := Some(value))))
      && (leaf == 1 ==> d == d0.(native := d0.native.(terminalNoEffect := Some(value))))
      && (leaf == 2 ==> d == d0.(native := d0.native.(rollbackNoEffect := Some(value))))
    case CompareAndSwap(_, newPointer, _, _) => d == d0.(core := newPointer, coreTemporary := None)
    case RecoverTemporary(_, _, _) => d == d0.(coreTemporary := None)
    case PrepareForwardCall(_, intent, _) =>
      q.inputs.Some? && d == PreparedForward(d0, q.inputs.value, intent.authorizedAt)
    case FinalizeForwardCall(_, _) =>
      d0.forward.frozen.Some? && d0.forward.plan.Some? && d == FinalizedForward(d0)
    case PrepareRollbackCall(_, intent, _, _) =>
      && q.inputs.Some? && q.inputs.value.v1Rollback.Some?
      && d == PreparedRollback(d0, q.inputs.value, intent.authorizedAt)
    case FinalizeRollbackCall(_, _) =>
      && d0.forward.plan.Some? && d0.forward.receipt.Some? && d0.rollback.mainIntent.Some?
      && d == FinalizedRollback(d0)
    case CloseNoEffectCall(_, phase, intent) =>
      q.inputs.Some? && d == Closed(d0, q.inputs.value, phase, intent)
    case Unknown => false
  }

  /** Three cuts of an acceptable call: `prepare_forward` before its last write, and
      both finalizations while the active pointer's temporary is half written. */
  predicate Interrupted(d0: Disk, q: Request, call: Call, power: nat, d: Disk) {
    && (call.PrepareForwardCall? && d0.forward.plan.None? && power == 5 ==>
          q.inputs.Some? && d == Unfrozen(PreparedForward(d0, q.inputs.value, call.intent.authorizedAt)))
    && (call.FinalizeForwardCall? && Unaccepted(d0) && power == 3 ==> d == TornForward(d0))
    && (call.FinalizeRollbackCall? && Returnable(d0) && d0.rollback.mainReceipt.None? && power == 2 ==>
          d == TornRollback(d0))
  }

  /** All that is promised of one answered call: records are written once, only an
      exclusive window writes, the pointers move only under this operation's marker,
      success is exactly acceptance and leaves exactly the call's effect, and a wedged
      or torn operation stays so. */
  predicate Answered(o: Origin, d0: Disk, held: Option<Mode>, q: Request, call: Call, power: nat, r: Status, d: Disk) {
    && Keeps(d0, d)
    && (d != d0 ==> held == Some(Write) && Warranted(d0, q, call))
    && (d.core != d0.core ==> Moves(o, d0, held, q, call, d))
    && (d.active != d0.active ==> d0.pending == Some(OwnMarker))
    && (!r.PowerLost? ==> (r.Ok? <==> Accepts(d0, held, q, call)))
    && (r.PowerLost? ==> power < 7)
    && (r.Ok? ==> Effected(d0, q, call, d))
    && (Accepts(d0, held, q, call) ==> Interrupted(d0, q, call, power, d))
    && Stuck(o, d0, d) && StaysTorn(o, d0, d)
  }

  /** A call that leaves the disk alone unless it is accepted, and then leaves exactly
      its effect away from the operation's own records, is answered as promised. */
  lemma PublicationAnswered(o: Origin, d: Disk, held: Option<Mode>, q: Request, call: Call, power: nat, r: Status)
    requires Publishes(call) && (r.PowerLost? ==> power == 0)
    requires !r.PowerLost? ==> (r.Ok? <==> Accepts(d, held, q, call))
    ensures !r.Ok? ==> Answered(o, d, held, q, call, power, r, d)
    ensures Safe(o, d) && r.Ok? ==> Answered(o, d, held, q, call, power, r, d.(native := Published(d.native, call)))
  {
    hide Safe;
    if Safe(o, d) && Accepts(d, held, q, call) {
      PublicationKeepsWedged(o, d, held, q, call);
    }
    hide Stuck;
  }

  /** The gate of the pointer calls is what it should be. */
  lemma GateIsWarrant(o: Origin, d: Disk, held: Option<Mode>, q: Request, call: Call)
    requires Safe(o, d) && Accepts(d, held, q, call)
    requires call.CompareAndSwap? || (call.RecoverTemporary? && d.coreTemporary.Some?)
    ensures Warranted(d, q, call)
  {
  }

  /** What a refused or cut call leaves: at most the symlink's own temporary. */
  lemma TemporaryAnswered(o: Origin, d0: Disk, held: Option<Mode>, q: Request, call: Call, power: nat, r: Status,
                          d: Disk)
    requires call.CompareAndSwap? || call.RecoverTemporary?
    requires Safe(o, d0) && d == d0.(coreTemporary := d.coreTemporary)
    requires d != d0 ==> Accepts(d0, held, q, call) && (call.RecoverTemporary? ==> d0.coreTemporary.Some?)
    requires (r.PowerLost? ==> power < 7) && (!r.PowerLost? ==> (r.Ok? <==> Accepts(d0, held, q, call)))
    requires r.Ok? ==> call.RecoverTemporary? && d.coreTemporary.None?
    ensures Answered(o, d0, held, q, call, power, r, d)
  {
    if d != d0 {
      GateIsWarrant(o, d0, held, q, call);
    }
    hide Authorized;
    hide Warranted;
  }

  /** What an accepted swap leaves. */
  lemma SwapAnswered(o: Origin, d: Disk, held: Option<Mode>, q: Request, call: Call, power: nat)
    requires Safe(o, d) && call.CompareAndSwap? && Accepts(d, held, q, call)
    ensures Answered(o, d, held, q, call, power, Ok, d.(core := call.newPointer, coreTemporary := None))
  {
    GateAgrees(o, d, q, call.oldPointer, call.newPointer, call.trusted, call.now);
    hide Authorized;
    hide ForwardRecorded;
    hide RollbackRecorded;
  }

  lemma PublicationKeepsWedged(o: Origin, d: Disk, held: Option<Mode>, q: Request, call: Call)
    requires Safe(o, d) && Publishes(call) && Accepts(d, held, q, call)
    ensures Stuck(o, d, d.(native := Published(d.native, call)))
  {
    NativeKeepsSafe(o, d, Published(d.native, call));
  }

  /** `HostRPC`: one request, one child, and the lock window it holds. */
  class HostRPC {
    const machine: Machine<Disk>
    const request: Request
    ghost const origin: Origin
    var held: Option<Mode>

    ghost predicate Valid()
      reads this, machine
    {
      Safe(origin, machine.disk) && Distinct(request)
    }

    constructor (machine: Machine<Disk>, request: Request, ghost origin: Origin)
      requires Safe(origin, machine.disk) && Distinct(request)
      ensures this.machine == machine && this.request == request && this.origin == origin
      ensures held.None? && Valid()
    {
      this.machine, this.request, this.origin, this.held := machine, request, origin, None;
    }

    /** `compare_and_swap_pointer`: a symlink beside the pointer, renamed over it. */
    method CompareAndSwapPointer(oldPointer: string, newPointer: string) returns (r: Status)
      requires Valid()
      requires machine.disk.core == oldPointer && oldPointer != newPointer ==>
                 Safe(origin, machine.disk.(core := newPointer, coreTemporary := None))
      modifies machine
      ensures Valid()
      ensures machine.disk == old(machine.disk).(core := machine.disk.core, coreTemporary := machine.disk.coreTemporary)
      ensures r.Ok? ==> machine.disk.core == newPointer && machine.disk.coreTemporary.None?
      ensures !r.Ok? ==> machine.disk == if r.PowerLost? && old(machine.power) == 1
                           then old(machine.disk).(coreTemporary := Some(newPointer)) else old(machine.disk)
      ensures !r.Refused? <==> (held == Some(Write) && oldPointer != newPointer && old(machine.disk).core == oldPointer
                                && old(machine.disk).coreTemporary.None?)
      ensures r.PowerLost? ==> old(machine.power) < 2
    {
      r := Ok;
      :- Need(Exclusive(held) && oldPointer != newPointer && machine.disk.core == oldPointer
              && machine.disk.coreTemporary.None?);
      assert Safe(origin, machine.disk.(core := newPointer, coreTemporary := None));
      :- machine.Put(machine.disk.(coreTemporary := Some(newPointer)));
      r := machine.Put(machine.disk.(core := newPointer, coreTemporary := None));
    }

    /** `recover_pointer_temporary`: only the exact expected residue may be removed. */
    method RecoverPointerTemporary(oldPointer: string, pendingTarget: string) returns (r: Status)
      requires Valid()
      modifies machine
      ensures Valid()
      ensures machine.disk == old(machine.disk).(coreTemporary := machine.disk.coreTemporary)
      ensures r.Ok? ==> machine.disk.coreTemporary.None?
      ensures machine.disk != old(machine.disk) ==>
                Exclusive(held) && old(machine.disk).coreTemporary == Some(pendingTarget)
      ensures r.Refused? ==> machine.disk == old(machine.disk)
      ensures r.Refused? <==> !(Exclusive(held) && oldPointer != pendingTarget && old(machine.disk).core == oldPointer
                                && Free(old(machine.disk).coreTemporary, pendingTarget))
      ensures r.PowerLost? ==> old(machine.power) == 0
    {
      r := Ok;
      :- Need(Exclusive(held) && machine.disk.core == oldPointer && oldPointer != pendingTarget);
      if machine.disk.coreTemporary.None? {
        return Ok;
      }
      :- Need(machine.disk.coreTemporary.value == pendingTarget);
      r := machine.Put(machine.disk.(coreTemporary := None));
    }

    method PublishExclusive(call: Call) returns (r: Status)
      requires Valid()
      modifies machine
      ensures Valid()
      ensures machine.disk == if r.Ok? then old(machine.disk).(native := Published(old(machine.disk).native, call))
                              else old(machine.disk)
      ensures r.Refused? <==> !(Exclusive(held) && Vacant(old(machine.disk).native, call))
      ensures r.PowerLost? ==> old(machine.power) == 0
      ensures r.Ok? ==> machine.power == old(machine.power) - 1
    {
      r := Ok;
      :- Need(Exclusive(held) && Vacant(machine.disk.native, call));
      NativeKeepsSafe(origin, machine.disk, Published(machine.disk.native, call));
      r := machine.Put(machine.disk.(native := Published(machine.disk.native, call)));
    }

    /** `publish_exclusive`: six names, each written at most once. */
    method PublishCall(call: Call) returns (r: Status)
      requires Valid() && Publishes(call)
      modifies machine
      ensures Valid()
      ensures Answered(origin, old(machine.disk), held, request, call, old(machine.power), r, machine.disk)
      ensures machine.disk == if r.Ok? then old(machine.disk).(native := Published(old(machine.disk).native, call))
                              else old(machine.disk)
      ensures r.PowerLost? ==> old(machine.power) == 0
      ensures r.Ok? ==> machine.power == old(machine.power) - 1
    {
      hide Answered;
      hide Safe;
      r := PublishExclusive(call);
      PublicationAnswered(origin, old(machine.disk), held, request, call, old(machine.power), r);
    }

    method PointerCall(call: Call) returns (r: Status)
      requires Valid()
      requires call.CompareAndSwap? || call.RecoverTemporary?
      modifies machine
      ensures Valid()
      ensures Answered(origin, old(machine.disk), held, request, call, old(machine.power), r, machine.disk)
    {
      hide Safe;
      hide Answered;
      match call {
        case CompareAndSwap(oldPointer, newPointer, trusted, now) =>
          r := Need(Authorized(machine.disk, request, oldPointer, newPointer, false, trusted, now));
          if r.Ok? {
            if machine.disk.core == oldPointer && oldPointer != newPointer {
              GateAgrees(origin, machine.disk, request, oldPointer, newPointer, trusted, now);
            }
            r := CompareAndSwapPointer(oldPointer, newPointer);
          }
          if r.Ok? {
            SwapAnswered(origin, old(machine.disk), held, request, call, old(machine.power));
            return;
          }
        case RecoverTemporary(oldPointer, pendingTarget, trusted) =>
          r := Need(Authorized(machine.disk, request, oldPointer, pendingTarget, true, trusted, 0));
          if r.Ok? {
            r := RecoverPointerTemporary(oldPointer, pendingTarget);
          }
        case _ =>
          r := Refused;
      }
      TemporaryAnswered(origin, old(machine.disk), held, request, call, old(machine.power), r, machine.disk);
    }

    /** `prepare_forward`, `finalize_forward` and `close_no_effect`. */
    method PerformForward(call: Call, i: Inputs) returns (r: Status)
      requires Valid() && request.inputs == Some(i) && Linked(i)
      requires call.PrepareForwardCall? || call.FinalizeForwardCall? || call.CloseNoEffectCall?
      requires call.plan == i.plan
      modifies machine
      ensures Valid()
      ensures Answered(origin, old(machine.disk), held, request, call, old(machine.power), r, machine.disk)
    {
      hide Safe;
      hide Stuck;
      hide MayPrepareForward;
      hide MayFinalizeForward;
      hide MayClose;
      match call
      case PrepareForwardCall(plan, intent, now) =>
        r := PrepareForward(machine, origin, held, i, intent, now);
      case FinalizeForwardCall(plan, intent) =>
        r := FinalizeForward(machine, origin, held, i, intent.authorizedAt);
      case CloseNoEffectCall(plan, phase, intent) =>
        r := CloseNoEffect(machine, origin, held, i, phase, intent);
    }

    /** `prepare_rollback` and `finalize_rollback`. */
    method PerformRollback(call: Call, i: Inputs) returns (r: Status)
      requires Valid() && request.inputs == Some(i) && Linked(i)
      requires call.PrepareRollbackCall? || call.FinalizeRollbackCall?
      requires call.plan == i.plan
      modifies machine
      ensures Valid()
      ensures Answered(origin, old(machine.disk), held, request, call, old(machine.power), r, machine.disk)
    {
      hide Safe;
      hide Stuck;
      hide MayPrepareRollback;
      hide MayFinalizeRollback;
      match call
      case PrepareRollbackCall(plan, intent, linked, now) =>
        r := PrepareRollback(machine, origin, held, i, intent.authorizedAt, linked, now);
        RollbackLeavesStuck(origin, old(machine.disk), machine.disk);
      case FinalizeRollbackCall(plan, intent) =>
        if TornBack(origin, machine.disk) {
          TornIsNotRevertible(origin, machine.disk);
        }
        r := FinalizeRollback(machine, origin, held, i, intent.authorizedAt);
        RollbackLeavesStuck(origin, old(machine.disk), machine.disk);
    }

    /** The plan argument must be the request's own, and the lineage must link. */
    method CanonicalCall(call: Call) returns (r: Status)
      requires Valid()
      requires call.PrepareForwardCall? || call.FinalizeForwardCall? || call.PrepareRollbackCall?
               || call.FinalizeRollbackCall? || call.CloseNoEffectCall? || call.Unknown?
      modifies machine
      ensures Valid()
      ensures Answered(origin, old(machine.disk), held, request, call, old(machine.power), r, machine.disk)
    {
      r := Ok;
      :- Need(!call.Unknown? && Canonical(request, call.plan));
      hide *;
      if call.PrepareRollbackCall? || call.FinalizeRollbackCall? {
        r := PerformRollback(call, request.inputs.value);
      } else {
        r := PerformForward(call, request.inputs.value);
      }
    }

    /** The calls that need a lock window. */
    method Effect(call: Call) returns (r: Status)
      requires Valid()
      requires !call.AcquireLocks? && !call.ReleaseLocks? && !call.Look? && held.Some?
      modifies machine
      ensures Valid()
      ensures Answered(origin, old(machine.disk), held, request, call, old(machine.power), r, machine.disk)
      ensures r.Ok? && Publishes(call) ==> machine.power == old(machine.power) - 1
    {
      hide Safe;
      hide Answered;
      if Publishes(call) {
        r := PublishCall(call);
      } else if call.CompareAndSwap? || call.RecoverTemporary? {
        r := PointerCall(call);
      } else {
        r := CanonicalCall(call);
      }
    }

    /** `dispatch`: any call, at any time. */
    method Dispatch(call: Call) returns (r: Status)
      requires Valid()
      modifies this, machine
      ensures Valid()
      ensures Answered(origin, old(machine.disk), old(held), request, call, old(machine.power), r, machine.disk)
      ensures if r.Ok? && call.AcquireLocks? then held == Some(call.mode)
              else if r.Ok? && call.ReleaseLocks? then held.None?
              else held == old(held)
      ensures call.AcquireLocks? ==> machine.power == old(machine.power)
      ensures r.Ok? && Publishes(call) ==> machine.power == old(machine.power) - 1
    {
      hide Safe;
      hide Wedged;
      hide Moves;
      hide Authorized;
      if call.AcquireLocks? {
        :- Need(held.None? && call.quiet && Ours(machine.disk));
        held := Some(call.mode);
        return Ok;
      }
      :- Need(held.Some?);
      if call.ReleaseLocks? {
        held := None;
        return Ok;
      }
      if call.Look? {
        return Need(call.answered);
      }
      r := Effect(call);
    }
  }

  /** One request: its calls in order, and the durable writes before power fails.
      A refused call is answered and the child goes on; power loss ends the window. */
  datatype Session = Session(request: Request, calls: seq<Call>, power: nat)

  /** The promise to whoever looks at the host between windows. */
  predicate Consistent(o: Origin, d: Disk) {
    && (d.pending != Some(OwnMarker) ==> IsOld(o, d) || IsNew(d))
    && (d.core != o.core ==> Intended(d) && d.forward.plan.Some? && d.core == d.forward.plan.value.bootstrap.newPointer)
    && (d.core == o.core && d.active != o.active ==> d.pending == Some(OwnMarker) && d.rollback.mainIntent.Some?)
  }

  method Serve(machine: Machine<Disk>, s: Session, ghost o: Origin)
    requires Safe(o, machine.disk) && Distinct(s.request)
    modifies machine
    ensures Safe(o, machine.disk) && Stuck(o, old(machine.disk), machine.disk)
    ensures StaysTorn(o, old(machine.disk), machine.disk)
  {
    machine.power := s.power;
    var host := new HostRPC(machine, s.request, o);
    for i := 0 to |s.calls|
      invariant host.machine == machine && host.origin == o && fresh(host)
      invariant host.Valid() && Stuck(o, old(machine.disk), machine.disk)
      invariant StaysTorn(o, old(machine.disk), machine.disk)
    {
      hide Safe;
      hide Wedged;
      hide Moves;
      hide Accepts;
      var r := host.Dispatch(s.calls[i]);
      if r.PowerLost? {
        break;
      }
    }
  }

  /** Nothing of this operation is on disk. */
  predicate Untouched(o: Origin, d: Disk) {
    && (o.active.Some? ==> o.active.value.Other?)
    && IsOld(o, d) && d.pending != Some(OwnMarker)
    && d.forward == ForwardLeaves(None, None, None, None, None, None, None, None)
    && d.rollback == RollbackLeaves(None, None, None, None, None, None)
  }

  /** Any calls over any requests, with power lost anywhere, leave the two pointers
      consistent. */
  method Run(machine: Machine<Disk>, sessions: seq<Session>, ghost o: Origin)
    requires Untouched(o, machine.disk)
    requires forall s :: s in sessions ==> Distinct(s.request)
    modifies machine
    ensures Consistent(o, machine.disk)
  {
    for i := 0 to |sessions|
      invariant Safe(o, machine.disk)
    {
      Serve(machine, sessions[i], o);
    }
  }

  /** A wedged operation stays wedged, whatever is sent: no call completes it,
      cancels it, or moves the pointer back. */
  method StayWedged(machine: Machine<Disk>, sessions: seq<Session>, ghost o: Origin)
    requires Wedged(o, machine.disk)
    requires forall s :: s in sessions ==> Distinct(s.request)
    modifies machine
    ensures Wedged(o, machine.disk) && machine.disk.core == old(machine.disk).core
  {
    for i := 0 to |sessions|
      invariant Wedged(o, machine.disk) && machine.disk.core == old(machine.disk).core
    {
      Serve(machine, sessions[i], o);
    }
  }

  /** A torn return is never made good: whatever is sent, the previous active pointer
      does not come back, and no `finalize_rollback` is accepted. */
  method StayTornBack(machine: Machine<Disk>, sessions: seq<Session>, ghost o: Origin)
    requires Safe(o, machine.disk) && TornBack(o, machine.disk)
    requires forall s :: s in sessions ==> Distinct(s.request)
    modifies machine
    ensures Safe(o, machine.disk) && TornBack(o, machine.disk)
    ensures machine.disk.active != o.active && !Revertible(machine.disk)
  {
    for i := 0 to |sessions|
      invariant Safe(o, machine.disk) && TornBack(o, machine.disk)
    {
      Serve(machine, sessions[i], o);
    }
    TornIsNotRevertible(o, machine.disk);
  }

  /** A call the host accepts, sent while power lasts. */
  method Deliver(host: HostRPC, call: Call)
    requires host.Valid() && Accepts(host.machine.disk, host.held, host.request, call)
    requires !call.ReleaseLocks?
    modifies host, host.machine
    ensures host.Valid() && Effected(old(host.machine.disk), host.request, call, host.machine.disk)
    ensures host.held == if call.AcquireLocks? then Some(call.mode) else old(host.held)
  {
    hide Safe;
    hide Answered;
    host.machine.power := 7;
    var r := host.Dispatch(call);
    Success(host.origin, old(host.machine.disk), old(host.held), host.request, call, 7, r, host.machine.disk);
  }

  lemma Success(o: Origin, d0: Disk, held: Option<Mode>, q: Request, call: Call, power: nat, r: Status, d: Disk)
    requires Answered(o, d0, held, q, call, power, r, d) && Accepts(d0, held, q, call)
    ensures Interrupted(d0, q, call, power, d)
    ensures power >= 7 ==> r.Ok? && Effected(d0, q, call, d)
  {
  }

  /** A new request whose child has taken the locks exclusively. */
  method Enter(machine: Machine<Disk>, q: Request, ghost o: Origin) returns (host: HostRPC)
    requires Safe(o, machine.disk) && Distinct(q) && Ours(machine.disk)
    ensures fresh(host) && host.machine == machine && host.request == q && host.origin == o
    ensures host.Valid() && host.held == Some(Write) && machine.disk == old(machine.disk)
    modifies machine
  {
    host := new HostRPC(machine, q, o);
    Deliver(host, AcquireLocks(Write, true));
  }

  /** A host where nothing of this operation, and no residue, stands. */
  predicate Pristine(o: Origin, d: Disk) {
    && Untouched(o, d) && d.pending.None? && d.coreTemporary.None? && d.activeTemporary.None?
    && d.native == NativeRecords(None, None, None, None, None, None)
  }

  /** What a child needs to carry `intent` through `prepare_forward` and the swap. */
  predicate MayAnnounce(o: Origin, d: Disk, i: Inputs, intent: Intent, now: int) {
    && Pristine(o, d) && i.v1Plan.bootstrap == i.plan && i.v1Plan.supported && i.plan.oldPointer != i.plan.newPointer
    && ForwardWarrant(d, i, intent, now)
    && intent.oldPointer == i.plan.oldPointer && intent.newPointer == i.plan.newPointer
  }

  function Intending(d: Disk, intent: Intent): Disk {
    d.(native := d.native.(intent := Some(intent)))
  }

  /** The child's intent, then `prepare_forward`. */
  method Announce(machine: Machine<Disk>, i: Inputs, intent: Intent, now: int, ghost o: Origin) returns (host: HostRPC)
    requires MayAnnounce(o, machine.disk, i, intent, now)
    modifies machine
    ensures fresh(host) && host.machine == machine && host.request == Request(Apply, None, Some(i)) && host.origin == o
    ensures host.Valid() && host.held == Some(Write)
    ensures machine.disk == PreparedForward(Intending(old(machine.disk), intent), i, intent.authorizedAt)
  {
    host := Enter(machine, Request(Apply, None, Some(i)), o);
    Deliver(host, PublishIntent(intent));
    Deliver(host, PrepareForwardCall(i.plan, intent, now));
  }

  /** An armed operation's swap is accepted. */
  lemma ArmedMaySwap(d: Disk, i: Inputs, intent: Intent, now: int)
    requires Linked(i) && i.plan.oldPointer != i.plan.newPointer && d.core == i.plan.oldPointer && d.coreTemporary.None?
    requires d.native.intent == Some(intent) && intent.plan == i.plan
    requires intent.oldPointer == i.plan.oldPointer && intent.newPointer == i.plan.newPointer
    requires ValidApproval(i.v1Plan, i.v1Approval, intent.authorizedAt) && ValidApproval(i.v1Plan, i.v1Approval, now)
    requires d.pending == Some(OwnMarker) && d.forward.mainIntent == Some(ForwardBinding(i, intent.authorizedAt))
    requires d.forward.plan == Some(i.v1Plan) && d.forward.approval == Some(i.v1Approval)
    ensures Accepts(d, Some(Write), Request(Apply, None, Some(i)),
                    CompareAndSwap(i.plan.oldPointer, i.plan.newPointer, true, now))
  {
  }

  /** Wedging is reachable: `prepare_forward` cut before its last write, then an
      apply request whose child swaps the pointer at once. */
  method Wedge(machine: Machine<Disk>, i: Inputs, intent: Intent, now: int, ghost o: Origin)
    requires MayAnnounce(o, machine.disk, i, intent, now)
    modifies machine
    ensures Wedged(o, machine.disk) && machine.disk.forward.frozen.None?
  {
    var q := Request(Apply, None, Some(i));
    var host := Enter(machine, q, o);
    Deliver(host, PublishIntent(intent));
    ghost var d := machine.disk;
    machine.power := 5;
    var r := host.Dispatch(PrepareForwardCall(i.plan, intent, now));
    Success(o, d, Some(Write), q, PrepareForwardCall(i.plan, intent, now), 5, r, machine.disk);
    hide Answered;
    host := Enter(machine, q, o);
    ArmedMaySwap(machine.disk, i, intent, now);
    Deliver(host, CompareAndSwap(i.plan.oldPointer, i.plan.newPointer, true, now));
  }

  /** So is wedging by a torn temporary: the acceptance of a swapped pointer is cut
      while the new active pointer is being written beside the old one. */
  method WedgeByTear(machine: Machine<Disk>, i: Inputs, intent: Intent, now: int, ghost o: Origin)
    requires MayAnnounce(o, machine.disk, i, intent, now) && o.active.Some?
    modifies machine
    ensures Wedged(o, machine.disk) && machine.disk.forward.frozen.Some? && machine.disk.activeTemporary == Some(Torn)
  {
    var host := Announce(machine, i, intent, now, o);
    ArmedMaySwap(machine.disk, i, intent, now);
    Deliver(host, CompareAndSwap(i.plan.oldPointer, i.plan.newPointer, true, now));
    ghost var d := machine.disk;
    machine.power := 3;
    hide Answered;
    var r := host.Dispatch(FinalizeForwardCall(i.plan, intent));
    Success(o, d, Some(Write), host.request, FinalizeForwardCall(i.plan, intent), 3, r, machine.disk);
  }

  /** The pristine disk carried forward to acceptance, with the child's own receipt. */
  function Forthright(d: Disk, i: Inputs, intent: Intent): Disk {
    var p := PreparedForward(Intending(d, intent), i, intent.authorizedAt);
    p.(core := i.plan.newPointer, active := Some(Own(Receipt(i.v1Plan, i.v1Approval, intent.authorizedAt))),
       pending := None,
       forward := p.forward.(mainReceipt := p.forward.mainIntent, receipt := p.forward.frozen),
       native := p.native.(passes := Some(true)))
  }

  /** The swap, the acceptance, and the child's own receipt. */
  method GoForth(machine: Machine<Disk>, i: Inputs, intent: Intent, now: int, ghost o: Origin)
    requires MayAnnounce(o, machine.disk, i, intent, now)
    modifies machine
    ensures Safe(o, machine.disk) && machine.disk == Forthright(old(machine.disk), i, intent)
  {
    var host := Announce(machine, i, intent, now, o);
    ArmedMaySwap(machine.disk, i, intent, now);
    Deliver(host, CompareAndSwap(i.plan.oldPointer, i.plan.newPointer, true, now));
    hide Safe;
    Deliver(host, FinalizeForwardCall(i.plan, intent));
    Deliver(host, PublishReceipt(true));
  }

  /** An accepted operation may be taken back under the approval of its receipt. */
  predicate MayUndo(i: Inputs, intent: Intent, undo: Intent, later: int) {
    && i.v1Rollback.Some?
    && var b := i.v1Rollback.value;
    && b.genuine && b.plan == i.v1Plan && b.receipt == Receipt(i.v1Plan, i.v1Approval, intent.authorizedAt)
    && b.expiresAt - b.issuedAt <= 14400000
    && b.issuedAt <= undo.authorizedAt < b.expiresAt && b.issuedAt <= later < b.expiresAt
  }

  /** An armed rollback's swap is accepted. */
  lemma ArmedMaySwapBack(d: Disk, i: Inputs, intent: Intent, undo: Intent, later: int)
    requires Linked(i) && i.plan.oldPointer != i.plan.newPointer && d.core == i.plan.newPointer && d.coreTemporary.None?
    requires d.native.intent == Some(intent) && intent.plan == i.plan && d.native.passes == Some(true)
    requires intent.oldPointer == i.plan.oldPointer && intent.newPointer == i.plan.newPointer
    requires ValidApproval(i.v1Plan, i.v1Approval, intent.authorizedAt) && MayUndo(i, intent, undo, later)
    requires d.native.rollbackIntent == Some(undo) && d.pending == Some(OwnMarker)
    requires d.rollback.mainIntent == Some(RollbackBinding(i, undo.authorizedAt))
    requires d.forward.receipt == Some(Receipt(i.v1Plan, i.v1Approval, intent.authorizedAt))
    ensures Accepts(d, Some(Write), Request(RollBack, None, Some(i)),
                    CompareAndSwap(i.plan.newPointer, i.plan.oldPointer, true, later))
  {
  }

  /** The accepted disk, its rollback armed and its symlink swapped back. */
  function Rearward(d: Disk, i: Inputs, intent: Intent, undo: Intent): Disk
    requires i.v1Rollback.Some?
  {
    var f := Forthright(d, i, intent);
    var announced := f.(native := f.native.(rollbackIntent := Some(undo)));
    PreparedRollback(announced, i, undo.authorizedAt).(core := i.plan.oldPointer)
  }

  /** Forward to acceptance, then the calls of a rollback up to its finalization. */
  method TurnBack(machine: Machine<Disk>, i: Inputs, intent: Intent, now: int, undo: Intent, later: int,
                  ghost o: Origin)
    returns (host: HostRPC)
    requires MayAnnounce(o, machine.disk, i, intent, now) && MayUndo(i, intent, undo, later)
    modifies machine
    ensures fresh(host) && host.machine == machine && host.origin == o
    ensures host.request == Request(RollBack, None, Some(i)) && host.Valid() && host.held == Some(Write)
    ensures machine.disk == Rearward(old(machine.disk), i, intent, undo)
  {
    GoForth(machine, i, intent, now, o);
    host := Enter(machine, Request(RollBack, None, Some(i)), o);
    hide Safe;
    hide Untouched;
    Deliver(host, PublishRollbackIntent(undo));
    Deliver(host, PrepareRollbackCall(i.plan, undo, true, later));
    ArmedMaySwapBack(machine.disk, i, intent, undo, later);
    Deliver(host, CompareAndSwap(i.plan.newPointer, i.plan.oldPointer, true, later));
  }

  /** An accepted operation, and then its rollback, put both pointers back where they
      were, with the records of both kept. The completed rollback does not stop the
      same forward operation from being prepared again. */
  method ForthAndBack(machine: Machine<Disk>, i: Inputs, intent: Intent, now: int, undo: Intent, later: int,
                      ghost o: Origin)
    requires MayAnnounce(o, machine.disk, i, intent, now) && MayUndo(i, intent, undo, later)
    modifies machine
    ensures IsOld(o, machine.disk) && machine.disk.pending.None?
    ensures machine.disk.forward.receipt.Some? && machine.disk.rollback.rolledBack.Some?
    ensures MayPrepareForward(machine.disk, Some(Write), i, intent, now)
  {
    var host := TurnBack(machine, i, intent, now, undo, later, o);
    hide Safe;
    Deliver(host, FinalizeRollbackCall(i.plan, undo));
  }

  /** The same rollback cut while it writes the previous active pointer beside the
      accepted one: the return is torn. */
  method TearBack(machine: Machine<Disk>, i: Inputs, intent: Intent, now: int, undo: Intent, later: int,
                  ghost o: Origin)
    requires MayAnnounce(o, machine.disk, i, intent, now) && MayUndo(i, intent, undo, later) && o.active.Some?
    modifies machine
    ensures Safe(o, machine.disk) && TornBack(o, machine.disk)
    ensures machine.disk == TornRollback(Rearward(old(machine.disk), i, intent, undo))
  {
    var host := TurnBack(machine, i, intent, now, undo, later, o);
    hide Safe;
    hide Answered;
    ghost var d := machine.disk;
    machine.power := 2;
    var r := host.Dispatch(FinalizeRollbackCall(i.plan, undo));
    Success(o, d, Some(Write), host.request, FinalizeRollbackCall(i.plan, undo), 2, r, machine.disk);
  }

  /** A way on from a torn return: forward again, while the approval lasts. */
  method ForthAgain(machine: Machine<Disk>, i: Inputs, intent: Intent, now: int, undo: Intent, later: int,
                        ghost d: Disk, ghost o: Origin)
    requires MayAnnounce(o, d, i, intent, now) && MayUndo(i, intent, undo, later) && o.active.Some?
    requires machine.disk == TornRollback(Rearward(d, i, intent, undo)) && Safe(o, machine.disk)
    modifies machine
    ensures IsNew(machine.disk) && machine.disk.pending.None? && TornBack(o, machine.disk)
  {
    var host := Enter(machine, Request(Apply, None, Some(i)), o);
    ArmedMaySwap(machine.disk, i, intent, now);
    Deliver(host, CompareAndSwap(i.plan.oldPointer, i.plan.newPointer, true, now));
    hide Safe;
    Deliver(host, FinalizeForwardCall(i.plan, intent));
  }

  /** Nor does a cancellation: an announced operation is declared without effect, and
      then prepared again, with its no-effect record still on disk. */
  method CancelAndPrepareAgain(machine: Machine<Disk>, i: Inputs, intent: Intent, now: int, ghost o: Origin)
    requires MayAnnounce(o, machine.disk, i, intent, now)
    modifies machine
    ensures machine.disk.pending == Some(OwnMarker) && machine.disk.forward.noEffect == Some(NoEffect(i.v1Plan, intent))
  {
    var host := Announce(machine, i, intent, now, o);
    host := Enter(machine, Request(TerminalizeNoEffect, None, Some(i)), o);
    hide Safe;
    Deliver(host, CloseNoEffectCall(i.plan, Forward, intent));
    assert machine.disk.pending.None? && machine.disk.forward.noEffect.Some?;
    host := Enter(machine, Request(Apply, None, Some(i)), o);
    Deliver(host, PrepareForwardCall(i.plan, intent, now));
  }
}
