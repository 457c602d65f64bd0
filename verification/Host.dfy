/** The durable state of a LeetPlus host as the controller handoff sees it, and
    the atomic writes of `control_handoff.py`. */
module Host {

  import opened Power

  /** The direction of an invocation; each has its own leaves. */
  datatype Action = Apply | Rollback

  /** The two effects of a handoff: the refresh unit and the serving symlink. */
  datatype Side = Unit | Main

  /** A signed approval or permit. `genuine` is what its signature and field
      checks decide from its bytes; a rollback names the receipt it undoes.
      SHA-256 is taken to be injective, so wherever a record stores the digest
      of another record the model stores that record. */
  datatype Envelope = Envelope(serial: nat, issuedAt: int, expiresAt: int, genuine: bool, undoes: Option<Receipt>)

  datatype Binding = Binding(operationId: string, envelope: Envelope, authorizedAt: int)

  datatype Receipt =
    | Receipt(operationId: string, envelope: Envelope, acceptedAt: int)
    | BridgeReceipt(binding: Binding, acceptedAt: int)

  datatype Pointer = Pointer(operationId: string, receipt: Receipt)

  datatype Reason = SignedRollback | ExpiredBeforeAcceptance | PostcheckFailed

  datatype Terminal = Terminal(binding: Binding, reason: Reason)

  datatype Plan = Plan(operationId: string,
                       oldMain: string, newMain: string,
                       oldUnit: string, newUnit: string,
                       previous: Option<Pointer>,
                       profileBootstrap: bool)

  /** The two leaves `phase_effect` writes around one effect. */
  datatype Phase = Phase(intent: Option<Binding>, receipt: Option<Binding>)

  /** The write-once leaves of one direction: its envelope, its intent, its phases. */
  datatype Trail = Trail(approval: Option<Envelope>, intent: Option<Binding>, unit: Phase, main: Phase)

  const BLANK := Trail(None, None, Phase(None, None), Phase(None, None))

  datatype Disk = Disk(core: string, unit: string,
                       pointer: Option<Pointer>, pending: Option<string>,
                       apply: Trail, rollback: Trail,
                       prepared: Option<Receipt>,
                       receipt: Option<Receipt>,
                       rolledBack: Option<Terminal>)

  /** A plan is written by `prepare` or `bridge_prepare`: the releases differ and
      the operation id is fresh, so the previous pointer names someone else. */
  predicate WellPlanned(plan: Plan) {
    && plan.oldMain != plan.newMain
    && (plan.previous.Some? ==> plan.previous.value.operationId != plan.operationId)
  }

  predicate AllOld(plan: Plan, d: Disk) {
    d.core == plan.oldMain && d.unit == plan.oldUnit && d.pointer == plan.previous
  }

  predicate AllNew(plan: Plan, d: Disk) {
    && d.core == plan.newMain && d.unit == plan.newUnit
    && d.receipt.Some?
    && d.pointer == Some(Pointer(plan.operationId, d.receipt.value))
  }

  predicate TrailKept(was: Trail, is': Trail) {
    && Once(was.approval, is'.approval) && Once(was.intent, is'.intent)
    && Once(was.unit.intent, is'.unit.intent) && Once(was.unit.receipt, is'.unit.receipt)
    && Once(was.main.intent, is'.main.intent) && Once(was.main.receipt, is'.main.receipt)
  }

  /** Records are immutable: whatever `d0` has recorded, `d` still has. */
  predicate Keeps(d0: Disk, d: Disk) {
    && TrailKept(d0.apply, d.apply) && TrailKept(d0.rollback, d.rollback)
    && Once(d0.prepared, d.prepared) && Once(d0.receipt, d.receipt) && Once(d0.rolledBack, d.rolledBack)
  }

  /** An invocation adds records, and only to its own direction. */
  predicate Advances(d0: Disk, d: Disk, action: Action) {
    Keeps(d0, d) && if action == Apply then d.rollback == d0.rollback else d.apply == d0.apply
  }

  function Current(d: Disk, side: Side): string {
    if side == Main then d.core else d.unit
  }

  function Moved(d: Disk, side: Side, to: string): Disk {
    if side == Main then d.(core := to) else d.(unit := to)
  }

  function TrailOf(d: Disk, action: Action): Trail {
    if action == Apply then d.apply else d.rollback
  }

  function WithTrail(d: Disk, action: Action, t: Trail): Disk {
    if action == Apply then d.(apply := t) else d.(rollback := t)
  }

  function PhaseOf(d: Disk, action: Action, side: Side): Phase {
    if side == Main then TrailOf(d, action).main else TrailOf(d, action).unit
  }

  function WithPhase(d: Disk, action: Action, side: Side, p: Phase): Disk {
    var t := TrailOf(d, action);
    WithTrail(d, action, if side == Main then t.(main := p) else t.(unit := p))
  }

  /** The three steps of `phase_effect`: its intent, the effect, its receipt. */
  function Intended(d: Disk, action: Action, side: Side, binding: Binding): Disk {
    WithPhase(d, action, side, PhaseOf(d, action, side).(intent := Some(binding)))
  }

  function Receipted(d: Disk, action: Action, side: Side, binding: Binding): Disk {
    WithPhase(d, action, side, PhaseOf(d, action, side).(receipt := Some(binding)))
  }

  function PhaseDisk(d: Disk, action: Action, side: Side, binding: Binding, after: string, writes: nat): Disk {
    if writes == 0 then d
    else if writes == 1 then Intended(d, action, side, binding)
    else if writes == 2 then Moved(Intended(d, action, side, binding), side, after)
    else Receipted(Moved(Intended(d, action, side, binding), side, after), action, side, binding)
  }

  /** `phase_effect` may start from the preimage, or resume at the postimage of
      an effect whose intent is already on disk. */
  predicate PhaseMay(d: Disk, action: Action, side: Side, before: string, after: string) {
    || Current(d, side) == before
    || (PhaseOf(d, action, side).intent.Some? && Current(d, side) == after)
  }

  /** The longest validity window of an approval or permit, in milliseconds. */
  const LONGEST := 4 * 3600000

  /** A direction's leaves all repeat the authority its intent was published
      under, which names the envelope published before it. */
  predicate Bound(plan: Plan, t: Trail) {
    && (t.intent.None? ==> t.unit == BLANK.unit && t.main == BLANK.main)
    && (t.intent.Some? ==>
          && t.intent.value.operationId == plan.operationId
          && t.approval == Some(t.intent.value.envelope)
          && Free(t.unit.intent, t.intent.value) && Free(t.unit.receipt, t.intent.value)
          && Free(t.main.intent, t.intent.value) && Free(t.main.receipt, t.intent.value))
  }

  /** One phase is announced, done and receipted before the other begins. */
  predicate Precedes(first: Phase, second: Phase) {
    && (second.intent.Some? ==> first.receipt.Some?)
    && (first.receipt.Some? ==> first.intent.Some?) && (second.receipt.Some? ==> second.intent.Some?)
  }

  /** Both phases of a direction run under its one intent. */
  predicate UnderIntent(t: Trail) {
    (t.unit.intent.Some? ==> t.unit.intent == t.intent) && (t.main.intent.Some? ==> t.main.intent == t.intent)
  }

  function Other(side: Side): Side {
    if side == Main then Unit else Main
  }

  /** The second phase of a direction begins only once the first has its receipt, and
      a phase is receipted only after it was announced. */
  predicate InOrder(d: Disk, action: Action, first: Side) {
    && (PhaseOf(d, action, Other(first)).intent.Some? ==> PhaseOf(d, action, first).receipt.Some?)
    && (PhaseOf(d, action, first).receipt.Some? ==> PhaseOf(d, action, first).intent.Some?)
    && (PhaseOf(d, action, Other(first)).receipt.Some? ==> PhaseOf(d, action, Other(first)).intent.Some?)
  }

  /** The phase is the first of its direction, or the first is done. */
  predicate MayBegin(d: Disk, action: Action, first: Side, side: Side) {
    side == first || PhaseOf(d, action, first).receipt.Some?
  }

  predicate HasPhaseIntent(t: Trail) {
    t.unit.intent.Some? || t.main.intent.Some?
  }

  function Old(plan: Plan, side: Side): string {
    if side == Main then plan.oldMain else plan.oldUnit
  }

  function New(plan: Plan, side: Side): string {
    if side == Main then plan.newMain else plan.newUnit
  }

  function Before(plan: Plan, action: Action, side: Side): string {
    if action == Rollback then New(plan, side) else Old(plan, side)
  }

  function After(plan: Plan, action: Action, side: Side): string {
    if action == Rollback then Old(plan, side) else New(plan, side)
  }

  method PublishApproval(m: Machine<Disk>, action: Action, envelope: Envelope) returns (r: Status)
    modifies m
    ensures m.disk ==
              if r.Ok? then WithTrail(old(m.disk), action, TrailOf(old(m.disk), action).(approval := Some(envelope)))
                    else old(m.disk)
    ensures r.Refused? <==> !Free(TrailOf(old(m.disk), action).approval, envelope)
    ensures r.PowerLost? ==> old(m.power) == 0
    ensures m.power == if TrailOf(old(m.disk), action).approval.Some? || old(m.power) == 0 then old(m.power)
                       else old(m.power) - 1
  {
    var t := TrailOf(m.disk, action);
    r := m.Publish(t.approval, envelope, WithTrail(m.disk, action, t.(approval := Some(envelope))));
  }

  method PublishIntent(m: Machine<Disk>, action: Action, binding: Binding) returns (r: Status)
    modifies m
    ensures m.disk ==
              if r.Ok? then WithTrail(old(m.disk), action, TrailOf(old(m.disk), action).(intent := Some(binding)))
                    else old(m.disk)
    ensures r.Refused? <==> !Free(TrailOf(old(m.disk), action).intent, binding)
    ensures r.PowerLost? ==> old(m.power) == 0
    ensures m.power == if TrailOf(old(m.disk), action).intent.Some? || old(m.power) == 0 then old(m.power)
                       else old(m.power) - 1
  {
    var t := TrailOf(m.disk, action);
    r := m.Publish(t.intent, binding, WithTrail(m.disk, action, t.(intent := Some(binding))));
  }

  method PublishReceipt(m: Machine<Disk>, receipt: Receipt) returns (r: Status)
    modifies m
    ensures m.disk == if r.Ok? then old(m.disk).(receipt := Some(receipt)) else old(m.disk)
    ensures r.Refused? <==> !Free(old(m.disk).receipt, receipt)
    ensures r.PowerLost? ==> old(m.power) == 0
    ensures old(m.power) - 1 <= m.power <= old(m.power)
  {
    r := m.Publish(m.disk.receipt, receipt, m.disk.(receipt := Some(receipt)));
  }

  method PublishPrepared(m: Machine<Disk>, receipt: Receipt) returns (r: Status)
    modifies m
    ensures m.disk == if r.Ok? then old(m.disk).(prepared := Some(receipt)) else old(m.disk)
    ensures r.Refused? <==> !Free(old(m.disk).prepared, receipt)
    ensures r.PowerLost? ==> old(m.power) == 0
    ensures old(m.power) - 1 <= m.power <= old(m.power)
  {
    r := m.Publish(m.disk.prepared, receipt, m.disk.(prepared := Some(receipt)));
  }

  method PublishRolledBack(m: Machine<Disk>, terminal: Terminal) returns (r: Status)
    modifies m
    ensures m.disk == if r.Ok? then old(m.disk).(rolledBack := Some(terminal)) else old(m.disk)
    ensures r.Refused? <==> !Free(old(m.disk).rolledBack, terminal)
    ensures r.PowerLost? ==> old(m.power) == 0
    ensures old(m.power) - 1 <= m.power <= old(m.power)
  {
    r := m.Publish(m.disk.rolledBack, terminal, m.disk.(rolledBack := Some(terminal)));
  }

  method PublishPending(m: Machine<Disk>, operationId: string) returns (r: Status)
    modifies m
    ensures m.disk == if r.Ok? then old(m.disk).(pending := Some(operationId)) else old(m.disk)
    ensures r.Refused? <==> !Free(old(m.disk).pending, operationId)
    ensures r.PowerLost? ==> old(m.power) == 0
    ensures m.power == if old(m.disk).pending.Some? || old(m.power) == 0 then old(m.power) else old(m.power) - 1
  {
    r := m.Publish(m.disk.pending, operationId, m.disk.(pending := Some(operationId)));
  }

  /** `finish_pending`: only this operation's marker may be removed. */
  method FinishPending(m: Machine<Disk>, operationId: string) returns (r: Status)
    modifies m
    ensures r.Ok? ==> m.disk == old(m.disk).(pending := None)
    ensures !r.Ok? ==> m.disk == old(m.disk)
    ensures r.Refused? <==> old(m.disk).pending.Some? && old(m.disk).pending != Some(operationId)
    ensures r.PowerLost? ==> old(m.power) == 0
    ensures old(m.power) - 1 <= m.power <= old(m.power)
  {
    if m.disk.pending.Some? {
      :- Need(m.disk.pending.value == operationId);
      r := m.Put(m.disk.(pending := None));
    } else {
      r := Ok;
    }
  }

  /** The accepted pointer is replaced by compare-and-swap on its own bytes. */
  method SetPointer(m: Machine<Disk>, next: Pointer) returns (r: Status)
    modifies m
    ensures r.Ok? ==> m.disk == old(m.disk).(pointer := Some(next))
    ensures !r.Ok? ==> m.disk == old(m.disk)
    ensures !r.Refused?
    ensures r.PowerLost? ==> old(m.power) == 0
    ensures old(m.power) - 1 <= m.power <= old(m.power)
  {
    if m.disk.pointer == Some(next) {
      return Ok;
    }
    r := m.Put(m.disk.(pointer := Some(next)));
  }

  /** `restore_pointer`: only the previous pointer, this operation's accepted
      receipt or its prepared receipt may be replaced. */
  method RestorePointer(m: Machine<Disk>, plan: Plan) returns (r: Status)
    modifies m
    ensures r.Ok? ==> m.disk == old(m.disk).(pointer := plan.previous)
    ensures !r.Ok? ==> m.disk == old(m.disk)
    ensures r.Refused? <==> (var p := old(m.disk).pointer;
                             p.Some? && p != plan.previous
                             && !(old(m.disk).receipt.Some?
                                  && p.value == Pointer(plan.operationId, old(m.disk).receipt.value))
                             && !(old(m.disk).prepared.Some?
                                  && p.value == Pointer(plan.operationId, old(m.disk).prepared.value)))
    ensures r.PowerLost? ==> old(m.power) == 0
    ensures old(m.power) - 1 <= m.power <= old(m.power)
  {
    var current := m.disk.pointer;
    if current.Some? && current != plan.previous {
      var accepted := m.disk.receipt.Some? && current.value == Pointer(plan.operationId, m.disk.receipt.value);
      var prepared := m.disk.prepared.Some? && current.value == Pointer(plan.operationId, m.disk.prepared.value);
      :- Need(accepted || prepared);
    }
    if current == plan.previous {
      return Ok;
    }
    r := m.Put(m.disk.(pointer := plan.previous));
  }

  /** `switch_main` and the unit's `atomic_bytes`: a compare-and-swap that does
      nothing when the target is already in place. */
  method Switch(m: Machine<Disk>, side: Side, expected: string, target: string) returns (r: Status)
    modifies m
    ensures r.Ok? ==> m.disk == Moved(old(m.disk), side, target)
    ensures !r.Ok? ==> m.disk == old(m.disk)
    ensures r.Refused? <==> Current(old(m.disk), side) != target && Current(old(m.disk), side) != expected
    ensures r.PowerLost? ==> old(m.power) == 0 && Current(old(m.disk), side) != target
    ensures m.power == if r.Ok? && Current(old(m.disk), side) != target then old(m.power) - 1 else old(m.power)
  {
    if Current(m.disk, side) == target {
      return Ok;
    }
    :- Need(Current(m.disk, side) == expected);
    r := m.Put(Moved(m.disk, side, target));
  }

  method PublishPhaseIntent(m: Machine<Disk>, action: Action, side: Side, binding: Binding) returns (r: Status)
    modifies m
    ensures m.disk == if r.Ok? then Intended(old(m.disk), action, side, binding) else old(m.disk)
    ensures PhaseOf(m.disk, action, side).receipt == PhaseOf(old(m.disk), action, side).receipt
    ensures Current(m.disk, side) == Current(old(m.disk), side)
    ensures r.Refused? <==> !Free(PhaseOf(old(m.disk), action, side).intent, binding)
    ensures PhaseOf(old(m.disk), action, side).intent.None? ==> r == if old(m.power) == 0 then PowerLost else Ok
    ensures r.PowerLost? ==> old(m.power) == 0
    ensures m.power == if PhaseOf(old(m.disk), action, side).intent.Some? || old(m.power) == 0 then old(m.power)
                       else old(m.power) - 1
  {
    r := m.Publish(PhaseOf(m.disk, action, side).intent, binding, Intended(m.disk, action, side, binding));
  }

  method PublishPhaseReceipt(m: Machine<Disk>, action: Action, side: Side, binding: Binding) returns (r: Status)
    modifies m
    ensures m.disk == if r.Ok? then Receipted(old(m.disk), action, side, binding) else old(m.disk)
    ensures r.Refused? <==> !Free(PhaseOf(old(m.disk), action, side).receipt, binding)
    ensures PhaseOf(old(m.disk), action, side).receipt.None? ==> r == if old(m.power) == 0 then PowerLost else Ok
    ensures r.PowerLost? ==> old(m.power) == 0
    ensures old(m.power) - 1 <= m.power <= old(m.power)
  {
    r := m.Publish(PhaseOf(m.disk, action, side).receipt, binding, Receipted(m.disk, action, side, binding));
  }

  method SwitchPhase(m: Machine<Disk>, action: Action, side: Side, expected: string, target: string) returns (r: Status)
    requires Current(m.disk, side) != target
    modifies m
    ensures m.disk == if r.Ok? then Moved(old(m.disk), side, target) else old(m.disk)
    ensures PhaseOf(m.disk, action, side) == PhaseOf(old(m.disk), action, side)
    ensures r.Refused? <==> Current(old(m.disk), side) != expected
    ensures Current(old(m.disk), side) == expected ==> r == if old(m.power) == 0 then PowerLost else Ok
    ensures m.power == if r.Ok? then old(m.power) - 1 else old(m.power)
  {
    r := Switch(m, side, expected, target);
  }

  /** `phase_effect`: intent, effect, receipt. It refuses an effect that no
      intent announced, and however it stops the intent precedes the effect. */
  method PhaseEffect(m: Machine<Disk>, action: Action, side: Side, binding: Binding, before: string, after: string)
    returns (r: Status, ghost writes: nat)
    modifies m
    ensures writes <= 3 && m.disk == PhaseDisk(old(m.disk), action, side, binding, after, writes)
    ensures writes > 0 ==> Free(PhaseOf(old(m.disk), action, side).intent, binding)
    ensures writes > 0 ==> PhaseMay(old(m.disk), action, side, before, after)
    ensures writes > 2 ==> Free(PhaseOf(old(m.disk), action, side).receipt, binding)
    ensures r.Ok? ==> writes == 3
    ensures r.Refused? ==>
              || !Free(PhaseOf(old(m.disk), action, side).intent, binding)
              || !Free(PhaseOf(old(m.disk), action, side).receipt, binding)
              || !PhaseMay(old(m.disk), action, side, before, after)
    ensures r.PowerLost? ==> old(m.power) < 3
    ensures (&& Current(old(m.disk), side) == before != after
             && PhaseOf(old(m.disk), action, side) == Phase(None, None)) ==>
              writes == if old(m.power) < 3 then old(m.power) else 3
    ensures (&& old(m.power) == 1 && Current(old(m.disk), side) == before
             && PhaseOf(old(m.disk), action, side) == Phase(None, None)) ==>
              r.PowerLost? && m.disk == Intended(old(m.disk), action, side, binding)
    ensures old(m.power) - 3 <= m.power <= old(m.power)
  {
    writes := 0;
    var intent := PhaseOf(m.disk, action, side).intent;
    if intent.Some? {
      :- Need(intent.value == binding);
    }
    var observed := Current(m.disk, side);
    :- Need(observed == before || (intent.Some? && observed == after));
    hide WithPhase;
    hide PhaseOf;
    :- PublishPhaseIntent(m, action, side, binding);
    writes := 1;
    if observed != after {
      :- SwitchPhase(m, action, side, before, after);
    }
    writes := 2;
    :- PublishPhaseReceipt(m, action, side, binding);
    writes := 3;
    r := Ok;
  }
}
