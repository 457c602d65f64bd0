/** The initial introduction, `standalone-initial-intro.py`: the same at-most-once
    discipline as the transport, with the terminal bytes persisted as a marker just
    before the last dormant leaf, so that a later finalizer invents nothing. */
module Intro {
  import opened Files
  import opened Power

  /** Payload and dormant leaves are known by content. The last dormant leaf, the
      install lock, is empty, so creating it completes it. */
  datatype Plan = Plan(payload: seq<nat>, folders: nat, sourceReceipt: nat, dormant: seq<nat>, absentParents: nat,
                       serial: nat)

  datatype Approval = Approval(plan: Plan, window: Window)

  datatype Intent = Intent(plan: Plan, approval: Approval, authorizedAt: int)

  datatype GenerationReceipt = GenerationReceipt(intent: Intent, installedAt: int)

  /** The terminal record: first the marker, then the receipt, byte for byte. */
  datatype Receipt = Receipt(intent: Intent, generation: GenerationReceipt, dormant: seq<nat>, acceptedAt: int)

  datatype Generation = Generation(payload: bool, folders: nat, leaves: seq<File<nat>>,
                                   receipt: Option<File<GenerationReceipt>>, source: Option<File<nat>>)

  datatype Audit = Audit(plan: Option<File<Plan>>, approval: Option<File<Approval>>, intent: Option<File<Intent>>,
                         marker: Option<File<Receipt>>, receipt: Option<File<Receipt>>)

  datatype FinalizePlan = FinalizePlan(intent: Intent, marker: Receipt)

  datatype FinalizeApproval = FinalizeApproval(plan: FinalizePlan, window: Window)

  datatype FinalizeIntent = FinalizeIntent(plan: FinalizePlan, approval: FinalizeApproval, authorizedAt: int)

  datatype Disk = Disk(flat: Option<File<Intent>>, parents: nat, audit: Option<Audit>,
                       staging: Option<Generation>, target: Option<Generation>,
                       dormant: seq<File<nat>>, lock: bool, finalizing: Option<File<FinalizeIntent>>)

  /** Clock readings of the three stretches of `apply`, the native lock, and whether
      the predecessor still serves at each comparison. */
  datatype Env = Env(clock: nat -> int, building: nat -> int, closing: nat -> int, lock: bool,
                     atStart: bool, beforeRename: bool, afterDormant: bool, afterLock: bool)

  const NO_LEAVES := Audit(None, None, None, None, None)

  function WithAudit(d: Disk, a: Audit): Disk {
    d.(audit := Some(a))
  }

  function Built(intent: Intent, installedAt: int): Generation {
    Generation(true, intent.plan.folders, Leaves(intent.plan.payload),
               Filled(GenerationReceipt(intent, installedAt)), Filled(intent.plan.sourceReceipt))
  }

  function TerminalRecord(intent: Intent, installedAt: int, acceptedAt: int): Receipt {
    Receipt(intent, GenerationReceipt(intent, installedAt), intent.plan.dormant, acceptedAt)
  }

  /** The tree of an uninterrupted run. */
  function Final(intent: Intent, installedAt: int, acceptedAt: int, finalizing: Option<File<FinalizeIntent>>): Disk {
    var generation := GenerationReceipt(intent, installedAt);
    var receipt := Filled(Receipt(intent, generation, intent.plan.dormant, acceptedAt));
    Disk(Filled(intent), intent.plan.absentParents,
         Some(Audit(Filled(intent.plan), Filled(intent.approval), Filled(intent), receipt, receipt)),
         None, Some(Generation(true, intent.plan.folders, Leaves(intent.plan.payload), Filled(generation),
                               Filled(intent.plan.sourceReceipt))),
         Leaves(intent.plan.dormant), true, finalizing)
  }

  function WithReceipt(d: Disk, receipt: Option<File<Receipt>>): Disk
    requires d.audit.Some?
  {
    WithAudit(d, d.audit.value.(receipt := receipt))
  }

  /** The same tree before the install lock, with its marker as given. */
  function Unlocked(f: Disk, marker: Option<File<Receipt>>): Disk
    requires f.audit.Some?
  {
    f.(lock := false, audit := Some(f.audit.value.(marker := marker, receipt := None)))
  }

  predicate Clean(plan: Plan, d: Disk) {
    && d.flat.None? && d.audit.None? && d.staging.None? && d.target.None?
    && d.dormant == [] && !d.lock && d.parents == 0
  }

  predicate IsBuilt(intent: Intent, g: Generation) {
    g.receipt.Some? && g.receipt.value.Whole? && g == Built(intent, g.receipt.value.value.installedAt)
  }

  /** A cut before the marker: each thing is there only if what is written before it
      is whole. */
  predicate Early(intent: Intent, d: Disk) {
    && d.flat.Some? && AtMost(d.flat, intent) && !d.lock
    && (d.audit.Some? ==>
          && d.flat == Filled(intent) && d.parents == intent.plan.absentParents
          && var a := d.audit.value;
          && AtMost(a.plan, intent.plan) && AtMost(a.approval, intent.approval) && AtMost(a.intent, intent)
          && (a.approval.Some? ==> a.plan == Filled(intent.plan))
          && (a.intent.Some? ==> a.approval == Filled(intent.approval))
          && a.marker.None? && a.receipt.None?)
    && (d.staging.Some? || d.target.Some? ==> d.audit.Some? && d.audit.value.intent == Filled(intent))
    && (d.target.Some? ==> d.staging.None? && IsBuilt(intent, d.target.value))
    && (d.dormant != [] ==> d.target.Some?)
  }

  /** The records were begun while the approval was in force, by the clock reading just
      before each; `clock`, `building` and `closing` are those of three stretches. */
  ghost predicate RecordedInForce(window: Window, clock: nat -> int, d: Disk) {
    && (d.flat.Some? ==> InForce(window, clock(2)))
    && (forall k :: 7 <= k < 7 + d.parents ==> InForce(window, clock(k)))
    && (d.audit.Some? ==>
          && InForce(window, clock(3))
          && (d.audit.value.plan.Some? ==> InForce(window, clock(4)))
          && (d.audit.value.approval.Some? ==> InForce(window, clock(5)))
          && (d.audit.value.intent.Some? ==> InForce(window, clock(6))))
  }

  /** So was everything in the generation. */
  ghost predicate BuiltInForce(plan: Plan, window: Window, building: nat -> int, g: Generation) {
    && InForce(window, building(0))
    && (g.payload ==> InForce(window, building(1)))
    && (forall k :: 5 <= k < 5 + g.folders ==> InForce(window, building(k)))
    && forall k :: 5 + plan.folders <= k < 5 + plan.folders + |g.leaves| ==> InForce(window, building(k))
  }

  /** And everything from the generation's own receipt on. */
  ghost predicate ClosedInForce(window: Window, closing: nat -> int, d: Disk) {
    && (d.staging.Some? && d.staging.value.receipt.Some? ==> InForce(window, closing(1)))
    && (d.staging.Some? && d.staging.value.source.Some? ==> InForce(window, closing(2)))
    && (d.target.Some? ==> InForce(window, closing(1)) && InForce(window, closing(2)) && InForce(window, closing(3)))
    && (forall k :: 9 <= k < 9 + |d.dormant| ==> InForce(window, closing(k)))
    && (d.audit.Some? && d.audit.value.marker.Some? ==> InForce(window, closing(4)) && InForce(window, closing(5)))
    && (d.lock ==> InForce(window, closing(6)))
    && (d.audit.Some? && d.audit.value.receipt.Some? ==> InForce(window, closing(7)))
  }

  ghost predicate WrittenInForce(plan: Plan, window: Window, env: Env, d: Disk) {
    && RecordedInForce(window, env.clock, d) && ClosedInForce(window, env.closing, d)
    && (d.staging.Some? ==> BuiltInForce(plan, window, env.building, d.staging.value))
    && (d.target.Some? ==> BuiltInForce(plan, window, env.building, d.target.value))
  }

  method ApplyIntent(m: Machine<Disk>, intent: Intent, clock: nat -> int) returns (r: Status)
    requires Clean(intent.plan, m.disk)
    modifies m
    ensures RecordedInForce(intent.approval.window, clock, m.disk)
    ensures m.disk == old(m.disk) || Early(intent, m.disk)
    ensures m.disk == old(m.disk).(flat := m.disk.flat, parents := m.disk.parents)
    ensures r.Ok? ==>
              m.disk == Disk(Filled(intent), intent.plan.absentParents, None, None, None, [], false,
                             old(m.disk).finalizing)
    ensures r.Refused? ==> exists k :: !InForce(intent.approval.window, clock(k))
    ensures r.PowerLost? ==> old(m.power) < 2 + intent.plan.absentParents
    ensures m.power >= old(m.power) - 2 - intent.plan.absentParents
  {
    r := Ok;
    :- Need(Live(intent.approval.window, clock(2)));
    :- m.Write(m.disk.(flat := Some(Torn)), m.disk.(flat := Filled(intent)));
    for i := 0 to intent.plan.absentParents
      invariant m.disk == Disk(Filled(intent), i, None, None, None, [], false, old(m.disk).finalizing)
      invariant m.power >= old(m.power) - 2 - i
      invariant RecordedInForce(intent.approval.window, clock, m.disk)
    {
      :- Need(Live(intent.approval.window, clock(7 + i)));
      :- m.Put(m.disk.(parents := i + 1));
    }
    return Ok;
  }

  method ApplyAudit(m: Machine<Disk>, intent: Intent, clock: nat -> int) returns (r: Status)
    requires Early(intent, m.disk) && m.disk.audit.None? && m.disk.target.None? && m.disk.staging.None?
    requires m.disk.flat == Filled(intent) && m.disk.parents == intent.plan.absentParents
    requires RecordedInForce(intent.approval.window, clock, m.disk)
    modifies m
    ensures RecordedInForce(intent.approval.window, clock, m.disk)
    ensures Early(intent, m.disk) && m.disk == old(m.disk).(audit := m.disk.audit)
    ensures r.Ok? ==>
              m.disk.audit == Some(Audit(Filled(intent.plan), Filled(intent.approval), Filled(intent), None, None))
    ensures r.Refused? ==> exists k :: !InForce(intent.approval.window, clock(k))
    ensures r.PowerLost? ==> old(m.power) < 7
    ensures m.power >= old(m.power) - 7
  {
    r := Ok;
    :- Need(Live(intent.approval.window, clock(3)));
    :- m.Put(WithAudit(m.disk, NO_LEAVES));
    :- Need(Live(intent.approval.window, clock(4)));
    :- m.Write(WithAudit(m.disk, NO_LEAVES.(plan := Some(Torn))),
               WithAudit(m.disk, NO_LEAVES.(plan := Filled(intent.plan))));
    :- Need(Live(intent.approval.window, clock(5)));
    var a := m.disk.audit.value;
    :- m.Write(WithAudit(m.disk, a.(approval := Some(Torn))),
               WithAudit(m.disk, a.(approval := Filled(intent.approval))));
    :- Need(Live(intent.approval.window, clock(6)));
    a := m.disk.audit.value;
    r := m.Write(WithAudit(m.disk, a.(intent := Some(Torn))), WithAudit(m.disk, a.(intent := Filled(intent))));
  }

  /** All of the records. */
  method Record(m: Machine<Disk>, intent: Intent, env: Env) returns (r: Status)
    requires Clean(intent.plan, m.disk)
    modifies m
    ensures m.disk == old(m.disk) || Early(intent, m.disk)
    ensures m.disk == old(m.disk).(flat := m.disk.flat, parents := m.disk.parents, audit := m.disk.audit)
    ensures m.disk != old(m.disk) ==> m.disk.flat.Some?
    ensures WrittenInForce(intent.plan, intent.approval.window, env, m.disk)
    ensures r.Ok? ==>
              && m.disk.flat == Filled(intent) && m.disk.parents == intent.plan.absentParents
              && m.disk.audit == Some(Audit(Filled(intent.plan), Filled(intent.approval), Filled(intent), None, None))
    ensures r.Refused? ==> exists k :: !InForce(intent.approval.window, env.clock(k))
    ensures r.PowerLost? ==> old(m.power) < 9 + intent.plan.absentParents
    ensures m.power >= old(m.power) - 9 - intent.plan.absentParents
  {
    r := Ok;
    :- ApplyIntent(m, intent, env.clock);
    r := ApplyAudit(m, intent, env.clock);
  }

  function Building(d: Disk, folders: nat, leaves: seq<File<nat>>): Disk {
    d.(staging := Some(Generation(true, folders, leaves, None, None)))
  }

  method BuildFolders(m: Machine<Disk>, intent: Intent, clock: nat -> int) returns (r: Status)
    requires Early(intent, m.disk) && m.disk.staging.None? && m.disk.target.None?
    requires m.disk.audit.Some? && m.disk.audit.value.intent == Filled(intent)
    modifies m
    ensures Early(intent, m.disk)
    ensures m.disk.staging.Some? ==> BuiltInForce(intent.plan, intent.approval.window, clock, m.disk.staging.value)
    ensures if m.disk.staging.None? then m.disk == old(m.disk)
            else m.disk.staging.value.folders <= intent.plan.folders
                 && m.disk in {Begun(old(m.disk)), Building(old(m.disk), m.disk.staging.value.folders, [])}
    ensures r.Ok? ==> m.disk == Building(old(m.disk), intent.plan.folders, [])
    ensures r.Refused? ==> exists k :: !InForce(intent.approval.window, clock(k))
    ensures r.PowerLost? ==> old(m.power) < 2 + intent.plan.folders
    ensures m.power >= old(m.power) - 2 - intent.plan.folders
  {
    LiveInForce(intent.approval.window);
    hide Live;
    hide InForce;
    :- Need(Live(intent.approval.window, clock(0)));
    :- m.Put(Begun(m.disk));
    :- Need(Live(intent.approval.window, clock(1)));
    :- m.Put(Building(m.disk, 0, []));
    for i := 0 to intent.plan.folders
      invariant m.disk == Building(old(m.disk), i, [])
      invariant m.power >= old(m.power) - 2 - i
      invariant BuiltInForce(intent.plan, intent.approval.window, clock, m.disk.staging.value)
    {
      :- Need(Live(intent.approval.window, clock(5 + i)));
      :- m.Put(Building(m.disk, i + 1, []));
    }
    return Ok;
  }

  function Begun(d: Disk): Disk {
    d.(staging := Some(Generation(false, 0, [], None, None)))
  }

  method BuildPayload(m: Machine<Disk>, intent: Intent, clock: nat -> int) returns (r: Status)
    requires Early(intent, m.disk) && m.disk.staging.None? && m.disk.target.None?
    requires m.disk.audit.Some? && m.disk.audit.value.intent == Filled(intent)
    modifies m
    ensures Early(intent, m.disk) && m.disk == old(m.disk).(staging := m.disk.staging)
    ensures m.disk.staging.Some? ==>
              && m.disk.staging.value.receipt.None? && m.disk.staging.value.source.None?
              && BuiltInForce(intent.plan, intent.approval.window, clock, m.disk.staging.value)
    ensures r.Ok? ==> m.disk == Building(old(m.disk), intent.plan.folders, Leaves(intent.plan.payload))
    ensures r.Refused? ==> exists k :: !InForce(intent.approval.window, clock(k))
    ensures r.PowerLost? ==> old(m.power) < 2 + intent.plan.folders + 2 * |intent.plan.payload|
    ensures m.power >= old(m.power) - 2 - intent.plan.folders - 2 * |intent.plan.payload|
  {
    var payload := intent.plan.payload;
    LiveInForce(intent.approval.window);
    hide Live;
    hide InForce;
    :- BuildFolders(m, intent, clock);
    assert Leaves(payload[..0]) == [];
    for i := 0 to |payload|
      invariant m.disk == Building(old(m.disk), intent.plan.folders, Leaves(payload[..i]))
      invariant m.power >= old(m.power) - 2 - intent.plan.folders - 2 * i
      invariant BuiltInForce(intent.plan, intent.approval.window, clock, m.disk.staging.value)
    {
      assert Leaves(payload[..i]) + [Whole(payload[i])] == Leaves(payload[..i + 1]);
      :- Need(Live(intent.approval.window, clock(5 + intent.plan.folders + i)));
      :- m.Write(Building(m.disk, intent.plan.folders, Leaves(payload[..i]) + [Torn]),
                  Building(m.disk, intent.plan.folders, Leaves(payload[..i]) + [Whole(payload[i])]));
    }
    assert payload[..|payload|] == payload;
    return Ok;
  }

  /** The generation's own receipts and its rename. */
  method PublishGeneration(m: Machine<Disk>, intent: Intent, env: Env) returns (r: Status)
    requires Early(intent, m.disk) && m.disk.target.None? && m.disk.dormant == []
    requires m.disk.staging == Some(Generation(true, intent.plan.folders, Leaves(intent.plan.payload), None, None))
    requires ClosedInForce(intent.approval.window, env.closing, m.disk)
    modifies m
    ensures ClosedInForce(intent.approval.window, env.closing, m.disk)
    ensures Early(intent, m.disk) && m.disk == old(m.disk).(staging := m.disk.staging, target := m.disk.target)
    ensures m.disk.staging.Some? ==>
              m.disk.staging.value == old(m.disk).staging.value.(receipt := m.disk.staging.value.receipt,
                                                                 source := m.disk.staging.value.source)
    ensures r.Ok? ==>
              env.beforeRename && m.disk.staging.None? && m.disk.target == Some(Built(intent, env.closing(0)))
    ensures r.Refused? ==> !env.beforeRename || exists k :: !InForce(intent.approval.window, env.closing(k))
    ensures r.PowerLost? ==> old(m.power) < 5
    ensures m.power >= old(m.power) - 5
  {
    var window := intent.approval.window;
    var g := m.disk.staging.value;
    LiveInForce(window);
    hide Live;
    hide InForce;
    var generation := GenerationReceipt(intent, env.closing(0));
    :- Need(Live(window, env.closing(1)));
    :- m.Write(m.disk.(staging := Some(g.(receipt := Some(Torn)))),
               m.disk.(staging := Some(g.(receipt := Filled(generation)))));
    :- Need(Live(window, env.closing(2)));
    g := m.disk.staging.value;
    :- m.Write(m.disk.(staging := Some(g.(source := Some(Torn)))),
               m.disk.(staging := Some(g.(source := Filled(intent.plan.sourceReceipt)))));
    :- Need(env.beforeRename && Live(window, env.closing(3)));
    r := m.Put(m.disk.(target := m.disk.staging, staging := None));
  }

  /** The generation's own receipts, its rename, and the dormant leaves but the last. */
  method InstallDormant(m: Machine<Disk>, intent: Intent, env: Env) returns (r: Status)
    requires Early(intent, m.disk) && m.disk.target.None? && m.disk.dormant == []
    requires m.disk.staging == Some(Generation(true, intent.plan.folders, Leaves(intent.plan.payload), None, None))
    requires ClosedInForce(intent.approval.window, env.closing, m.disk)
    modifies m
    ensures ClosedInForce(intent.approval.window, env.closing, m.disk)
    ensures Early(intent, m.disk)
    ensures m.disk == old(m.disk).(staging := m.disk.staging, target := m.disk.target, dormant := m.disk.dormant)
    ensures m.disk.staging.Some? ==>
              m.disk.staging.value == old(m.disk).staging.value.(receipt := m.disk.staging.value.receipt,
                                                                 source := m.disk.staging.value.source)
    ensures r.Ok? ==> env.beforeRename && env.afterDormant
                      && m.disk.staging.None? && m.disk.target == Some(Built(intent, env.closing(0)))
                      && m.disk.dormant == Leaves(intent.plan.dormant)
    ensures r.Refused? ==>
              !env.beforeRename || !env.afterDormant || exists k :: !InForce(intent.approval.window, env.closing(k))
    ensures r.PowerLost? ==> old(m.power) < 5 + 2 * |intent.plan.dormant|
    ensures m.power >= old(m.power) - 5 - 2 * |intent.plan.dormant|
  {
    var window, dormant := intent.approval.window, intent.plan.dormant;
    LiveInForce(window);
    hide Live;
    hide InForce;
    :- PublishGeneration(m, intent, env);
    assert Leaves(dormant[..0]) == [];
    for i := 0 to |dormant|
      invariant m.disk == old(m.disk).(staging := None, target := Some(Built(intent, env.closing(0))),
                                       dormant := Leaves(dormant[..i]))
      invariant m.power >= old(m.power) - 5 - 2 * i
      invariant ClosedInForce(window, env.closing, m.disk)
    {
      assert Leaves(dormant[..i]) + [Whole(dormant[i])] == Leaves(dormant[..i + 1]);
      :- Need(Live(window, env.closing(9 + i)));
      :- m.Write(m.disk.(dormant := Leaves(dormant[..i]) + [Torn]),
                 m.disk.(dormant := Leaves(dormant[..i]) + [Whole(dormant[i])]));
    }
    assert dormant[..|dormant|] == dormant;
    return Need(env.afterDormant);
  }

  /** The generation from its directories to the dormant leaves but the last. */
  method Generate(m: Machine<Disk>, intent: Intent, env: Env) returns (r: Status)
    requires Early(intent, m.disk) && m.disk.staging.None? && m.disk.target.None? && m.disk.dormant == []
    requires m.disk.audit == Some(Audit(Filled(intent.plan), Filled(intent.approval), Filled(intent), None, None))
    requires WrittenInForce(intent.plan, intent.approval.window, env, m.disk)
    modifies m
    ensures Early(intent, m.disk)
    ensures m.disk == old(m.disk).(staging := m.disk.staging, target := m.disk.target, dormant := m.disk.dormant)
    ensures WrittenInForce(intent.plan, intent.approval.window, env, m.disk)
    ensures r.Ok? ==> env.beforeRename && env.afterDormant
                      && m.disk.staging.None? && m.disk.target == Some(Built(intent, env.closing(0)))
                      && m.disk.dormant == Leaves(intent.plan.dormant)
    ensures r.Refused? ==>
              || !env.beforeRename || !env.afterDormant
              || (exists k :: !InForce(intent.approval.window, env.building(k)))
              || exists k :: !InForce(intent.approval.window, env.closing(k))
    ensures r.PowerLost? ==>
              old(m.power) < 7 + intent.plan.folders + 2 * |intent.plan.payload| + 2 * |intent.plan.dormant|
    ensures m.power >= old(m.power) - 7 - intent.plan.folders - 2 * |intent.plan.payload| - 2 * |intent.plan.dormant|
  {
    r := Ok;
    hide InForce;
    :- BuildPayload(m, intent, env.building);
    ghost var built := m.disk.staging.value;
    r := InstallDormant(m, intent, env);
    assert m.disk.target.Some? ==> m.disk.target.value.(receipt := None, source := None) == built;
    assert m.disk.staging.Some? ==> m.disk.staging.value.(receipt := None, source := None) == built;
  }

  /** `pending_terminal`: the timely marker and the entire postimage. */
  predicate Terminal(intent0: Intent, d: Disk, requireReceipt: bool) {
    && d.audit.Some? && d.target.Some? && d.staging.None? && d.lock
    && var a, g := d.audit.value, d.target.value;
    && a.plan.Some? && a.approval.Some? && a.intent.Some? && a.intent.value.Whole?
    && var intent := a.intent.value.value;
    && intent.plan == intent0.plan && intent.approval == intent0.approval && d.flat == a.intent
    && a.marker.Some? && a.marker.value.Whole? && (a.receipt.Some? <==> requireReceipt)
    && g.receipt.Some? && g.receipt.value.Whole?
    && var marker, generation := a.marker.value.value, g.receipt.value.value;
    && g == Built(intent, generation.installedAt) && d.parents == intent.plan.absentParents
    && d.dormant == Leaves(intent.plan.dormant)
    && marker == TerminalRecord(intent, generation.installedAt, marker.acceptedAt)
    && intent.authorizedAt <= generation.installedAt <= marker.acceptedAt
    && Live(intent.approval.window, intent.authorizedAt) && Live(intent.approval.window, marker.acceptedAt)
    && (requireReceipt ==> a.receipt == a.marker)
  }

  /** What a cut of `apply` can leave. */
  datatype Residue = Nothing | Partial | MarkerTorn | MarkerOnly | Unreceipted | ReceiptTorn | Complete

  predicate LeftAs(residue: Residue, before: Disk, f: Disk, d: Disk)
    requires f.audit.Some?
  {
    match residue
    case Nothing => d == before
    case Partial => f.flat.Some? && f.flat.value.Whole? && Early(f.flat.value.value, d)
    case MarkerTorn => d == Unlocked(f, Some(Torn))
    case MarkerOnly => d == Unlocked(f, f.audit.value.marker)
    case Unreceipted => d == WithReceipt(f, None)
    case ReceiptTorn => d == WithReceipt(f, Some(Torn))
    case Complete => d == f
  }

  /** The clock did not step back between the intent, the generation and the marker. */
  predicate Ordered(intent: Intent, env: Env) {
    intent.authorizedAt <= env.closing(0) <= env.closing(4)
  }

  function FinalOf(intent: Intent, env: Env, finalizing: Option<File<FinalizeIntent>>): Disk {
    Final(intent, env.closing(0), env.closing(4), finalizing)
  }

  /** The marker, the last dormant leaf, a full check, the receipt. */
  method Conclude(m: Machine<Disk>, intent: Intent, env: Env) returns (r: Status, ghost residue: Residue)
    requires m.disk == Unlocked(FinalOf(intent, env, m.disk.finalizing), None)
    requires InForce(intent.approval.window, intent.authorizedAt)
    requires WrittenInForce(intent.plan, intent.approval.window, env, m.disk)
    modifies m
    ensures WrittenInForce(intent.plan, intent.approval.window, env, m.disk)
    ensures LeftAs(residue, old(m.disk), FinalOf(intent, env, old(m.disk).finalizing), m.disk) && residue != Nothing
    ensures m.disk.flat == old(m.disk).flat
    ensures r.Ok? <==> residue == Complete
    ensures residue != Partial ==> InForce(intent.approval.window, env.closing(4))
    ensures residue in {Complete, ReceiptTorn} ==> env.afterLock && Ordered(intent, env)
    ensures r.Refused? ==>
              !env.afterLock || !Ordered(intent, env) || exists k :: !InForce(intent.approval.window, env.closing(k))
    ensures r.PowerLost? ==> old(m.power) < 5
  {
    residue := Partial;
    var window := intent.approval.window;
    var marker := TerminalRecord(intent, env.closing(0), env.closing(4));
    r := Need(Live(window, env.closing(4)) && Live(window, env.closing(5)));
    if !r.Ok? { return; }
    ghost var power := m.power;
    var a := m.disk.audit.value;
    r := m.Write(WithAudit(m.disk, a.(marker := Some(Torn))), WithAudit(m.disk, a.(marker := Filled(marker))));
    residue := if r.Ok? then MarkerOnly else if power == 0 then Partial else MarkerTorn;
    if !r.Ok? { return; }
    r := Need(Live(window, env.closing(6)));
    if !r.Ok? { return; }
    r := m.Put(m.disk.(lock := true));
    if !r.Ok? { return; }
    residue := Unreceipted;
    r := Need(env.afterLock && Terminal(intent, m.disk, false) && Live(window, env.closing(7)));
    if !r.Ok? { return; }
    power := m.power;
    r := m.Write(WithReceipt(m.disk, Some(Torn)), WithReceipt(m.disk, Filled(marker)));
    residue := if r.Ok? then Complete else if power == 0 then Unreceipted else ReceiptTorn;
  }

  /** `apply`: refused without effect unless every destination is absent. */
  method Apply(m: Machine<Disk>, plan: Plan, approval: Approval, env: Env) returns (r: Status, ghost residue: Residue)
    modifies m
    ensures var f := FinalOf(Intent(plan, approval, env.clock(1)), env, old(m.disk).finalizing);
            LeftAs(residue, old(m.disk), f, m.disk)
    ensures r.Ok? <==> residue == Complete
    ensures residue != Nothing ==>
              && old(m.disk) == Disk(None, 0, None, None, None, [], false, old(m.disk).finalizing)
              && approval.plan == plan && env.lock && env.atStart
              && InForce(approval.window, env.clock(0)) && InForce(approval.window, env.clock(1))
    ensures residue != Nothing ==> WrittenInForce(plan, approval.window, env, m.disk)
    ensures residue !in {Nothing, Partial} ==>
              env.beforeRename && env.afterDormant && InForce(approval.window, env.closing(4))
    ensures residue in {Complete, ReceiptTorn} ==>
              env.afterLock && env.clock(1) <= env.closing(0) <= env.closing(4)
    ensures old(m.disk).flat.Some? ==> r.Refused? && m.disk == old(m.disk)
    ensures m.disk != old(m.disk) ==> m.disk.flat.Some?
    ensures (&& Clean(plan, old(m.disk)) && approval.plan == plan && env.lock
             && env.atStart && env.beforeRename && env.afterDormant && env.afterLock
             && Ordered(Intent(plan, approval, env.clock(1)), env)
             && (forall k :: InForce(approval.window, env.clock(k)) && InForce(approval.window, env.building(k))
                             && InForce(approval.window, env.closing(k)))
             && old(m.power) >= 21 + plan.absentParents + plan.folders + 2 * |plan.payload| + 2 * |plan.dormant|) ==>
              r.Ok?
  {
    residue := Nothing;
    LiveInForce(approval.window);
    hide Live;
    hide WrittenInForce;
    hide Early;
    hide InForce;
    r := Need(approval.plan == plan && Live(approval.window, env.clock(0)) && env.lock && env.atStart);
    if !r.Ok? { return; }
    r := Need(Clean(plan, m.disk));
    if !r.Ok? { return; }
    var intent := Intent(plan, approval, env.clock(1));
    r := Need(Live(approval.window, intent.authorizedAt));
    if !r.Ok? { return; }
    r := Record(m, intent, env);
    residue := if m.disk == old(m.disk) then Nothing else Partial;
    if !r.Ok? { return; }
    residue := Partial;
    r := Generate(m, intent, env);
    if !r.Ok? { return; }
    r, residue := Conclude(m, intent, env);
  }

  // ---- The finalizer of a missing receipt, and the two read-only classifiers.

  predicate Names(p: FinalizePlan, d: Disk) {
    && Terminal(p.intent, d, false)
    && d.audit.value.intent == Filled(p.intent) && d.audit.value.marker == Filled(p.marker)
  }

  ghost predicate MayFinalize(p: FinalizePlan, approval: FinalizeApproval, env: Env, d: Disk) {
    && approval.plan == p && env.lock && env.atStart && env.afterDormant && env.afterLock
    && Completes(p, d) && d.finalizing.None?
    && forall k :: 0 <= k < 4 ==> InForce(approval.window, env.clock(k))
  }

  /** The states a finalization passes through. */
  function FinalizeCut(d0: Disk, intent: FinalizeIntent, writes: nat): Disk
    requires d0.audit.Some?
  {
    var whole := d0.(finalizing := Filled(intent));
    if writes == 0 then d0
    else if writes == 1 then d0.(finalizing := Some(Torn))
    else if writes == 2 then whole
    else if writes == 3 then WithReceipt(whole, Some(Torn))
    else WithReceipt(whole, d0.audit.value.marker)
  }

  /** A recorded authorization can be finished: its approval, in force when it was
      recorded and when it was accepted, at instants in order. */
  ghost predicate Finished(intent: Intent, installedAt: int, acceptedAt: int) {
    && intent.authorizedAt <= installedAt <= acceptedAt
    && InForce(intent.approval.window, intent.authorizedAt) && InForce(intent.approval.window, acceptedAt)
  }

  /** The tree of a finished run without its receipt; the audit's own copies of plan and
      approval have only to be there. */
  ghost predicate Introduced(intent: Intent, installedAt: int, acceptedAt: int, d: Disk) {
    && Finished(intent, installedAt, acceptedAt) && d.audit.Some?
    && d.audit.value.plan.Some? && d.audit.value.approval.Some?
    && d == Final(intent, installedAt, acceptedAt, d.finalizing).(
              audit := Some(Audit(d.audit.value.plan, d.audit.value.approval, Filled(intent),
                                  Final(intent, installedAt, acceptedAt, None).audit.value.marker, None)))
  }

  /** The plan names the disk. */
  ghost predicate Completes(p: FinalizePlan, d: Disk) {
    && p.marker.intent == p.intent && p.marker.dormant == p.intent.plan.dormant
    && p.marker.generation == GenerationReceipt(p.intent, p.marker.generation.installedAt)
    && Introduced(p.intent, p.marker.generation.installedAt, p.marker.acceptedAt, d)
  }

  lemma NamesCompletes(p: FinalizePlan, d: Disk)
    ensures Names(p, d) <==> Completes(p, d)
  {
  }

  /** The finalization's own intent disturbs nothing it re-checks, and the missing
      receipt is exactly the marker. */
  lemma IntentDisturbsNothing(p: FinalizePlan, d: Disk, intent: FinalizeIntent)
    requires Names(p, d)
    ensures Names(p, d.(finalizing := Filled(intent)))
    ensures Terminal(p.intent, WithReceipt(d.(finalizing := Filled(intent)), Filled(p.marker)), true)
  {
  }

  /** The finalization's intent, a second look at everything, and the receipt. */
  method FinalizeEffects(m: Machine<Disk>, p: FinalizePlan, intent: FinalizeIntent, env: Env)
    returns (r: Status, ghost writes: nat)
    requires Names(p, m.disk)
    modifies m
    ensures writes <= 4 && m.disk == FinalizeCut(old(m.disk), intent, writes)
    ensures r.Ok? ==> writes == 4 && env.afterDormant && env.afterLock && InForce(intent.approval.window, env.clock(3))
    ensures writes > 2 ==> InForce(intent.approval.window, env.clock(3)) && env.afterDormant
    ensures r.Refused? ==> !(env.afterDormant && env.afterLock && InForce(intent.approval.window, env.clock(3)))
    ensures r.PowerLost? ==> old(m.power) < 4
  {
    IntentDisturbsNothing(p, m.disk, intent);
    ghost var power := m.power;
    r := m.Write(m.disk.(finalizing := Some(Torn)), m.disk.(finalizing := Filled(intent)));
    writes := if r.Ok? then 2 else if power == 0 then 0 else 1;
    if !r.Ok? { return; }
    r := Need(env.afterDormant && Names(p, m.disk) && Live(intent.approval.window, env.clock(3)));
    if !r.Ok? { return; }
    power := m.power;
    r := m.Write(WithReceipt(m.disk, Some(Torn)), WithReceipt(m.disk, Filled(p.marker)));
    writes := if r.Ok? then 4 else if power == 0 then 2 else 3;
    if !r.Ok? { return; }
    r := Need(env.afterLock && Terminal(p.intent, m.disk, true));
  }

  /** `finalize`; `atStart`, `afterDormant` and `afterLock` are its three looks at the
      predecessor. */
  method Finalize(m: Machine<Disk>, p: FinalizePlan, approval: FinalizeApproval, env: Env)
    returns (r: Status, ghost writes: nat)
    modifies m
    ensures writes == 0 ==> m.disk == old(m.disk)
    ensures writes > 0 ==> Completes(p, old(m.disk)) && old(m.disk).finalizing.None?
                           && approval.plan == p && env.lock && env.atStart
                           && m.disk == FinalizeCut(old(m.disk), FinalizeIntent(p, approval, env.clock(1)), writes)
                           && forall k :: 0 <= k < 3 ==> InForce(approval.window, env.clock(k))
    ensures writes > 2 ==> InForce(approval.window, env.clock(3)) && env.afterDormant
    ensures r.Ok? ==> writes == 4 && MayFinalize(p, approval, env, old(m.disk))
    ensures r.Refused? ==> !MayFinalize(p, approval, env, old(m.disk))
    ensures r.PowerLost? ==> old(m.power) < 4
    ensures old(m.disk).finalizing.Some? ==> m.disk == old(m.disk) && r.Refused?
  {
    NamesCompletes(p, m.disk);
    writes := 0;
    r := Need(approval.plan == p && Live(approval.window, env.clock(0)) && env.lock);
    if !r.Ok? { return; }
    r := Need(env.atStart && Names(p, m.disk) && m.disk.finalizing.None?);
    if !r.Ok? { return; }
    r := Need(Live(approval.window, env.clock(1)) && Live(approval.window, env.clock(2)));
    if !r.Ok? { return; }
    r, writes := FinalizeEffects(m, p, FinalizeIntent(p, approval, env.clock(1)), env);
  }

  datatype FinalizeDecision = NoIntent | ContradictoryFinalize | IntentOnlyHold | FinalizeTerminal

  /** `reconcile_finalize`. */
  function ReconcileFinalize(intent0: Intent, d: Disk): FinalizeDecision {
    if d.finalizing.None? then NoIntent
    else if d.finalizing.value.Torn? then ContradictoryFinalize
    else
      var intent := d.finalizing.value.value;
      if && intent.approval.plan == intent.plan && Live(intent.approval.window, intent.authorizedAt)
         && d.audit.Some? && Terminal(intent0, d, d.audit.value.receipt.Some?)
         && d.audit.value.intent == Filled(intent.plan.intent) && d.audit.value.marker == Filled(intent.plan.marker)
         && intent.plan.marker.acceptedAt <= intent.authorizedAt
      then if d.audit.value.receipt.Some? then FinalizeTerminal else IntentOnlyHold
      else ContradictoryFinalize
  }

  datatype Decision = PartialHold | ContradictoryHold | RequiresFinalize | ExistingReceipt

  /** `reconcile`, for the authorization `intent0` names; `serving` says whether the
      predecessor still serves, which only a missing receipt makes it ask. A finished
      finalization is consulted where there is one. */
  function Reconcile(intent0: Intent, d: Disk, serving: bool): Decision {
    if d.audit.None? || d.audit.value.receipt.None? then
      if d.audit.None? || d.audit.value.marker.None? then PartialHold
      else if serving && Terminal(intent0, d, false) then RequiresFinalize
      else ContradictoryHold
    else if !Terminal(intent0, d, true) then ContradictoryHold
    else if d.finalizing.Some? && ReconcileFinalize(intent0, d) != FinalizeTerminal then ContradictoryHold
    else if d.audit.value.plan == Filled(intent0.plan) && d.audit.value.approval == Filled(intent0.approval) then
      ExistingReceipt
    else ContradictoryHold
  }

  /** A finalization's intent is that of exactly this tree, signed, and not earlier than
      its marker. */
  ghost predicate FinalizedAs(intent: Intent, installedAt: int, acceptedAt: int, f: FinalizeIntent) {
    && f.approval.plan == f.plan && InForce(f.approval.window, f.authorizedAt) && acceptedAt <= f.authorizedAt
    && f.plan.intent == intent
    && Filled(f.plan.marker) == Final(intent, installedAt, acceptedAt, None).audit.value.marker
  }

  /** The classifier's two good answers, for any disk at all: the tree of an
      uninterrupted timely run of the authorization asked for, with no finalization or one
      of exactly this tree; or, while the predecessor serves, such a tree without its
      receipt, of the same plan and approval. */
  lemma ReconcilesExactly(intent0: Intent, d: Disk, serving: bool)
    ensures Reconcile(intent0, d, serving) == ExistingReceipt <==> exists intent, i, a ::
              && Finished(intent, i, a) && d == Final(intent, i, a, d.finalizing)
              && intent.plan == intent0.plan && intent.approval == intent0.approval
              && (d.finalizing.Some? ==>
                    d.finalizing.value.Whole? && FinalizedAs(intent, i, a, d.finalizing.value.value))
    ensures Reconcile(intent0, d, serving) == RequiresFinalize <==> serving && exists intent, i, a ::
              Introduced(intent, i, a, d) && intent.plan == intent0.plan && intent.approval == intent0.approval
  {
    if Reconcile(intent0, d, serving) in {ExistingReceipt, RequiresFinalize} {
      var marker := d.audit.value.marker.value.value;
      assert Finished(marker.intent, marker.generation.installedAt, marker.acceptedAt);
      assert if Reconcile(intent0, d, serving) == ExistingReceipt
        then d == Final(marker.intent, marker.generation.installedAt, marker.acceptedAt, d.finalizing)
        else Introduced(marker.intent, marker.generation.installedAt, marker.acceptedAt, d);
    }
  }

  /** The classifier reads off exactly what a cut left. */
  lemma ClassifiesEveryCut(residue: Residue, before: Disk, intent: Intent, env: Env, d: Disk)
    requires Clean(intent.plan, before) && before.finalizing.None?
    requires LeftAs(residue, before, FinalOf(intent, env, None), d)
    requires InForce(intent.approval.window, intent.authorizedAt)
    requires residue !in {Nothing, Partial} ==> InForce(intent.approval.window, env.closing(4))
    requires residue in {Complete, ReceiptTorn} ==> Ordered(intent, env)
    ensures Reconcile(intent, d, true) == ExistingReceipt <==> residue == Complete
    ensures Reconcile(intent, d, true) == RequiresFinalize <==> residue == Unreceipted && Ordered(intent, env)
    ensures Reconcile(intent, d, true) == PartialHold <==> residue in {Nothing, Partial}
  {
  }

  /** A finalization never compares its own instant with the marker's, but the
      classifiers do: one whose clock reads earlier finishes and is doubted. */
  lemma ClassifiesEveryFinalizeCut(p: FinalizePlan, approval: FinalizeApproval, at: int, d0: Disk, writes: nat)
    requires Completes(p, d0) && d0.finalizing.None? && approval.plan == p && InForce(approval.window, at)
    requires writes <= 4
    ensures ReconcileFinalize(p.intent, FinalizeCut(d0, FinalizeIntent(p, approval, at), writes)) ==
              if writes == 0 then NoIntent
              else if writes == 2 && p.marker.acceptedAt <= at then IntentOnlyHold
              else if writes == 4 && p.marker.acceptedAt <= at then FinalizeTerminal
              else ContradictoryFinalize
    ensures d0.audit.value.plan == Filled(p.intent.plan) && d0.audit.value.approval == Filled(p.intent.approval) ==>
              Reconcile(p.intent, FinalizeCut(d0, FinalizeIntent(p, approval, at), writes), true) ==
              if writes <= 2 then RequiresFinalize
              else if writes == 4 && p.marker.acceptedAt <= at then ExistingReceipt
              else ContradictoryHold
    ensures writes == 4 && at < p.marker.acceptedAt ==>
              forall serving ::
                Reconcile(p.intent, FinalizeCut(d0, FinalizeIntent(p, approval, at), 4), serving) == ContradictoryHold
  {
  }

  /** An introduction cut anywhere, then a finalization: it may go through exactly
      when the marker and every leaf are in place and only the receipt is missing, and
      then the tree is the one an uninterrupted run leaves, plus one intent. */
  method ApplyThenFinalize(m: Machine<Disk>, plan: Plan, approval: Approval, env: Env,
                           p: FinalizePlan, second: FinalizeApproval, later: Env, cut: nat)
    returns (r: Status, ghost residue: Residue)
    requires Clean(plan, m.disk) && m.disk.finalizing.None?
    requires p.intent == Intent(plan, approval, env.clock(1))
    requires p.marker == TerminalRecord(p.intent, env.closing(0), env.closing(4))
    requires second.plan == p && later.lock && later.atStart && later.afterDormant && later.afterLock
    requires forall k :: InForce(second.window, later.clock(k))
    modifies m
    ensures r.Ok? <==> residue == Unreceipted && Ordered(p.intent, env)
    ensures r.Ok? ==> m.disk == FinalOf(p.intent, env, Filled(FinalizeIntent(p, second, later.clock(1))))
    ensures r.Ok? ==> (Reconcile(p.intent, m.disk, true) == ExistingReceipt <==> p.marker.acceptedAt <= later.clock(1))
  {
    m.power := cut;
    r, residue := Apply(m, plan, approval, env);
    if residue != Nothing {
      ClassifiesEveryCut(residue, old(m.disk), p.intent, env, m.disk);
    }
    m.power := 4;
    ghost var writes;
    r, writes := Finalize(m, p, second, later);
  }

  /** A later invocation for the same operation, and how long its power lasts. */
  datatype Attempt =
    | Applies(plan: Plan, approval: Approval, env: Env, power: nat)
    | Finalizes(p: FinalizePlan, approval': FinalizeApproval, env: Env, power: nat)

  /** The recorded introduction lacks its receipt and nothing else. */
  predicate LacksReceipt(d: Disk) {
    && d.audit.Some? && d.audit.value.intent.Some? && d.audit.value.intent.value.Whole?
    && Reconcile(d.audit.value.intent.value.value, d, true) == RequiresFinalize
  }

  /** At most once: whatever is tried after the flat intent exists, only a finalizer's
      two leaves may still appear, its intent only once, and only where the receipt
      alone was missing. */
  method TryAgain(m: Machine<Disk>, attempts: seq<Attempt>)
    requires m.disk.flat.Some?
    modifies m
    ensures m.disk == old(m.disk).(audit := m.disk.audit, finalizing := m.disk.finalizing)
    ensures Once(old(m.disk).finalizing, m.disk.finalizing)
    ensures m.disk.audit != old(m.disk).audit ==>
              LacksReceipt(old(m.disk)) && m.disk.finalizing != old(m.disk).finalizing
  {
    for i := 0 to |attempts|
      invariant m.disk.flat.Some?
      invariant m.disk == old(m.disk).(audit := m.disk.audit, finalizing := m.disk.finalizing)
      invariant m.disk.finalizing == old(m.disk).finalizing ==> m.disk == old(m.disk)
      invariant m.disk.finalizing != old(m.disk).finalizing ==> old(m.disk).finalizing.None? && m.disk.finalizing.Some?
      invariant m.disk.audit != old(m.disk).audit ==> LacksReceipt(old(m.disk))
    {
      m.power := attempts[i].power;
      match attempts[i] {
        case Applies(plan, approval, env, _) => var _, _ := Apply(m, plan, approval, env);
        case Finalizes(p, approval, env, _) => var _, _ := Finalize(m, p, approval, env);
      }
    }
  }

  /** A finalization by a clock that reads before the marker succeeds, and whatever is
      tried afterwards the finished tree is called contradictory. */
  method FinalizeTooEarly(m: Machine<Disk>, p: FinalizePlan, approval: FinalizeApproval, env: Env,
                          attempts: seq<Attempt>)
    returns (r: Status)
    requires MayFinalize(p, approval, env, m.disk) && env.clock(1) < p.marker.acceptedAt
    modifies m
    ensures r.Ok? && m.disk.audit.Some? && m.disk.audit.value.receipt == Filled(p.marker)
    ensures forall serving :: Reconcile(p.intent, m.disk, serving) == ContradictoryHold
  {
    ClassifiesEveryFinalizeCut(p, approval, env.clock(1), m.disk, 4);
    m.power := 4;
    ghost var writes;
    r, writes := Finalize(m, p, approval, env);
    TryAgain(m, attempts);
  }
}
