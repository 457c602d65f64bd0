/** Staging of the signed introduction source, `standalone-intro-transport.py`: an
    intent-first, at-most-once tree of files, the classifier of what a cut left, and
    the separately signed finalizer. Files are not written atomically: a cut may
    leave a torn one. */
module Transport {
  import opened Files
  import opened Power

  /** Payload leaves are known by their content, in the order they are written. */
  datatype Plan = Plan(payload: seq<nat>, inboxAbsent: bool, auditsAbsent: bool, serial: nat)

  datatype Approval = Approval(plan: Plan, window: Window)

  datatype Intent = Intent(plan: Plan, approval: Approval, authorizedAt: int)

  datatype Receipt = Receipt(plan: Plan, approval: Approval, intent: Intent, postimage: seq<nat>, acceptedAt: int)

  /** The request directory, or the staging directory it is renamed from. */
  datatype Snapshot = Snapshot(leaves: seq<File<nat>>, receipt: Option<File<Receipt>>)

  datatype Audit = Audit(plan: Option<File<Plan>>, approval: Option<File<Approval>>,
                         intent: Option<File<Intent>>, receipt: Option<File<Receipt>>)

  /** The finalization names everything it completes. */
  datatype FinalizePlan = FinalizePlan(plan: Plan, approval: Approval, intent: Intent, receipt: Receipt)

  datatype FinalizeApproval = FinalizeApproval(plan: FinalizePlan, window: Window)

  datatype FinalizeIntent = FinalizeIntent(plan: FinalizePlan, approval: FinalizeApproval, authorizedAt: int)

  datatype Disk = Disk(flat: Option<File<Intent>>, inbox: bool, audits: bool,
                       audit: Option<Audit>, staging: Option<Snapshot>, request: Option<Snapshot>,
                       finalizing: Option<File<FinalizeIntent>>)

  /** What a run observes: its clock readings before and after the snapshot is built,
      the lock, and whether the predecessor still serves where it is compared. */
  datatype Env = Env(clock: nat -> int, closing: nat -> int, lock: bool, atStart: bool, beforeRename: bool,
                     afterRename: bool)

  function WithAudit(d: Disk, a: Audit): Disk {
    d.(audit := Some(a))
  }

  const NO_LEAVES := Audit(None, None, None, None)

  /** The tree of an uninterrupted run. */
  function Final(intent: Intent, acceptedAt: int, finalizing: Option<File<FinalizeIntent>>): Disk {
    var receipt := Some(Whole(Receipt(intent.plan, intent.approval, intent, intent.plan.payload, acceptedAt)));
    Disk(Some(Whole(intent)), true, true,
         Some(Audit(Some(Whole(intent.plan)), Some(Whole(intent.approval)), Some(Whole(intent)), receipt)),
         None, Some(Snapshot(Leaves(intent.plan.payload), receipt)), finalizing)
  }

  function WithAuditReceipt(d: Disk, receipt: Option<File<Receipt>>): Disk
    requires d.audit.Some?
  {
    WithAudit(d, d.audit.value.(receipt := receipt))
  }

  function WithRequestReceipt(d: Disk, receipt: Option<File<Receipt>>): Disk
    requires d.request.Some?
  {
    d.(request := Some(d.request.value.(receipt := receipt)))
  }

  /** The preimage every leaf of a plan must have before anything is written. */
  predicate Clean(plan: Plan, d: Disk) {
    && d.flat.None? && d.audit.None? && d.staging.None? && d.request.None?
    && d.inbox == !plan.inboxAbsent && d.audits == !plan.auditsAbsent
  }

  /** A cut before the snapshot was published: each thing is there only if what is
      written before it is whole. */
  predicate Early(intent: Intent, d: Disk) {
    && d.flat.Some? && AtMost(d.flat, intent) && d.request.None?
    && (d.audit.Some? ==>
          && d.flat == Filled(intent) && d.inbox && d.audits
          && var a := d.audit.value;
          && AtMost(a.plan, intent.plan) && AtMost(a.approval, intent.approval) && AtMost(a.intent, intent)
          && (a.approval.Some? ==> a.plan == Filled(intent.plan))
          && (a.intent.Some? ==> a.approval == Filled(intent.approval))
          && a.receipt.None?)
    && (d.staging.Some? ==> d.audit.Some? && d.audit.value.intent == Filled(intent) && d.staging.value.receipt.None?)
  }

  /** Everything before the snapshot is published was begun while the approval was in
      force, by the clock reading just before. */
  ghost predicate BegunInForce(plan: Plan, window: Window, clock: nat -> int, d: Disk) {
    && (d.flat.Some? ==> InForce(window, clock(2)))
    && (plan.inboxAbsent && d.inbox ==> InForce(window, clock(3)))
    && (plan.auditsAbsent && d.audits ==> InForce(window, clock(4)))
    && (d.audit.Some? ==>
          && InForce(window, clock(5))
          && (d.audit.value.plan.Some? ==> InForce(window, clock(6)))
          && (d.audit.value.approval.Some? ==> InForce(window, clock(7)))
          && (d.audit.value.intent.Some? ==> InForce(window, clock(8))))
    && (d.staging.Some? ==>
          && InForce(window, clock(9))
          && forall k :: 10 <= k < 10 + |d.staging.value.leaves| ==> InForce(window, clock(k)))
    && (d.request.Some? ==>
          && InForce(window, clock(9))
          && forall k :: 10 <= k < 10 + |d.request.value.leaves| ==> InForce(window, clock(k)))
  }

  /** So was everything from the snapshot's publication on. */
  ghost predicate ClosedInForce(window: Window, closing: nat -> int, d: Disk) {
    && (d.request.Some? ==>
          && InForce(window, closing(0))
          && (d.request.value.receipt.Some? ==> InForce(window, closing(2)) && InForce(window, closing(3))))
    && (d.audit.Some? && d.audit.value.receipt.Some? ==> InForce(window, closing(4)))
  }

  method StageIntent(m: Machine<Disk>, intent: Intent, clock: nat -> int) returns (r: Status)
    requires Clean(intent.plan, m.disk)
    modifies m
    ensures m.disk.finalizing == old(m.disk).finalizing
    ensures r.Ok? ==>
              m.disk == Disk(Some(Whole(intent)), true, true, Some(NO_LEAVES), None, None, old(m.disk).finalizing)
    ensures m.disk == old(m.disk) || Early(intent, m.disk)
    ensures BegunInForce(intent.plan, intent.approval.window, clock, m.disk)
    ensures r.Refused? ==> exists k :: !InForce(intent.approval.window, clock(k))
    ensures r.PowerLost? ==> old(m.power) < 5
    ensures m.power >= old(m.power) - 5
  {
    r := Ok;
    :- Need(Live(intent.approval.window, clock(2)));
    :- m.Write(m.disk.(flat := Some(Torn)), m.disk.(flat := Some(Whole(intent))));
    if intent.plan.inboxAbsent {
      :- Need(Live(intent.approval.window, clock(3)));
      :- m.Put(m.disk.(inbox := true));
    }
    if intent.plan.auditsAbsent {
      :- Need(Live(intent.approval.window, clock(4)));
      :- m.Put(m.disk.(audits := true));
    }
    :- Need(Live(intent.approval.window, clock(5)));
    r := m.Put(m.disk.(audit := Some(NO_LEAVES)));
  }

  method StageAudit(m: Machine<Disk>, intent: Intent, clock: nat -> int) returns (r: Status)
    requires m.disk == Disk(Some(Whole(intent)), true, true, Some(NO_LEAVES), None, None, m.disk.finalizing)
    requires BegunInForce(intent.plan, intent.approval.window, clock, m.disk)
    modifies m
    ensures BegunInForce(intent.plan, intent.approval.window, clock, m.disk)
    ensures m.disk.finalizing == old(m.disk).finalizing && Early(intent, m.disk)
    ensures r.Ok? ==> m.disk == Disk(Some(Whole(intent)), true, true,
                        Some(Audit(Some(Whole(intent.plan)), Some(Whole(intent.approval)), Some(Whole(intent)), None)),
                        None, None, old(m.disk).finalizing)
    ensures r.Refused? ==> exists k :: !InForce(intent.approval.window, clock(k))
    ensures r.PowerLost? ==> old(m.power) < 6
    ensures m.power >= old(m.power) - 6
  {
    r := Ok;
    :- Need(Live(intent.approval.window, clock(6)));
    :- m.Write(WithAudit(m.disk, NO_LEAVES.(plan := Some(Torn))),
               WithAudit(m.disk, NO_LEAVES.(plan := Some(Whole(intent.plan)))));
    :- Need(Live(intent.approval.window, clock(7)));
    var a := m.disk.audit.value;
    :- m.Write(WithAudit(m.disk, a.(approval := Some(Torn))),
               WithAudit(m.disk, a.(approval := Some(Whole(intent.approval)))));
    :- Need(Live(intent.approval.window, clock(8)));
    a := m.disk.audit.value;
    r := m.Write(WithAudit(m.disk, a.(intent := Some(Torn))), WithAudit(m.disk, a.(intent := Some(Whole(intent)))));
  }

  function WithStaged(d: Disk, leaves: seq<File<nat>>): Disk {
    d.(staging := Some(Snapshot(leaves, None)))
  }

  method StageLeaves(m: Machine<Disk>, intent: Intent, clock: nat -> int) returns (r: Status)
    requires Early(intent, m.disk) && m.disk.staging.None? && m.disk.audit.Some?
    requires m.disk.audit.value.intent == Filled(intent)
    requires BegunInForce(intent.plan, intent.approval.window, clock, m.disk)
    modifies m
    ensures BegunInForce(intent.plan, intent.approval.window, clock, m.disk)
    ensures Early(intent, m.disk) && m.disk == old(m.disk).(staging := m.disk.staging)
    ensures r.Ok? ==> m.disk.staging == Some(Snapshot(Leaves(intent.plan.payload), None))
    ensures r.Refused? ==> exists k :: !InForce(intent.approval.window, clock(k))
    ensures r.PowerLost? ==> old(m.power) < 2 * |intent.plan.payload| + 1
    ensures m.power >= old(m.power) - 2 * |intent.plan.payload| - 1
  {
    var payload := intent.plan.payload;
    :- Need(Live(intent.approval.window, clock(9)));
    :- m.Put(WithStaged(m.disk, []));
    assert Leaves(payload[..0]) == [];
    for i := 0 to |payload|
      invariant m.disk == WithStaged(old(m.disk), Leaves(payload[..i]))
      invariant m.power >= old(m.power) - 2 * i - 1
      invariant BegunInForce(intent.plan, intent.approval.window, clock, m.disk)
    {
      assert Leaves(payload[..i]) + [Whole(payload[i])] == Leaves(payload[..i + 1]);
      :- Need(Live(intent.approval.window, clock(10 + i)));
      :- m.Write(WithStaged(m.disk, Leaves(payload[..i]) + [Torn]),
                 WithStaged(m.disk, Leaves(payload[..i]) + [Whole(payload[i])]));
    }
    assert payload[..|payload|] == payload;
    return Ok;
  }

  /** What a cut of `stage` can leave: nothing; a tree without a published snapshot;
      a published snapshot without its whole receipt; everything but the audit
      receipt; or everything with the audit receipt torn. */
  datatype Residue = Nothing | Partial | Unreceipted | AuditMissing | AuditTorn | Complete

  predicate LeftAs(residue: Residue, before: Disk, f: Disk, d: Disk)
    requires f.request.Some? && f.audit.Some?
  {
    match residue
    case Nothing => d == before
    case Partial => f.flat.Some? && f.flat.value.Whole? && Early(f.flat.value.value, d)
    case Unreceipted =>
      d in {WithRequestReceipt(WithAuditReceipt(f, None), None),
            WithRequestReceipt(WithAuditReceipt(f, None), Some(Torn))}
    case AuditMissing => d == WithAuditReceipt(f, None)
    case AuditTorn => d == WithAuditReceipt(f, Some(Torn))
    case Complete => d == f
  }

  /** Publication: the rename, the request receipt, and last the audit receipt. */
  method Publish(m: Machine<Disk>, intent: Intent, env: Env) returns (r: Status, ghost residue: Residue)
    requires m.disk == Final(intent, 0, m.disk.finalizing).(
                         staging := Some(Snapshot(Leaves(intent.plan.payload), None)), request := None,
                         audit := Some(Final(intent, 0, m.disk.finalizing).audit.value.(receipt := None)))
    requires BegunInForce(intent.plan, intent.approval.window, env.clock, m.disk)
    modifies m
    ensures BegunInForce(intent.plan, intent.approval.window, env.clock, m.disk)
    ensures ClosedInForce(intent.approval.window, env.closing, m.disk)
    ensures LeftAs(residue, old(m.disk), Final(intent, env.closing(2), old(m.disk).finalizing), m.disk)
    ensures residue != Nothing
    ensures r.Ok? <==> residue == Complete
    ensures residue in {AuditMissing, AuditTorn, Complete} ==>
              env.afterRename && InForce(intent.approval.window, env.closing(2))
    ensures residue !in {Nothing, Partial} ==> env.beforeRename
    ensures r.Refused? ==>
              !env.beforeRename || !env.afterRename || exists k :: !InForce(intent.approval.window, env.closing(k))
    ensures r.PowerLost? ==> old(m.power) < 5
  {
    residue := Partial;
    var window := intent.approval.window;
    var receipt := Receipt(intent.plan, intent.approval, intent, intent.plan.payload, env.closing(2));
    r := Need(env.beforeRename && Live(window, env.closing(0)));
    if !r.Ok? { return; }
    r := m.Put(m.disk.(request := m.disk.staging, staging := None));
    if !r.Ok? { return; }
    residue := Unreceipted;
    r := Need(env.afterRename && Live(window, env.closing(2)) && Live(window, env.closing(3)));
    if !r.Ok? { return; }
    r := m.Write(WithRequestReceipt(m.disk, Some(Torn)), WithRequestReceipt(m.disk, Some(Whole(receipt))));
    if !r.Ok? { return; }
    residue := AuditMissing;
    r := Need(Live(window, env.closing(4)));
    if !r.Ok? { return; }
    ghost var power := m.power;
    r := m.Write(WithAuditReceipt(m.disk, Some(Torn)), WithAuditReceipt(m.disk, Some(Whole(receipt))));
    residue := if r.Ok? then Complete else if power == 0 then AuditMissing else AuditTorn;
  }

  /** `stage`: refused without effect unless every leaf of the plan is absent, so an
      operation whose flat intent exists, whole or torn, is never staged again. */
  method Stage(m: Machine<Disk>, plan: Plan, approval: Approval, env: Env) returns (r: Status, ghost residue: Residue)
    modifies m
    ensures LeftAs(residue, old(m.disk),
                   Final(Intent(plan, approval, env.clock(1)), env.closing(2), old(m.disk).finalizing), m.disk)
    ensures r.Ok? <==> residue == Complete
    ensures residue in {AuditMissing, AuditTorn, Complete} ==>
              InForce(approval.window, env.clock(1)) && InForce(approval.window, env.closing(2))
    ensures residue != Nothing ==> Clean(plan, old(m.disk)) && approval.plan == plan && env.lock && env.atStart
                                   && InForce(approval.window, env.clock(0)) && InForce(approval.window, env.clock(1))
    ensures residue != Nothing ==> BegunInForce(plan, approval.window, env.clock, m.disk)
                                   && ClosedInForce(approval.window, env.closing, m.disk)
    ensures residue !in {Nothing, Partial} ==> env.beforeRename
    ensures residue in {AuditMissing, AuditTorn, Complete} ==> env.afterRename
    ensures old(m.disk).flat.Some? ==> r.Refused? && m.disk == old(m.disk)
    ensures m.disk != old(m.disk) ==> m.disk.flat.Some?
    ensures (&& Clean(plan, old(m.disk)) && approval.plan == plan && env.lock && env.atStart && env.beforeRename
             && env.afterRename
             && (forall k :: InForce(approval.window, env.clock(k)) && InForce(approval.window, env.closing(k)))
             && old(m.power) >= 2 * |plan.payload| + 17) ==> r.Ok?
  {
    residue := Nothing;
    LiveInForce(approval.window);
    hide Live;
    hide InForce;
    r := Need(approval.plan == plan && Live(approval.window, env.clock(0)) && env.lock && env.atStart);
    if !r.Ok? { return; }
    r := Need(&& m.disk.flat.None? && m.disk.audit.None? && m.disk.staging.None? && m.disk.request.None?
              && m.disk.inbox == !plan.inboxAbsent && m.disk.audits == !plan.auditsAbsent);
    if !r.Ok? { return; }
    var intent := Intent(plan, approval, env.clock(1));
    r := Need(Live(approval.window, intent.authorizedAt));
    if !r.Ok? { return; }
    r := StageIntent(m, intent, env.clock);
    residue := if m.disk == old(m.disk) then Nothing else Partial;
    if !r.Ok? { return; }
    residue := Partial;
    r := StageAudit(m, intent, env.clock);
    if !r.Ok? { return; }
    r := StageLeaves(m, intent, env.clock);
    if !r.Ok? { return; }
    r, residue := Publish(m, intent, env);
  }

  // ---- The read-only classifier.

  datatype Decision = PartialHold | Contradictory | MissingAuditReceipt | ExactTerminal

  /** `historical_terminal`: every original byte, in time, and nothing else. */
  predicate Terminal(d: Disk, requireAudit: bool) {
    && d.audit.Some? && d.request.Some? && d.staging.None? && d.inbox && d.audits
    && var a := d.audit.value;
    && a.plan.Some? && a.plan.value.Whole? && a.approval.Some? && a.approval.value.Whole?
    && a.intent.Some? && a.intent.value.Whole?
    && (a.receipt.Some? <==> requireAudit)
    && d.request.value.receipt.Some? && d.request.value.receipt.value.Whole?
    && var plan, approval, intent, receipt :=
         a.plan.value.value, a.approval.value.value, a.intent.value.value, d.request.value.receipt.value.value;
    && approval.plan == plan && intent.plan == plan && intent.approval == approval
    && receipt.plan == plan && receipt.approval == approval && receipt.intent == intent
    && d.flat == Some(Whole(intent))
    && Live(approval.window, intent.authorizedAt) && Live(approval.window, receipt.acceptedAt)
    && intent.authorizedAt <= receipt.acceptedAt
    && d.request.value.leaves == Leaves(plan.payload) && receipt.postimage == plan.payload
    && (requireAudit ==> a.receipt == d.request.value.receipt)
  }

  /** `reconcile`. */
  function Reconcile(d: Disk): Decision {
    if d.audit.None? || d.audit.value.plan.None? || d.audit.value.plan.value.Torn? then PartialHold
    else if d.request.None? || d.request.value.receipt.None? then
      if d.audit.value.receipt.Some? then Contradictory else PartialHold
    else if !Terminal(d, d.audit.value.receipt.Some?) then Contradictory
    else if d.audit.value.receipt.None? then MissingAuditReceipt
    else ExactTerminal
  }

  /** The classifier reads off exactly what was left. Only the clock stepping back
      between the intent and the acceptance makes it doubt a complete tree. */
  lemma ClassifiesEveryCut(residue: Residue, before: Disk, intent: Intent, acceptedAt: int, d: Disk)
    requires Clean(intent.plan, before) && intent.approval.plan == intent.plan
    requires LeftAs(residue, before, Final(intent, acceptedAt, before.finalizing), d)
    requires residue in {AuditMissing, AuditTorn, Complete} ==>
               InForce(intent.approval.window, intent.authorizedAt) && InForce(intent.approval.window, acceptedAt)
    ensures Reconcile(d) == ExactTerminal <==> residue == Complete && intent.authorizedAt <= acceptedAt
    ensures Reconcile(d) == MissingAuditReceipt <==> residue == AuditMissing && intent.authorizedAt <= acceptedAt
    ensures Reconcile(d) == PartialHold <==>
              residue in {Nothing, Partial} || (residue == Unreceipted && d.request.value.receipt.None?)
  {
  }

  // ---- The finalizer of a missing audit receipt.

  /** A tree can be finished: one approval of this plan, in force at both instants, the
      second not before the first. */
  ghost predicate Finished(intent: Intent, acceptedAt: int) {
    && intent.approval.plan == intent.plan && intent.authorizedAt <= acceptedAt
    && InForce(intent.approval.window, intent.authorizedAt) && InForce(intent.approval.window, acceptedAt)
  }

  /** The classifier's two good answers, for any disk at all: the tree of an
      uninterrupted timely run, or that tree without its audit receipt. */
  lemma TerminalExactly(d: Disk)
    ensures Reconcile(d) == ExactTerminal <==>
              exists intent, at :: Finished(intent, at) && d == Final(intent, at, d.finalizing)
    ensures Reconcile(d) == MissingAuditReceipt <==>
              exists intent, at :: Finished(intent, at) && d == WithAuditReceipt(Final(intent, at, d.finalizing), None)
  {
    if Reconcile(d) in {ExactTerminal, MissingAuditReceipt} {
      var intent, at := d.audit.value.intent.value.value, d.request.value.receipt.value.value.acceptedAt;
      assert Finished(intent, at);
      assert d == if Reconcile(d) == ExactTerminal then Final(intent, at, d.finalizing)
                  else WithAuditReceipt(Final(intent, at, d.finalizing), None);
    }
  }

  /** What the finalization plan must name. */
  predicate Names(p: FinalizePlan, d: Disk) {
    && Terminal(d, false)
    && d.audit.value.plan == Some(Whole(p.plan)) && d.audit.value.approval == Some(Whole(p.approval))
    && d.audit.value.intent == Some(Whole(p.intent)) && d.request.value.receipt == Some(Whole(p.receipt))
  }

  /** The plan names the disk: the tree of a finished run that lacks only its audit
      receipt, piece by piece. */
  ghost predicate Completes(p: FinalizePlan, d: Disk) {
    && Finished(p.intent, p.receipt.acceptedAt)
    && p.plan == p.intent.plan && p.approval == p.intent.approval
    && p.receipt == Receipt(p.plan, p.approval, p.intent, p.plan.payload, p.receipt.acceptedAt)
    && d == WithAuditReceipt(Final(p.intent, p.receipt.acceptedAt, d.finalizing), None)
  }

  lemma NamesCompletes(p: FinalizePlan, d: Disk)
    ensures Names(p, d) <==> Completes(p, d)
  {
  }

  ghost predicate MayFinalize(p: FinalizePlan, approval: FinalizeApproval, env: Env, d: Disk) {
    && approval.plan == p && env.lock && env.atStart && env.beforeRename && env.afterRename
    && Completes(p, d) && d.finalizing.None?
    && forall k :: 0 <= k < 4 ==> InForce(approval.window, env.clock(k))
  }

  /** The states a finalization passes through. */
  function FinalizeCut(d0: Disk, intent: FinalizeIntent, writes: nat): Disk
    requires d0.audit.Some? && d0.request.Some?
  {
    var whole := d0.(finalizing := Some(Whole(intent)));
    if writes == 0 then d0
    else if writes == 1 then d0.(finalizing := Some(Torn))
    else if writes == 2 then whole
    else if writes == 3 then WithAuditReceipt(whole, Some(Torn))
    else WithAuditReceipt(whole, d0.request.value.receipt)
  }

  /** `finalize_reconcile`. `atStart`, `beforeRename` and `afterRename` are its three
      looks at the predecessor. */
  method FinalizeReconcile(m: Machine<Disk>, p: FinalizePlan, approval: FinalizeApproval, env: Env)
    returns (r: Status, ghost writes: nat)
    modifies m
    ensures writes == 0 ==> m.disk == old(m.disk)
    ensures writes > 0 ==> Completes(p, old(m.disk)) && old(m.disk).finalizing.None?
                           && approval.plan == p && env.lock && env.atStart
                           && m.disk == FinalizeCut(old(m.disk), FinalizeIntent(p, approval, env.clock(1)), writes)
                           && forall k :: 0 <= k < 3 ==> InForce(approval.window, env.clock(k))
    ensures writes > 2 ==> InForce(approval.window, env.clock(3)) && env.beforeRename
    ensures r.Ok? ==> writes == 4 && MayFinalize(p, approval, env, old(m.disk))
    ensures r.Refused? ==> !MayFinalize(p, approval, env, old(m.disk))
    ensures r.PowerLost? ==> old(m.power) < 4
    ensures old(m.disk).finalizing.Some? ==> m.disk == old(m.disk) && r.Refused?
  {
    NamesCompletes(p, m.disk);
    writes := 0;
    r := Need(approval.plan == p && Live(approval.window, env.clock(0)) && env.lock);
    if !r.Ok? { return; }
    r := Need(env.atStart && Names(p, m.disk) && m.disk.finalizing.None?);
    if !r.Ok? { return; }
    r := Need(Live(approval.window, env.clock(1)) && Live(approval.window, env.clock(2)));
    if !r.Ok? { return; }
    var intent := FinalizeIntent(p, approval, env.clock(1));
    ghost var power := m.power;
    r := m.Write(m.disk.(finalizing := Some(Torn)), m.disk.(finalizing := Some(Whole(intent))));
    writes := if r.Ok? then 2 else if power == 0 then 0 else 1;
    if !r.Ok? { return; }
    r := Need(env.beforeRename && Names(p, m.disk) && Live(approval.window, env.clock(3)));
    if !r.Ok? { return; }
    power := m.power;
    r := m.Write(WithAuditReceipt(m.disk, Some(Torn)), WithAuditReceipt(m.disk, Some(Whole(p.receipt))));
    writes := if r.Ok? then 4 else if power == 0 then 2 else 3;
    if !r.Ok? { return; }
    r := Need(env.afterRename && Terminal(m.disk, true));
  }

  datatype FinalizeDecision = NoIntent | ContradictoryFinalization | IntentWithoutReceipt | FinalizationTerminal

  /** `reconcile_finalize`. */
  function ReconcileFinalize(d: Disk): FinalizeDecision {
    if d.finalizing.None? then NoIntent
    else if d.finalizing.value.Torn? then ContradictoryFinalization
    else
      var intent := d.finalizing.value.value;
      if && intent.approval.plan == intent.plan && Live(intent.approval.window, intent.authorizedAt)
         && d.audit.Some? && Terminal(d, d.audit.value.receipt.Some?)
         && d.audit.value.plan == Some(Whole(intent.plan.plan))
         && d.audit.value.approval == Some(Whole(intent.plan.approval))
         && d.audit.value.intent == Some(Whole(intent.plan.intent))
         && d.request.value.receipt == Some(Whole(intent.plan.receipt))
      then if d.audit.value.receipt.Some? then FinalizationTerminal else IntentWithoutReceipt
      else ContradictoryFinalization
  }

  lemma ClassifiesEveryFinalizeCut(p: FinalizePlan, approval: FinalizeApproval, at: int, d0: Disk, writes: nat)
    requires Completes(p, d0) && d0.finalizing.None? && approval.plan == p && InForce(approval.window, at)
    requires writes <= 4
    ensures ReconcileFinalize(FinalizeCut(d0, FinalizeIntent(p, approval, at), writes)) ==
              if writes == 0 then NoIntent
              else if writes == 2 then IntentWithoutReceipt
              else if writes == 4 then FinalizationTerminal
              else ContradictoryFinalization
    ensures Reconcile(FinalizeCut(d0, FinalizeIntent(p, approval, at), writes)) ==
              if writes <= 2 then MissingAuditReceipt else if writes == 3 then Contradictory else ExactTerminal
  {
  }

  /** A stage cut anywhere, then a finalization: it may go through exactly when only
      the audit receipt is missing, and then the tree is the one an uninterrupted
      run leaves, plus the finalization's intent. */
  method StageThenFinalize(m: Machine<Disk>, plan: Plan, approval: Approval, env: Env,
                           p: FinalizePlan, second: FinalizeApproval, later: Env, cut: nat)
    returns (r: Status, ghost residue: Residue)
    requires Clean(plan, m.disk) && m.disk.finalizing.None?
    requires p.plan == plan && p.approval == approval && p.intent == Intent(plan, approval, env.clock(1))
    requires p.receipt == Receipt(plan, approval, p.intent, plan.payload, env.closing(2))
    requires second.plan == p && later.lock && later.atStart && later.beforeRename && later.afterRename
    requires forall k :: InForce(second.window, later.clock(k))
    modifies m
    ensures r.Ok? <==> residue == AuditMissing && env.clock(1) <= env.closing(2)
    ensures r.Ok? ==> m.disk == Final(p.intent, env.closing(2), Some(Whole(FinalizeIntent(p, second, later.clock(1)))))
  {
    m.power := cut;
    r, residue := Stage(m, plan, approval, env);
    ghost var d := m.disk;
    if residue != Nothing {
      ClassifiesEveryCut(residue, old(m.disk), p.intent, env.closing(2), d);
    }
    m.power := 4;
    ghost var writes;
    r, writes := FinalizeReconcile(m, p, second, later);
  }

  /** A later invocation for the same operation, and how long its power lasts. */
  datatype Attempt =
    | Stages(plan: Plan, approval: Approval, env: Env, power: nat)
    | Finalizes(p: FinalizePlan, approval': FinalizeApproval, env: Env, power: nat)

  /** At most once: whatever is tried after the flat intent exists, only a finalizer's
      two leaves may still appear, and its intent only once. */
  method TryAgain(m: Machine<Disk>, attempts: seq<Attempt>)
    requires m.disk.flat.Some?
    modifies m
    ensures m.disk == old(m.disk).(audit := m.disk.audit, finalizing := m.disk.finalizing)
    ensures Once(old(m.disk).finalizing, m.disk.finalizing)
    ensures m.disk.audit != old(m.disk).audit ==>
              Reconcile(old(m.disk)) == MissingAuditReceipt && m.disk.finalizing != old(m.disk).finalizing
  {
    for i := 0 to |attempts|
      invariant m.disk.flat.Some?
      invariant m.disk == old(m.disk).(audit := m.disk.audit, finalizing := m.disk.finalizing)
      invariant m.disk.finalizing == old(m.disk).finalizing ==> m.disk == old(m.disk)
      invariant m.disk.finalizing != old(m.disk).finalizing ==> old(m.disk).finalizing.None? && m.disk.finalizing.Some?
      invariant m.disk.audit != old(m.disk).audit ==> Reconcile(old(m.disk)) == MissingAuditReceipt
    {
      m.power := attempts[i].power;
      match attempts[i] {
        case Stages(plan, approval, env, _) => var _, _ := Stage(m, plan, approval, env);
        case Finalizes(p, approval, env, _) => var _, _ := FinalizeReconcile(m, p, approval, env);
      }
    }
  }
}
