/** The standalone bundle installer, `bundle_installer.py`: the staged request, the
    installed tree, and the reconcilers that publish a missing receipt. */
module Installer {
  import opened Files
  import opened Power

  /** The signed plan: every bundle path and public root with the content it must have.
      `wellFormed` is what `validate_install_plan` decides from the fields' shapes, and
      `distinct` whether the roots and the deployment root are five different keys. */
  datatype Plan = Plan(operation: nat, host: nat, members: map<string, nat>, roots: map<string, nat>, serial: nat,
                       wellFormed: bool, distinct: bool)

  /** Records that store digests hold the records themselves. */
  datatype Approval = Approval(plan: Plan, window: Window)

  datatype Intent = Intent(operation: nat, plan: Plan, approval: Approval, authorizedAt: int)

  datatype Receipt = Receipt(pass: bool, operation: nat, plan: Plan, approval: Approval, intent: Intent,
                             bundle: map<string, nat>, roots: map<string, nat>, host: nat, acceptedAt: int)

  /** `rest` is its contract, decision and any further field. */
  datatype Enrollment = Enrollment(receipt: Receipt, host: nat, files: map<string, nat>, bundle: map<string, nat>,
                                   roots: map<string, nat>, rest: nat)

  datatype Lineage = Lineage(plan: Option<File<Plan>>, approval: Option<File<Approval>>, intent: Option<File<Intent>>,
                             receipt: Option<File<Receipt>>, enrollment: Option<File<Enrollment>>)

  /** The staged or installed tree: its top entries, the bundle's directories and files,
      the enrollment's lineage leaves, and all its other leaves. */
  datatype Tree = Tree(tops: set<string>, folders: set<string>, members: map<string, File<nat>>,
                       others: map<string, File<nat>>, lineage: Lineage)

  /** A record published through a pending temporary; the temporary's bytes are never read. */
  datatype Leaf<+A> = Missing | Pending | Published(value: A)

  datatype Operation = Operation(plan: Leaf<Plan>, approval: Leaf<Approval>, intent: Leaf<Intent>,
                                 receipt: Leaf<Receipt>)

  datatype Disk = Disk(flat: Option<File<Intent>>, operation: Option<Operation>,
                       temporary: Option<Tree>, final: Option<Tree>)

  const SKEW := 30000

  /** The preflight's look at the approval tolerates a clock thirty seconds ahead. */
  predicate Current(w: Window, now: int) {
    w.genuine && w.issuedAt <= now + SKEW && now < w.expiresAt && 0 < w.expiresAt - w.issuedAt <= LONGEST
  }

  /** Signed, at most half an hour and more than nothing long, not over, and begun or
      beginning within thirty seconds. */
  ghost predicate Recent(w: Window, now: int) {
    && w.genuine && now < w.expiresAt && w.issuedAt - now <= 30000
    && w.issuedAt < w.expiresAt <= w.issuedAt + 1800000
  }

  /** `preflight` is everything `_preflight` checks besides the plan and its approval. */
  datatype Env = Env(now: int, authorizing: int, locks: bool, preflight: bool)

  const NO_LINEAGE := Lineage(None, None, None, None, None)
  const NO_RECORDS := Operation(Missing, Missing, Missing, Missing)

  const TOPS := {"bundle", "enrollment"}

  /** The value of the enrollment fields that no check looks at. */
  const STANDARD := 0

  /** Every directory on the way to a path: its prefixes that end before a slash. */
  function Folders(paths: set<string>): set<string> {
    set path, k | path in paths && 0 < k < |path| && path[k] == '/' :: path[..k]
  }

  lemma FoldersExactly(paths: set<string>, folder: string)
    ensures folder in Folders(paths) <==> folder != "" && exists rest :: folder + "/" + rest in paths
  {
    if folder in Folders(paths) {
      var path, k :| path in paths && 0 < k < |path| && path[k] == '/' && folder == path[..k];
      assert path == folder + "/" + path[k + 1..];
    }
    if rest :| folder + "/" + rest in paths {
      var path := folder + "/" + rest;
      assert path[|folder|] == '/' && path[..|folder|] == folder;
    }
  }

  /** The files of a map that are not yet `left` to write. */
  function WrittenBut(content: map<string, nat>, left: set<string>): map<string, File<nat>> {
    map name | name in content && name !in left :: Whole(content[name])
  }

  function Written(content: map<string, nat>): map<string, File<nat>> {
    WrittenBut(content, {})
  }

  /** What `apply` accepts with: the instant of its intent. */
  function ReceiptOf(intent: Intent): Receipt {
    SignedReceipt(intent, intent.authorizedAt)
  }

  function SignedReceipt(intent: Intent, at: int): Receipt {
    var plan := intent.plan;
    Receipt(true, plan.operation, plan, intent.approval, intent, plan.members, plan.roots, plan.host, at)
  }

  function EnrollmentOf(plan: Plan, receipt: Receipt): Enrollment {
    Enrollment(receipt, plan.host, plan.members, plan.members, plan.roots, STANDARD)
  }

  /** The signed tree, accepted at `at`. */
  function TreeOf(intent: Intent, at: int): Tree {
    var plan := intent.plan;
    var receipt :=
      Receipt(true, plan.operation, plan, intent.approval, intent, plan.members, plan.roots, plan.host, at);
    Tree({"bundle", "enrollment"}, Folders(plan.members.Keys),
         map name | name in plan.members :: Whole(plan.members[name]),
         map name | name in plan.roots :: Whole(plan.roots[name]),
         Lineage(Filled(plan), Filled(intent.approval), Filled(intent), Filled(receipt),
                 Filled(Enrollment(receipt, plan.host, plan.members, plan.members, plan.roots, STANDARD))))
  }

  function Records(intent: Intent, receipt: Leaf<Receipt>): Operation {
    Operation(Published(intent.plan), Published(intent.approval), Published(intent), receipt)
  }

  /** The state an uninterrupted `apply` leaves, but for its receipt leaf. */
  function Installed(intent: Intent, receipt: Leaf<Receipt>): Disk {
    Disk(Filled(intent), Some(Records(intent, receipt)), None,
         Some(TreeOf(intent, intent.authorizedAt)))
  }

  predicate Clean(d: Disk) {
    d.flat.None? && d.operation.None? && d.temporary.None? && d.final.None?
  }

  /** A cut before the final rename: each record is begun only once the one before it
      is published, and staging only after all of them. */
  predicate Early(intent: Intent, d: Disk) {
    && d.flat in {Some(Torn), Filled(intent)} && d.final.None?
    && (d.flat == Some(Torn) ==> d.operation.None?)
    && (d.operation.Some? ==>
          && var o := d.operation.value;
          && o.plan in {Missing, Pending, Published(intent.plan)}
          && o.approval in {Missing, Pending, Published(intent.approval)}
          && o.intent in {Missing, Pending, Published(intent)}
          && (!o.approval.Missing? ==> o.plan == Published(intent.plan))
          && (!o.intent.Missing? ==> o.approval == Published(intent.approval))
          && o.receipt.Missing?)
    && (d.temporary.Some? ==> d.operation == Some(Records(intent, Missing)))
  }

  /** `_publish_new`: a fresh temporary, filled, renamed onto a fresh name. */
  method PublishRecords(m: Machine<Disk>, pending: Operation, published: Operation) returns (r: Status)
    requires m.disk.operation.Some?
    modifies m
    ensures r == if old(m.power) < 3 then PowerLost else Ok
    ensures m.disk == if r.Ok? then old(m.disk).(operation := Some(published))
                      else if old(m.power) == 0 then old(m.disk) else old(m.disk).(operation := Some(pending))
    ensures m.power == if r.Ok? then old(m.power) - 3 else 0
  {
    r := Ok;
    :- m.Put(m.disk.(operation := Some(pending)));
    :- m.Put(m.disk);
    r := m.Put(m.disk.(operation := Some(published)));
  }

  method RecordIntent(m: Machine<Disk>, intent: Intent) returns (r: Status)
    requires Clean(m.disk)
    modifies m
    ensures m.disk == old(m.disk) || Early(intent, m.disk)
    ensures r.Ok? ==> m.disk == Disk(Filled(intent), Some(Records(intent, Missing)), None, None)
    ensures !r.Refused? && (r.PowerLost? ==> old(m.power) < 12)
    ensures m.power >= old(m.power) - 12
  {
    r := Ok;
    :- m.Write(m.disk.(flat := Some(Torn)), m.disk.(flat := Filled(intent)));
    :- m.Put(m.disk.(operation := Some(NO_RECORDS)));
    :- PublishRecords(m, NO_RECORDS.(plan := Pending), NO_RECORDS.(plan := Published(intent.plan)));
    var o := m.disk.operation.value;
    :- PublishRecords(m, o.(approval := Pending), o.(approval := Published(intent.approval)));
    o := m.disk.operation.value;
    r := PublishRecords(m, o.(intent := Pending), o.(intent := Published(intent)));
  }

  function Staged(d: Disk, t: Tree): Disk {
    d.(temporary := Some(t))
  }

  function Bundled(plan: Plan): Tree {
    Tree(TOPS, Folders(plan.members.Keys), Written(plan.members), map[], NO_LINEAGE)
  }

  /** The bundle half of `_stage_tree`: directories, then members, each in any order. */
  method StageBundle(m: Machine<Disk>, ghost intent: Intent, plan: Plan) returns (r: Status)
    requires Early(intent, m.disk) && m.disk.operation == Some(Records(intent, Missing))
    modifies m
    ensures Early(intent, m.disk) && m.disk == old(m.disk).(temporary := m.disk.temporary)
    ensures r.Ok? ==> m.disk.temporary == Some(Bundled(plan))
    ensures !r.Refused? && (r.PowerLost? ==> old(m.power) < 3 + |Folders(plan.members.Keys)| + 2 * |plan.members|)
    ensures m.power >= old(m.power) - 3 - |Folders(plan.members.Keys)| - 2 * |plan.members|
  {
    r := Ok;
    :- m.Put(Staged(m.disk, Tree({}, {}, map[], map[], NO_LINEAGE)));
    :- m.Put(Staged(m.disk, Tree({"bundle"}, {}, map[], map[], NO_LINEAGE)));
    :- m.Put(Staged(m.disk, Tree(TOPS, {}, map[], map[], NO_LINEAGE)));
    :- StageFolders(m, Folders(plan.members.Keys));
    r := StageMembers(m, plan);
  }

  method StageFolders(m: Machine<Disk>, folders: set<string>) returns (r: Status)
    requires m.disk.temporary == Some(Tree(TOPS, {}, map[], map[], NO_LINEAGE))
    modifies m
    ensures m.disk == old(m.disk).(temporary := m.disk.temporary) && m.disk.temporary.Some?
    ensures r.Ok? ==> m.disk.temporary == Some(Tree(TOPS, folders, map[], map[], NO_LINEAGE))
    ensures !r.Refused? && (r.PowerLost? ==> old(m.power) < |folders|)
    ensures m.power >= old(m.power) - |folders|
  {
    var t := m.disk.temporary.value;
    var left := folders;
    assert folders - left == {};
    while left != {}
      invariant left <= folders && m.disk == Staged(old(m.disk), t.(folders := folders - left))
      invariant m.power >= old(m.power) - (|folders| - |left|)
      decreases |left|
    {
      var folder :| folder in left;
      assert folders - (left - {folder}) == folders - left + {folder};
      :- m.Put(Staged(m.disk, t.(folders := folders - left + {folder})));
      left := left - {folder};
    }
    assert folders - left == folders;
    return Ok;
  }

  method StageMembers(m: Machine<Disk>, plan: Plan) returns (r: Status)
    requires m.disk.temporary == Some(Bundled(plan).(members := map[]))
    modifies m
    ensures m.disk == old(m.disk).(temporary := m.disk.temporary) && m.disk.temporary.Some?
    ensures r.Ok? ==> m.disk.temporary == Some(Bundled(plan))
    ensures !r.Refused? && (r.PowerLost? ==> old(m.power) < 2 * |plan.members|)
    ensures m.power >= old(m.power) - 2 * |plan.members|
  {
    var t := m.disk.temporary.value;
    var left := plan.members.Keys;
    assert WrittenBut(plan.members, left) == map[];
    while left != {}
      invariant left <= plan.members.Keys
      invariant m.disk == Staged(old(m.disk), t.(members := WrittenBut(plan.members, left)))
      invariant m.power >= old(m.power) - 2 * (|plan.members| - |left|)
      decreases |left|
    {
      var name :| name in left;
      var done := WrittenBut(plan.members, left);
      assert WrittenBut(plan.members, left - {name}) == done[name := Whole(plan.members[name])];
      :- m.Write(Staged(m.disk, t.(members := done[name := Torn])),
                  Staged(m.disk, t.(members := done[name := Whole(plan.members[name])])));
      left := left - {name};
    }
    return Ok;
  }

  /** The enrollment half: the public roots, then the lineage. */
  method StageRoots(m: Machine<Disk>, ghost intent: Intent, plan: Plan) returns (r: Status)
    requires Early(intent, m.disk) && m.disk.temporary == Some(Bundled(plan))
    modifies m
    ensures Early(intent, m.disk) && m.disk == old(m.disk).(temporary := m.disk.temporary)
    ensures r.Ok? ==> m.disk.temporary == Some(Bundled(plan).(others := Written(plan.roots)))
    ensures !r.Refused? && (r.PowerLost? ==> old(m.power) < 2 * |plan.roots|)
    ensures m.power >= old(m.power) - 2 * |plan.roots|
  {
    var t := m.disk.temporary.value;
    var left := plan.roots.Keys;
    assert WrittenBut(plan.roots, left) == map[];
    while left != {}
      invariant left <= plan.roots.Keys
      invariant m.disk == Staged(old(m.disk), t.(others := WrittenBut(plan.roots, left)))
      invariant m.power >= old(m.power) - 2 * (|plan.roots| - |left|)
      decreases |left|
    {
      var name :| name in left;
      var done := WrittenBut(plan.roots, left);
      assert WrittenBut(plan.roots, left - {name}) == done[name := Whole(plan.roots[name])];
      :- m.Write(Staged(m.disk, t.(others := done[name := Torn])),
                  Staged(m.disk, t.(others := done[name := Whole(plan.roots[name])])));
      left := left - {name};
    }
    return Ok;
  }

  method StageLineage(m: Machine<Disk>, intent: Intent) returns (r: Status)
    requires Early(intent, m.disk) && m.disk.temporary.Some? && m.disk.temporary.value.lineage == NO_LINEAGE
    modifies m
    ensures Early(intent, m.disk) && m.disk == old(m.disk).(temporary := m.disk.temporary)
    ensures r.Ok? ==>
              m.disk.temporary == Some(old(m.disk).temporary.value.(
                lineage := TreeOf(intent, intent.authorizedAt).lineage))
    ensures !r.Refused? && (r.PowerLost? ==> old(m.power) < 10)
    ensures m.power >= old(m.power) - 10
  {
    var t, receipt := m.disk.temporary.value, ReceiptOf(intent);
    var l := NO_LINEAGE;
    :- m.Write(Staged(m.disk, t.(lineage := l.(plan := Some(Torn)))),
                Staged(m.disk, t.(lineage := l.(plan := Filled(intent.plan)))));
    l := m.disk.temporary.value.lineage;
    :- m.Write(Staged(m.disk, t.(lineage := l.(approval := Some(Torn)))),
                Staged(m.disk, t.(lineage := l.(approval := Filled(intent.approval)))));
    l := m.disk.temporary.value.lineage;
    :- m.Write(Staged(m.disk, t.(lineage := l.(intent := Some(Torn)))),
                Staged(m.disk, t.(lineage := l.(intent := Filled(intent)))));
    l := m.disk.temporary.value.lineage;
    :- m.Write(Staged(m.disk, t.(lineage := l.(receipt := Some(Torn)))),
                Staged(m.disk, t.(lineage := l.(receipt := Filled(receipt)))));
    l := m.disk.temporary.value.lineage;
    r := m.Write(Staged(m.disk, t.(lineage := l.(enrollment := Some(Torn)))),
                  Staged(m.disk, t.(lineage := l.(enrollment := Filled(EnrollmentOf(intent.plan, receipt))))));
  }

  // ---- The checks of an installed tree.

  /** `validate_install_approval`: the shape of the plan, and an approval of exactly it. */
  predicate ValidApproval(plan: Plan, approval: Approval, at: int) {
    plan.wellFormed && approval.plan == plan && Live(approval.window, at)
  }

  /** `validate_installer_receipt`. */
  predicate ValidReceipt(plan: Plan, approval: Approval, receipt: Receipt) {
    && receipt.pass && receipt.operation == plan.operation
    && receipt.plan == plan && receipt.approval == approval
    && receipt.bundle == plan.members && receipt.roots == plan.roots && receipt.host == plan.host
    && ValidApproval(plan, approval, receipt.acceptedAt)
  }

  /** `verify_bundle_inventory`: every admitted leaf has its content, and no other leaf
      or directory is there. */
  predicate Inventory(t: Tree, expected: map<string, nat>) {
    && (forall name :: name in expected ==> name in t.members && t.members[name] == Whole(expected[name]))
    && t.members.Keys == expected.Keys && t.folders == Folders(expected.Keys)
  }

  /** `validate_enrollment_chain`: the tree's own plan, approval, intent and receipt
      bind one another, and its enrollment and roots belong to them. */
  predicate Chain(t: Tree, enrollment: Enrollment) {
    var l := t.lineage;
    && l.plan.Some? && l.plan.value.Whole? && l.approval.Some? && l.approval.value.Whole?
    && l.receipt.Some? && l.receipt.value.Whole? && l.intent.Some? && l.intent.value.Whole?
    && var plan, approval := l.plan.value.value, l.approval.value.value;
    && var receipt, intent := l.receipt.value.value, l.intent.value.value;
    && ValidReceipt(plan, approval, receipt)
    && intent.operation == plan.operation && intent.plan == plan && intent.approval == approval
    && receipt.intent == intent && intent.authorizedAt <= receipt.acceptedAt
    && ValidApproval(plan, approval, intent.authorizedAt)
    && enrollment.receipt == receipt && enrollment.host == plan.host
    && enrollment.files == plan.members && enrollment.bundle == plan.members && enrollment.roots == plan.roots
    && (forall name :: name in plan.roots ==> name in t.others && t.others[name] == Whole(plan.roots[name]))
    && plan.distinct
  }

  /** Everything `reconcile` checks of an installed tree against the signed plan, the
      approval and the recorded intent. Inner records are compared only through the
      receipt that stands in the tree itself. */
  predicate Passes(t: Tree, plan: Plan, approval: Approval, intent: Intent) {
    && t.lineage.receipt.Some? && t.lineage.receipt.value.Whole?
    && var receipt := t.lineage.receipt.value.value;
    && receipt.intent == intent
    && ValidReceipt(plan, approval, receipt)
    && Inventory(t, plan.members)
    && t.lineage.enrollment.Some? && t.lineage.enrollment.value.Whole?
    && Chain(t, t.lineage.enrollment.value.value)
    && t.tops == TOPS
  }

  /** The signed tree of an intent, but for what no check looks at: the enrollment's
      remaining fields, and further leaves beside the roots. */
  predicate IsSigned(t: Tree, intent: Intent, at: int, rest: nat) {
    var signed := TreeOf(intent, at);
    && t == signed.(others := t.others, lineage := signed.lineage.(
                      enrollment := Filled(signed.lineage.enrollment.value.value.(rest := rest))))
    && forall name :: name in signed.others ==> name in t.others && t.others[name] == signed.others[name]
  }

  /** The chain of digests leaves no freedom: whatever stands in the tree, passing every
      check makes it the signed tree of the recorded intent, to every path, byte and
      field, accepted at a live instant not before the intent. */
  lemma PassesForcesTree(t: Tree, plan: Plan, approval: Approval, intent: Intent)
    requires Passes(t, plan, approval, intent)
    ensures var at := t.lineage.receipt.value.value.acceptedAt;
            && intent.plan == plan && intent.approval == approval && intent.operation == plan.operation
            && IsSigned(t, intent, at, t.lineage.enrollment.value.value.rest)
            && intent.authorizedAt <= at && plan.distinct
            && ValidApproval(plan, approval, at) && ValidApproval(plan, approval, intent.authorizedAt)
  {
    assert t.members == Written(plan.members);
  }

  lemma SignedPasses(t: Tree, intent: Intent, at: int, rest: nat)
    requires IsSigned(t, intent, at, rest) && intent.operation == intent.plan.operation
    requires intent.authorizedAt <= at && intent.plan.distinct
    requires ValidApproval(intent.plan, intent.approval, at)
    requires ValidApproval(intent.plan, intent.approval, intent.authorizedAt)
    ensures Passes(t, intent.plan, intent.approval, intent)
  {
    forall name | name in intent.plan.roots
      ensures name in t.others && t.others[name] == Whole(intent.plan.roots[name])
    {
      assert name in TreeOf(intent, at).others;
    }
  }

  /** An intent `apply` may record. */
  ghost predicate Authorizes(intent: Intent) {
    && intent.operation == intent.plan.operation && intent.plan.distinct && intent.plan.wellFormed
    && intent.approval.plan == intent.plan && InForce(intent.approval.window, intent.authorizedAt)
  }

  /** The tree `apply` stages passes at once. */
  lemma StagedPasses(intent: Intent)
    requires Authorizes(intent)
    ensures Passes(TreeOf(intent, intent.authorizedAt), intent.plan, intent.approval, intent)
  {
    SignedPasses(TreeOf(intent, intent.authorizedAt), intent, intent.authorizedAt, STANDARD);
  }

  /** What a cut of `apply` can leave. */
  datatype Residue = Nothing | Partial | Unreceipted | ReceiptPending | Complete

  predicate LeftAs(residue: Residue, before: Disk, intent: Intent, d: Disk) {
    match residue
    case Nothing => d == before
    case Partial => Early(intent, d)
    case Unreceipted => d == Installed(intent, Missing)
    case ReceiptPending => d == Installed(intent, Pending)
    case Complete => d == Installed(intent, Published(ReceiptOf(intent)))
  }

  function Size(plan: Plan): nat {
    |Folders(plan.members.Keys)| + 2 * |plan.members| + 2 * |plan.roots|
  }

  method StageAll(m: Machine<Disk>, intent: Intent) returns (r: Status)
    requires m.disk == Disk(Filled(intent), Some(Records(intent, Missing)), None, None)
    modifies m
    ensures Early(intent, m.disk)
    ensures r.Ok? ==> m.disk == old(m.disk).(temporary := Some(TreeOf(intent, intent.authorizedAt)))
    ensures !r.Refused?
    ensures r.PowerLost? ==> old(m.power) < 13 + Size(intent.plan)
    ensures m.power >= old(m.power) - 13 - Size(intent.plan)
  {
    r := Ok;
    ghost var signed := TreeOf(intent, intent.authorizedAt);
    assert signed.members == Written(intent.plan.members) && signed.others == Written(intent.plan.roots);
    :- StageBundle(m, intent, intent.plan);
    :- StageRoots(m, intent, intent.plan);
    r := StageLineage(m, intent);
  }

  /** `apply`. */
  method Apply(m: Machine<Disk>, plan: Plan, approval: Approval, env: Env) returns (r: Status, ghost residue: Residue)
    modifies m
    ensures LeftAs(residue, old(m.disk), IntentFor(plan, approval, env), m.disk)
    ensures r.Ok? <==> residue == Complete
    ensures residue != Nothing ==> old(m.disk) == Disk(None, None, None, None)
                                   && Authorizes(IntentFor(plan, approval, env))
                                   && env.locks && env.preflight && Recent(approval.window, env.now)
    ensures old(m.disk).flat.Some? ==> r.Refused? && m.disk == old(m.disk)
    ensures m.disk != old(m.disk) ==> m.disk.flat.Some?
    ensures (&& Clean(old(m.disk)) && Authorizes(IntentFor(plan, approval, env)) && env.locks && env.preflight
             && Recent(approval.window, env.now) && old(m.power) >= 29 + Size(plan)) ==> r.Ok?
  {
    residue := Nothing;
    r := Need(env.locks && env.preflight && plan.distinct && plan.wellFormed
              && approval.plan == plan && Current(approval.window, env.now));
    if !r.Ok? { return; }
    var intent := IntentFor(plan, approval, env);
    r := Need(Clean(m.disk) && ValidApproval(plan, approval, intent.authorizedAt));
    if !r.Ok? { return; }
    r := RecordIntent(m, intent);
    residue := if m.disk == old(m.disk) then Nothing else Partial;
    if !r.Ok? { return; }
    residue := Partial;
    r := StageAll(m, intent);
    if !r.Ok? { return; }
    r, residue := Finish(m, intent);
  }

  function IntentFor(plan: Plan, approval: Approval, env: Env): Intent {
    Intent(plan.operation, plan, approval, env.authorizing)
  }

  /** The staged bundle is checked, renamed into place, checked again with its whole
      lineage, and only then receipted. */
  method Finish(m: Machine<Disk>, intent: Intent) returns (r: Status, ghost residue: Residue)
    requires Authorizes(intent)
    requires m.disk == Disk(Filled(intent), Some(Records(intent, Missing)), Some(TreeOf(intent, intent.authorizedAt)),
                            None)
    modifies m
    ensures LeftAs(residue, old(m.disk), intent, m.disk) && residue != Nothing
    ensures !r.Refused? && (r.Ok? <==> residue == Complete)
    ensures r.PowerLost? ==> old(m.power) < 4
  {
    StagedPasses(intent);
    residue := Partial;
    r := Need(Inventory(m.disk.temporary.value, intent.plan.members));
    if !r.Ok? { return; }
    r := m.Put(m.disk.(final := m.disk.temporary, temporary := None));
    if !r.Ok? { return; }
    residue := Unreceipted;
    var t, receipt := m.disk.final.value, ReceiptOf(intent);
    r := Need(Inventory(t, intent.plan.members) && ValidReceipt(intent.plan, intent.approval, receipt)
              && Chain(t, EnrollmentOf(intent.plan, receipt)));
    if !r.Ok? { return; }
    ghost var power := m.power;
    r := PublishRecords(m, Records(intent, Pending), Records(intent, Published(receipt)));
    residue := if r.Ok? then Complete else if power == 0 then Unreceipted else ReceiptPending;
  }

  // ---- Reconciliation.

  datatype Decision =
    | IntentAbsent | TornIntent | IntentOnly | PartialReceipt | PartialAudit | PartialStaging
    | InconsistentReceipt | NoInstalledEffect | PartialFinal
    | AlreadyInstalled(receipt: Receipt) | ReconciledInstalled(receipt: Receipt)

  predicate ReportsInstalled(decision: Decision) {
    decision.AlreadyInstalled? || decision.ReconciledInstalled?
  }

  /** An audit leaf that is there must be the signed one. */
  predicate Allowed<A(==)>(leaf: Leaf<A>, value: A) {
    leaf.Published? ==> leaf.value == value
  }

  /** `reconcile`, up to the point where it may publish. `None` is a raised error. */
  function Classify(d: Disk, plan: Plan, approval: Approval): Option<Decision> {
    if !plan.wellFormed then None
    else if d.flat.None? then Some(IntentAbsent)
    else if d.flat.value.Torn? then Some(TornIntent)
    else
      var intent := d.flat.value.value;
      if !(intent.operation == plan.operation && intent.plan == plan && intent.approval == approval
           && ValidApproval(plan, approval, intent.authorizedAt)) then None
      else if d.operation.None? then Some(IntentOnly)
      else ClassifyOperation(d, d.operation.value, intent)
  }

  function ClassifyOperation(d: Disk, o: Operation, intent: Intent): Option<Decision> {
    if o.receipt.Pending? then Some(PartialReceipt)
    else if o.plan.Pending? || o.approval.Pending? || o.intent.Pending? then Some(PartialAudit)
    else if !(Allowed(o.plan, intent.plan) && Allowed(o.approval, intent.approval) && Allowed(o.intent, intent)) then
      None
    else if o.plan.Missing? || o.approval.Missing? || o.intent.Missing? then Some(PartialAudit)
    else if d.temporary.Some? then Some(PartialStaging)
    else if d.final.None? then Some(if o.receipt.Published? then InconsistentReceipt else NoInstalledEffect)
    else if !Passes(d.final.value, intent.plan, intent.approval, intent) then Some(PartialFinal)
    else
      var receipt := d.final.value.lineage.receipt.value.value;
      if o.receipt == Missing then Some(ReconciledInstalled(receipt))
      else if o.receipt.value == receipt then Some(AlreadyInstalled(receipt))
      else Some(PartialReceipt)
  }

  /** `reconcile`. */
  method Reconcile(m: Machine<Disk>, plan: Plan, approval: Approval, locks: bool)
    returns (r: Status, decision: Decision)
    modifies m
    ensures r.Ok? <==> locks && Classify(old(m.disk), plan, approval).Some?
                       && (Classify(old(m.disk), plan, approval).value.ReconciledInstalled? ==> old(m.power) >= 3)
    ensures r.Ok? ==> Some(decision) == Classify(old(m.disk), plan, approval)
    ensures r.Ok? && decision.ReconciledInstalled? ==>
              && old(m.disk).operation.Some?
              && m.disk == old(m.disk).(operation := Some(old(m.disk).operation.value.(
                             receipt := Published(decision.receipt))))
    ensures r.Ok? && !decision.ReconciledInstalled? ==> m.disk == old(m.disk)
    ensures m.disk != old(m.disk) ==> Classify(old(m.disk), plan, approval).Some?
                                      && Classify(old(m.disk), plan, approval).value.ReconciledInstalled?
    ensures old(m.power) == 0 ==> m.disk == old(m.disk)
    ensures (locks && old(m.power) > 0 && !r.Ok? && Classify(old(m.disk), plan, approval).Some?
             && Classify(old(m.disk), plan, approval).value.ReconciledInstalled?) ==> m.disk != old(m.disk)
    ensures m.disk != old(m.disk) && !r.Ok? ==>
              m.disk == old(m.disk).(operation := Some(old(m.disk).operation.value.(receipt := Pending)))
  {
    decision := IntentAbsent;
    :- Need(locks && Classify(m.disk, plan, approval).Some?);
    decision := Classify(m.disk, plan, approval).value;
    if decision.ReconciledInstalled? {
      var o := m.disk.operation.value;
      :- PublishRecords(m, o.(receipt := Pending), o.(receipt := Published(decision.receipt)));
    }
    return Ok, decision;
  }

  /** Whatever is on disk, an intent that can be read is decided about only if it is this
      plan's and this approval's, recorded while the approval was in force. */
  lemma DecidesItsOwn(d: Disk, plan: Plan, approval: Approval)
    ensures Classify(d, plan, approval).Some? && d.flat.Some? && d.flat.value.Whole? ==>
              var at := d.flat.value.value.authorizedAt;
              && d.flat.value.value == Intent(plan.operation, plan, approval, at)
              && plan.wellFormed && approval.plan == plan && InForce(approval.window, at)
  {
  }

  /** Whatever is on disk, `installed` is reported only for the signed tree under the
      whole signed audit trail. */
  lemma InstalledMeansWhole(d: Disk, plan: Plan, approval: Approval)
    requires Classify(d, plan, approval).Some? && ReportsInstalled(Classify(d, plan, approval).value)
    ensures d.flat.Some? && d.flat.value.Whole? && d.final.Some? && d.temporary.None? && d.operation.Some?
    ensures d.final.value.lineage.enrollment.Some? && d.final.value.lineage.enrollment.value.Whole?
    ensures var intent, receipt := d.flat.value.value, Classify(d, plan, approval).value.receipt;
            && intent.plan == plan && intent.approval == approval && Authorizes(intent)
            && receipt == Receipt(true, plan.operation, plan, approval, intent, plan.members, plan.roots, plan.host,
                                  receipt.acceptedAt)
            && intent.authorizedAt <= receipt.acceptedAt && InForce(approval.window, receipt.acceptedAt)
            && IsSigned(d.final.value, intent, receipt.acceptedAt, d.final.value.lineage.enrollment.value.value.rest)
            && d.operation.value in {Records(intent, Missing), Records(intent, Published(receipt))}
  {
    PassesForcesTree(d.final.value, plan, approval, d.flat.value.value);
    hide Passes;
    hide Chain;
  }

  /** What no check looks at may indeed differ: a tree with another enrollment record
      and a foreign leaf beside the roots is reported installed all the same. */
  lemma ForeignLeafIsInstalled(intent: Intent, rest: nat, leaf: string, content: File<nat>)
    requires Authorizes(intent) && leaf !in intent.plan.roots
    ensures var d := Installed(intent, Missing);
            var t := d.final.value;
            var e := t.lineage.enrollment.value.value;
            var altered := t.(others := t.others[leaf := content],
                              lineage := t.lineage.(enrollment := Filled(e.(rest := rest))));
            && altered != t
            && Classify(d.(final := Some(altered)), intent.plan, intent.approval) ==
               Some(ReconciledInstalled(ReceiptOf(intent)))
  {
    var t := TreeOf(intent, intent.authorizedAt);
    var altered := t.(others := t.others[leaf := content],
                      lineage := t.lineage.(enrollment := Filled(t.lineage.enrollment.value.value.(rest := rest))));
    assert leaf in altered.others && leaf !in t.others;
    SignedPasses(altered, intent, intent.authorizedAt, rest);
    hide Passes;
  }

  /** What each cut of `apply` is classified as: installed exactly from the rename on. */
  lemma ClassifiesEveryCut(residue: Residue, before: Disk, intent: Intent, d: Disk)
    requires Clean(before) && LeftAs(residue, before, intent, d)
    requires Authorizes(intent)
    ensures Classify(d, intent.plan, intent.approval).Some?
    ensures var decision := Classify(d, intent.plan, intent.approval).value;
            && (ReportsInstalled(decision) <==> residue in {Unreceipted, Complete})
            && (residue == Unreceipted ==> decision == ReconciledInstalled(ReceiptOf(intent)))
            && (residue == Complete ==> decision == AlreadyInstalled(ReceiptOf(intent)))
            && (residue == ReceiptPending ==> decision == PartialReceipt)
  {
    StagedPasses(intent);
    hide Passes;
  }

  /** An apply cut anywhere, then two reconciliations: they report installed exactly
      when the tree was renamed into place and no receipt was begun or it was finished;
      the state is then an uninterrupted run's, the second changes nothing, and both
      name the same receipt. */
  method ApplyThenReconcile(m: Machine<Disk>, plan: Plan, approval: Approval, env: Env, cut: nat)
    returns (first: Decision, second: Decision, ghost residue: Residue)
    requires Clean(m.disk) && Authorizes(IntentFor(plan, approval, env))
    modifies m
    ensures ReportsInstalled(first) <==> residue in {Unreceipted, Complete}
    ensures ReportsInstalled(first) ==>
              && m.disk == Installed(IntentFor(plan, approval, env),
                                     Published(ReceiptOf(IntentFor(plan, approval, env))))
              && second == AlreadyInstalled(first.receipt)
    ensures !ReportsInstalled(first) ==> second == first
  {
    var intent := IntentFor(plan, approval, env);
    m.power := cut;
    var r;
    r, residue := Apply(m, plan, approval, env);
    ClassifiesEveryCut(residue, old(m.disk), intent, m.disk);
    m.power := 3;
    r, first := Reconcile(m, plan, approval, true);
    if ReportsInstalled(first) {
      ClassifiesEveryCut(Complete, old(m.disk), intent, m.disk);
    }
    m.power := 3;
    r, second := Reconcile(m, plan, approval, true);
  }

  /** A reconciliation that is itself cut ends the matter: the receipt's temporary is
      left behind, and every later reconciliation calls it partial. */
  method ReconcileCut(m: Machine<Disk>, plan: Plan, approval: Approval, cut: nat)
    returns (r: Status, decision: Decision)
    requires Classify(m.disk, plan, approval).Some? && Classify(m.disk, plan, approval).value.ReconciledInstalled?
    modifies m
    ensures r.Ok? && (decision == PartialReceipt <==> 0 < cut < 3)
  {
    ghost var d := m.disk;
    ghost var receipt := Classify(d, plan, approval).value.receipt;
    assert d.operation.Some? && d.operation.value.receipt == Missing;
    m.power := cut;
    r, decision := Reconcile(m, plan, approval, true);
    if 0 < cut < 3 {
      assert m.disk == d.(operation := Some(d.operation.value.(receipt := Pending)));
      assert Classify(m.disk, plan, approval) == Some(PartialReceipt);
    } else if cut >= 3 {
      assert m.disk == d.(operation := Some(d.operation.value.(receipt := Published(receipt))));
      assert Classify(m.disk, plan, approval) == Some(AlreadyInstalled(receipt));
    }
    m.power := 3;
    r, decision := Reconcile(m, plan, approval, true);
  }
}
