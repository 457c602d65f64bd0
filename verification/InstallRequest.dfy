/** The install request, `stage_request` and `reconcile_request` of
    `bundle_installer.py`: captured signed bytes placed once, with the receipt written
    in place rather than renamed. */
module InstallRequest {
  import opened Files
  import opened Power

  /** `files` are the request's files by content, in the order they are written. */
  datatype Intent = Intent(plan: nat, approval: nat, files: seq<nat>, authorizedAt: int)

  datatype Disk = Disk(intent: Option<File<Intent>>, temporary: Option<seq<File<nat>>>,
                       final: Option<seq<File<nat>>>, receipt: Option<File<Intent>>)

  /** One signed request: identities of its plan and approval, the window, the bytes. */
  datatype Request = Request(plan: nat, approval: nat, window: Window, files: seq<nat>)

  function IntentOf(q: Request, at: int): Intent {
    Intent(q.plan, q.approval, q.files, at)
  }

  function Placed(intent: Intent, receipt: Option<File<Intent>>): Disk {
    Disk(Some(Whole(intent)), None, Some(Leaves(intent.files)), receipt)
  }

  datatype Residue = Nothing | Partial | Unreceipted | ReceiptTorn | Complete

  predicate LeftAs(residue: Residue, before: Disk, intent: Intent, d: Disk) {
    match residue
    case Nothing => d == before
    case Partial =>
      && d.intent in {Some(Torn), Some(Whole(intent))} && d.final.None? && d.receipt.None?
      && (d.intent == Some(Torn) ==> d.temporary.None?)
    case Unreceipted => d == Placed(intent, None)
    case ReceiptTorn => d == Placed(intent, Some(Torn))
    case Complete => d == Placed(intent, Some(Whole(intent)))
  }

  predicate Clean(d: Disk) {
    d == Disk(None, None, None, None)
  }

  method PlaceFiles(m: Machine<Disk>, intent: Intent) returns (r: Status)
    requires m.disk == Disk(Some(Whole(intent)), None, None, None)
    modifies m
    ensures m.disk == old(m.disk).(temporary := m.disk.temporary)
    ensures r.Ok? ==> m.disk.temporary == Some(Leaves(intent.files))
    ensures !r.Refused? && (r.PowerLost? ==> old(m.power) < 1 + 2 * |intent.files|)
    ensures m.power >= old(m.power) - 1 - 2 * |intent.files|
  {
    r := Ok;
    :- m.Put(m.disk.(temporary := Some([])));
    assert Leaves(intent.files[..0]) == [];
    for i := 0 to |intent.files|
      invariant m.disk == old(m.disk).(temporary := Some(Leaves(intent.files[..i])))
      invariant m.power >= old(m.power) - 1 - 2 * i
    {
      var done := Leaves(intent.files[..i]);
      assert done + [Whole(intent.files[i])] == Leaves(intent.files[..i + 1]);
      :- m.Write(m.disk.(temporary := Some(done + [Torn])),
                 m.disk.(temporary := Some(done + [Whole(intent.files[i])])));
    }
    assert intent.files[..|intent.files|] == intent.files;
    return Ok;
  }

  /** `stage_request`; `allowed` is the preflight and the locks. */
  method Stage(m: Machine<Disk>, q: Request, allowed: bool, now: int) returns (r: Status, ghost residue: Residue)
    modifies m
    ensures LeftAs(residue, old(m.disk), IntentOf(q, now), m.disk)
    ensures r.Ok? <==> residue == Complete
    ensures residue != Nothing ==> old(m.disk) == Disk(None, None, None, None) && allowed && InForce(q.window, now)
    ensures old(m.disk).intent.Some? ==> r.Refused? && m.disk == old(m.disk)
    ensures m.disk != old(m.disk) ==> m.disk.intent.Some?
    ensures Clean(old(m.disk)) && allowed && InForce(q.window, now) && old(m.power) >= 6 + 2 * |q.files| ==> r.Ok?
  {
    residue := Nothing;
    r := Need(allowed && Clean(m.disk) && Live(q.window, now));
    if !r.Ok? { return; }
    var intent := IntentOf(q, now);
    ghost var power := m.power;
    r := m.Write(m.disk.(intent := Some(Torn)), m.disk.(intent := Some(Whole(intent))));
    residue := if power == 0 then Nothing else Partial;
    if !r.Ok? { return; }
    r := PlaceFiles(m, intent);
    if !r.Ok? { return; }
    r := m.Put(m.disk.(final := m.disk.temporary, temporary := None));
    if !r.Ok? { return; }
    power := m.power;
    r := m.Write(m.disk.(receipt := Some(Torn)), m.disk.(receipt := Some(Whole(intent))));
    residue := if r.Ok? then Complete else if power == 0 then Unreceipted else ReceiptTorn;
  }

  datatype Decision =
    | IntentAbsent | TornIntent | IntentOnly | PartialRequest | PartialReceipt
    | AlreadyStaged(receipt: Intent) | ReconciledStaged(receipt: Intent)

  predicate ReportsStaged(decision: Decision) {
    decision.AlreadyStaged? || decision.ReconciledStaged?
  }

  /** `reconcile_request`, up to its one write. `None` is a raised error. */
  function Classify(d: Disk, q: Request): Option<Decision> {
    if d.intent.None? then Some(IntentAbsent)
    else if d.intent.value.Torn? then Some(TornIntent)
    else
      var intent := d.intent.value.value;
      if !(intent == IntentOf(q, intent.authorizedAt) && Live(q.window, intent.authorizedAt)) then None
      else if d.temporary.Some? then Some(PartialRequest)
      else if d.final.None? then Some(IntentOnly)
      else if |d.final.value| != |q.files| then Some(PartialRequest)
      else if d.final.value != Leaves(q.files) then None
      else if d.receipt.None? then Some(ReconciledStaged(intent))
      else if d.receipt.value == Whole(intent) then Some(AlreadyStaged(intent))
      else Some(PartialReceipt)
  }

  method Reconcile(m: Machine<Disk>, q: Request, locks: bool) returns (r: Status, decision: Decision)
    modifies m
    ensures r.Ok? <==> locks && Classify(old(m.disk), q).Some?
                       && (Classify(old(m.disk), q).value.ReconciledStaged? ==> old(m.power) >= 2)
    ensures r.Ok? ==> Some(decision) == Classify(old(m.disk), q)
    ensures r.Ok? && decision.ReconciledStaged? ==> m.disk == old(m.disk).(receipt := Some(Whole(decision.receipt)))
    ensures r.Ok? && !decision.ReconciledStaged? ==> m.disk == old(m.disk)
    ensures m.disk != old(m.disk) && !r.Ok? ==> m.disk == old(m.disk).(receipt := Some(Torn))
  {
    decision := IntentAbsent;
    :- Need(locks && Classify(m.disk, q).Some?);
    decision := Classify(m.disk, q).value;
    if decision.ReconciledStaged? {
      :- m.Write(m.disk.(receipt := Some(Torn)), m.disk.(receipt := Some(Whole(decision.receipt))));
    }
    return Ok, decision;
  }

  /** The signed bytes stand in place, and nothing but their receipt may still be missing. */
  ghost predicate Stands(d: Disk, q: Request, receipt: Intent) {
    && receipt == Intent(q.plan, q.approval, q.files, receipt.authorizedAt) && InForce(q.window, receipt.authorizedAt)
    && d == Disk(Some(Whole(receipt)), None, Some(Leaves(q.files)), d.receipt)
  }

  /** Whatever is on disk, staged is reported exactly for the signed bytes in place. */
  lemma StagedMeansPlaced(d: Disk, q: Request, receipt: Intent)
    ensures Classify(d, q) == Some(AlreadyStaged(receipt)) <==>
              Stands(d, q, receipt) && d.receipt == Some(Whole(receipt))
    ensures Classify(d, q) == Some(ReconciledStaged(receipt)) <==> Stands(d, q, receipt) && d.receipt == None
    ensures Classify(d, q).Some? && d.intent == Some(Whole(receipt)) ==>
              && receipt == Intent(q.plan, q.approval, q.files, receipt.authorizedAt)
              && InForce(q.window, receipt.authorizedAt)
  {
  }

  lemma ClassifiesEveryCut(residue: Residue, before: Disk, q: Request, at: int, d: Disk)
    requires Clean(before) && LeftAs(residue, before, IntentOf(q, at), d) && InForce(q.window, at)
    ensures Classify(d, q).Some?
    ensures ReportsStaged(Classify(d, q).value) <==> residue in {Unreceipted, Complete}
    ensures residue == ReceiptTorn ==> Classify(d, q).value == PartialReceipt
  {
  }

  /** As for the installation: staged is reported exactly from the rename on, unless
      the receipt itself was torn, and two reconciliations agree. */
  method StageThenReconcile(m: Machine<Disk>, q: Request, at: int, cut: nat)
    returns (first: Decision, second: Decision, ghost residue: Residue)
    requires Clean(m.disk) && InForce(q.window, at)
    modifies m
    ensures ReportsStaged(first) <==> residue in {Unreceipted, Complete}
    ensures ReportsStaged(first) ==>
              m.disk == Placed(IntentOf(q, at), Some(Whole(IntentOf(q, at)))) && second == AlreadyStaged(first.receipt)
    ensures !ReportsStaged(first) ==> second == first
  {
    m.power := cut;
    var r;
    r, residue := Stage(m, q, true, at);
    ClassifiesEveryCut(residue, old(m.disk), q, at, m.disk);
    m.power := 2;
    r, first := Reconcile(m, q, true);
    if ReportsStaged(first) {
      ClassifiesEveryCut(Complete, old(m.disk), q, at, m.disk);
    }
    m.power := 2;
    r, second := Reconcile(m, q, true);
  }
}
