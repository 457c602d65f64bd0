/** The external worker's firewall: one chain, one ipset and two hooks in front of
    the parent list, kept by `external-network-fence.py`. Every command is one step,
    and a run may end between any two of them. */
module Fence {
  import opened Power
  import Sets

  type Address = int

  function Ip(a: nat, b: nat, c: nat, d: nat): Address {
    ((a * 256 + b) * 256 + c) * 256 + d
  }

  const DATABASE_WORKER: Address := Ip(172, 31, 42, 22)
  const EGRESS_WORKER: Address := Ip(172, 31, 43, 22)
  const POSTGRES: Address := Ip(172, 31, 42, 2)
  const CAPACITY := 64

  datatype Worker = Database | Egress

  function AddressOf(w: Worker): Address {
    if w == Database then DATABASE_WORKER else EGRESS_WORKER
  }

  /** A rule of the parent list: one that sends a worker into the owned chain, the
      project's own hook, or any other. */
  datatype ParentRule = Hook(worker: Worker) | Project | Other(id: nat)

  datatype ChainRule = AllowPostgres | AllowTls | DropRest

  const HOOKS := [Hook(Database), Hook(Egress)]
  const RULES := [AllowPostgres, AllowTls, DropRest]

  datatype Stage = Installing | Active | RollingBack | RolledBack

  datatype Saved = Saved(stage: Stage, origin: seq<ParentRule>)

  /** The kernel's tables and the durable state file. `next` is the temporary ipset. */
  datatype Disk = Disk(parent: seq<ParentRule>, chain: Option<seq<ChainRule>>,
                       live: Option<set<Address>>, next: Option<set<Address>>, state: Option<Saved>)

  // ---- What the rules mean to a packet.

  datatype Packet = Packet(source: Address, destination: Address, tcp: bool, port: int)

  /** The verdict of the parent list; `FellThrough` hands the packet to the rules after it. */
  datatype Verdict = Accepted | Dropped | FellThrough

  /** What a rule that is not ours does with a packet: `None` lets it continue. */
  type Given = (ParentRule, Packet) -> Option<Verdict>

  predicate Matches(rule: ChainRule, live: Option<set<Address>>, p: Packet) {
    match rule
    case AllowPostgres => p.source == DATABASE_WORKER && p.destination == POSTGRES && p.tcp && p.port == 5432
    case AllowTls => p.source == EGRESS_WORKER && p.tcp && p.port == 443 && live.Some? && p.destination in live.value
    case DropRest => true
  }

  /** The first matching rule of the owned chain decides; RETURN, or the end of the
      chain, resumes at the next parent rule. */
  predicate ChainDrops(rules: seq<ChainRule>, live: Option<set<Address>>, p: Packet) {
    rules != [] && if Matches(rules[0], live, p) then rules[0] == DropRest else ChainDrops(rules[1..], live, p)
  }

  function Evaluate(parent: seq<ParentRule>, d: Disk, given: Given, p: Packet): Verdict {
    if parent == [] then FellThrough
    else if parent[0].Hook? then
      if p.source == AddressOf(parent[0].worker) && d.chain.Some? && ChainDrops(d.chain.value, d.live, p) then Dropped
      else Evaluate(parent[1..], d, given, p)
    else match given(parent[0], p)
      case Some(verdict) => verdict
      case None => Evaluate(parent[1..], d, given, p)
  }

  /** The two flows the fence was built for. */
  predicate Allowed(d: Disk, p: Packet) {
    Matches(AllowPostgres, d.live, p) || Matches(AllowTls, d.live, p)
  }

  predicate FromWorker(p: Packet) {
    p.source == DATABASE_WORKER || p.source == EGRESS_WORKER
  }

  // ---- Where the tables may stand.

  predicate IsOrigin(origin: seq<ParentRule>) {
    origin != [] && origin[0] == Project && forall rule :: rule in origin ==> !rule.Hook?
  }

  predicate ParentAt(origin: seq<ParentRule>, parent: seq<ParentRule>) {
    parent == origin || parent == [HOOKS[1]] + origin || parent == HOOKS + origin
  }

  /** The untouched tail, hooks only before a complete chain, a set before any rule
      that names it, and what each stage of the state file promises. */
  predicate Safe(origin: seq<ParentRule>, d: Disk) {
    && IsOrigin(origin)
    && ParentAt(origin, d.parent)
    && (d.chain.Some? ==> d.chain.value <= RULES)
    && (d.parent != origin ==> d.chain == Some(RULES))
    && (d.chain.Some? && d.chain.value != [] ==> d.live.Some?)
    && (d.live.Some? ==> |d.live.value| <= 64) && (d.next.Some? ==> |d.next.value| <= 64)
    && match d.state
       case None => d.parent == origin && d.chain.None? && d.live.None?
       case Some(Saved(stage, recorded)) =>
         && recorded == origin
         && (stage == Installing && d.chain.Some? ==> d.live.Some? && d.next.None?)
         && (stage == Active ==> d.parent == HOOKS + origin)
         && (stage == RollingBack && d.chain.Some? ==> d.live.Some? && (d.chain.value == [] || d.chain.value == RULES))
         && (stage == RolledBack ==> d.parent == origin && d.chain.None? && d.live.None? && d.next.None?)
  }

  /** Rules that are not hooks do not look at the fence's tables. */
  lemma {:induction false} OriginIgnoresFence(rules: seq<ParentRule>, d0: Disk, d1: Disk, given: Given, p: Packet)
    requires forall rule :: rule in rules ==> !rule.Hook?
    ensures Evaluate(rules, d0, given, p) == Evaluate(rules, d1, given, p)
  {
    if rules != [] {
      OriginIgnoresFence(rules[1..], d0, d1, given, p);
    }
  }

  lemma CompleteChain(d: Disk, p: Packet)
    ensures ChainDrops(RULES, d.live, p) <==> !Allowed(d, p)
  {
    assert RULES[1..] == [AllowTls, DropRest] && [AllowTls, DropRest][1..] == [DropRest];
    assert ChainDrops([DropRest], d.live, p);
    assert ChainDrops([AllowTls, DropRest], d.live, p) <==> !Matches(AllowTls, d.live, p);
  }

  /** At every safe state, whatever the other rules and the set's content: a packet
      that is not a worker's gets exactly the original verdict, and a worker's packet
      gets the original verdict or is dropped. Once active, a worker's packet is
      dropped exactly when it is neither allowed flow. */
  lemma NeverWidens(origin: seq<ParentRule>, d: Disk, d0: Disk, given: Given, p: Packet)
    requires Safe(origin, d)
    ensures !FromWorker(p) ==> Evaluate(d.parent, d, given, p) == Evaluate(origin, d0, given, p)
    ensures Evaluate(d.parent, d, given, p) in {Dropped, Evaluate(origin, d0, given, p)}
    ensures d.parent == HOOKS + origin && FromWorker(p) ==>
              Evaluate(d.parent, d, given, p) == if Allowed(d, p) then Evaluate(origin, d0, given, p) else Dropped
  {
    OriginIgnoresFence(origin, d, d0, given, p);
    CompleteChain(d, p);
    if d.parent == [HOOKS[1]] + origin {
      assert d.parent[1..] == origin;
    } else if d.parent == HOOKS + origin {
      assert d.parent[1..] == [HOOKS[1]] + origin && d.parent[1..][1..] == origin;
    }
  }

  /** The two flows the fence was built for, address by address: PostgreSQL from
      172.31.42.22 to 172.31.42.2, and TLS from 172.31.43.22 to a resolved address. */
  predicate Admitted(d: Disk, p: Packet) {
    || (p.source == 0xAC1F_2A16 && p.destination == 0xAC1F_2A02 && p.tcp && p.port == 5432)
    || (p.source == 0xAC1F_2B16 && d.live.Some? && p.destination in d.live.value && p.tcp && p.port == 443)
  }

  // ---- The commands, and the three operations made of them.

  /** A command the kernel accepts, or refuses without effect. */
  method Command(m: Machine<Disk>, accepted: bool, next: Disk) returns (r: Status)
    modifies m
    ensures r == if !accepted then Refused else if old(m.power) == 0 then PowerLost else Ok
    ensures m.disk == if r.Ok? then next else old(m.disk)
    ensures m.power == if r.Ok? then old(m.power) - 1 else if r.Refused? then old(m.power) else 0
  {
    r := Ok;
    :- Need(accepted);
    r := m.Put(next);
  }

  /** What name resolution returns: distinct addresses, at least one. */
  predicate Resolved(addresses: seq<Address>) {
    addresses != [] && forall i, j :: 0 <= i < j < |addresses| ==> addresses[i] != addresses[j]
  }

  function Elements(addresses: seq<Address>): set<Address> {
    set a | a in addresses
  }

  lemma {:induction false} DistinctCount(addresses: seq<Address>)
    requires forall i, j :: 0 <= i < j < |addresses| ==> addresses[i] != addresses[j]
    ensures |Elements(addresses)| == |addresses|
  {
    if addresses != [] {
      DistinctCount(addresses[1..]);
      assert Elements(addresses) == {addresses[0]} + Elements(addresses[1..]);
    }
  }

  lemma NextKeepsSafe(origin: seq<ParentRule>, d: Disk, s: set<Address>)
    requires Safe(origin, d) && d.next.Some? && |s| <= 64
    ensures Safe(origin, d.(next := Some(s)))
  {
  }

  method AddOne(m: Machine<Disk>, ghost origin: seq<ParentRule>, a: Address, ghost all: set<Address>)
    returns (r: Status)
    requires Safe(origin, m.disk) && m.disk.next.Some? && m.disk.next.value <= all
    requires a in all && a !in m.disk.next.value
    modifies m
    ensures Safe(origin, m.disk)
    ensures m.disk == if r.Ok? then old(m.disk).(next := Some(old(m.disk).next.value + {a})) else old(m.disk)
    ensures r.Refused? ==> |all| > 64 && |old(m.disk).next.value| >= 64
    ensures old(m.power) == 0 ==> !r.Ok? && m.power == 0
    ensures r.PowerLost? ==> old(m.power) == 0
    ensures m.power >= old(m.power) - 1
  {
    var s := m.disk.next.value;
    Sets.SubsetCount(s + {a}, all);
    if |s| < CAPACITY {
      NextKeepsSafe(origin, m.disk, s + {a});
    }
    hide Safe;
    r := Command(m, a !in s && |s| < CAPACITY, m.disk.(next := Some(s + {a})));
  }

  /** Add to the temporary set every address it did not hold at the start. */
  method AddMissing(m: Machine<Disk>, ghost origin: seq<ParentRule>, addresses: seq<Address>, present: set<Address>)
    returns (r: Status)
    requires Safe(origin, m.disk) && Resolved(addresses)
    requires m.disk.next == Some(present) && present <= Elements(addresses)
    modifies m
    ensures Safe(origin, m.disk) && m.disk == old(m.disk).(next := m.disk.next)
    ensures m.disk.next.Some? && present <= m.disk.next.value <= Elements(addresses)
    ensures r.Ok? ==> m.disk.next == Some(Elements(addresses))
    ensures r.Refused? ==> |Elements(addresses)| > 64
    ensures old(m.power) == 0 && present == {} ==> r.PowerLost? && m.disk == old(m.disk)
    ensures r.PowerLost? ==> old(m.power) < |addresses|
    ensures m.power >= old(m.power) - |addresses|
  {
    hide Safe;
    assert old(m.power) == 0 && present == {} ==> addresses[0] !in present;
    for i := 0 to |addresses|
      invariant Safe(origin, m.disk) && m.disk == old(m.disk).(next := m.disk.next)
      invariant m.disk.next.Some? && present <= m.disk.next.value <= Elements(addresses)
      invariant forall k :: 0 <= k < i ==> addresses[k] in m.disk.next.value
      invariant forall k :: i <= k < |addresses| && addresses[k] in m.disk.next.value ==> addresses[k] in present
      invariant m.power >= old(m.power) - i
      invariant old(m.power) == 0 && present == {} ==> i == 0 && m.power == 0 && m.disk == old(m.disk)
    {
      if addresses[i] !in present {
        :- AddOne(m, origin, addresses[i], Elements(addresses));
      }
    }
    assert m.disk.next.value == Elements(addresses);
    return Ok;
  }

  /** Where a refresh may be cut: the live set holds its previous content or the
      complete new one, and nothing in between. */
  predicate RefreshCut(previous: set<Address>, d: Disk, all: set<Address>) {
    || (d.live == Some(previous) && (d.next.Some? ==> d.next.value <= all))
    || (d.live == Some(all) && (d.next.Some? ==> d.next.value == previous))
  }

  /** `ipset swap` and `ipset destroy`, once the temporary is complete. */
  method SwapIn(m: Machine<Disk>, ghost origin: seq<ParentRule>) returns (r: Status)
    requires Safe(origin, m.disk) && m.disk.live.Some? && m.disk.next.Some?
    modifies m
    ensures Safe(origin, m.disk)
    ensures r.Ok? ==> m.disk == old(m.disk).(live := old(m.disk).next, next := None)
    ensures !r.Ok? ==> m.disk in {old(m.disk), old(m.disk).(live := old(m.disk).next, next := old(m.disk).live)}
    ensures !r.Refused?
    ensures r.PowerLost? ==> old(m.power) < 2
    ensures m.power >= old(m.power) - 2
  {
    r := Ok;
    :- Command(m, m.disk.live.Some? && m.disk.next.Some?, m.disk.(live := m.disk.next, next := m.disk.live));
    r := Command(m, m.disk.next.Some?, m.disk.(next := None));
  }

  /** The sets after one creation: the live set if it is missing, else the temporary. */
  function OneCreated(d: Disk): Disk {
    if d.live.None? then d.(live := Some({})) else d.(next := Some({}))
  }

  method RefreshSet(m: Machine<Disk>, ghost origin: seq<ParentRule>, addresses: seq<Address>) returns (r: Status)
    requires Safe(origin, m.disk) && Resolved(addresses)
    requires m.disk.state.Some? && m.disk.state.value.stage in {Installing, Active}
    requires m.disk.state.value.stage == Installing ==> m.disk.chain.None?
    modifies m
    ensures Safe(origin, m.disk) && m.disk == old(m.disk).(live := m.disk.live, next := m.disk.next)
    ensures r.Ok? ==> m.disk.live == Some(Elements(addresses)) && m.disk.next.None? && old(m.disk).next.None?
    ensures old(m.disk).next.Some? ==> m.disk == old(m.disk)
    ensures old(m.disk).next.None? && old(m.disk).live.Some? ==>
              RefreshCut(old(m.disk).live.value, m.disk, Elements(addresses))
    ensures old(m.disk).next.None? && old(m.disk).live.None? ==>
              m.disk == old(m.disk) || RefreshCut({}, m.disk, Elements(addresses))
    ensures r.Refused? ==> old(m.disk).next.Some? || |Elements(addresses)| > 64
    ensures old(m.disk).next.None? && old(m.power) == 1 ==> r.PowerLost? && m.disk == OneCreated(old(m.disk))
    ensures r.PowerLost? ==> old(m.power) < |addresses| + 4
    ensures m.power >= old(m.power) - |addresses| - 4
  {
    r := Ok;
    :- Need(m.disk.next.None?);
    if m.disk.live.None? {
      :- Command(m, true, m.disk.(live := Some({})));
    }
    :- Command(m, true, m.disk.(next := Some({})));
    hide Safe;
    :- AddMissing(m, origin, addresses, {});
    r := SwapIn(m, origin);
  }

  predicate Bare(d: Disk) {
    d.live.None? && d.next.None?
  }

  /** Exactly when the set stage of an install can finish with these addresses. */
  predicate SetReady(d: Disk, all: set<Address>) {
    if d.next.Some? then
      d.live.Some? && ((d.live.value == {} && d.next.value <= all && |all| <= 64)
                       || (d.live.value == all && d.next.value == {}))
    else if d.live.None? then |all| <= 64
    else d.live.value == all
  }

  /** What an install with these addresses can leave of the two sets. */
  predicate SetCut(d: Disk, all: set<Address>) {
    || Bare(d)
    || (d.live == Some({}) && (d.next.Some? ==> d.next.value <= all))
    || (d.live == Some(all) && (d.next.Some? ==> d.next.value == {}))
  }

  method InstallSet(m: Machine<Disk>, ghost origin: seq<ParentRule>, addresses: seq<Address>) returns (r: Status)
    requires Safe(origin, m.disk) && Resolved(addresses)
    requires m.disk.state == Some(Saved(Installing, origin))
    modifies m
    ensures Safe(origin, m.disk) && m.disk == old(m.disk).(live := m.disk.live, next := m.disk.next)
    ensures r.Ok? ==> m.disk.live == Some(Elements(addresses)) && m.disk.next.None?
    ensures r.Ok? ==> SetReady(old(m.disk), Elements(addresses))
    ensures r.Refused? ==> !SetReady(old(m.disk), Elements(addresses))
    ensures SetCut(old(m.disk), Elements(addresses)) ==> SetCut(m.disk, Elements(addresses))
    ensures Bare(old(m.disk)) && old(m.power) == 1 ==> r.PowerLost? && m.disk == OneCreated(old(m.disk))
    ensures r.PowerLost? ==> old(m.power) < |addresses| + 4
    ensures m.power >= old(m.power) - |addresses| - 4
    ensures BetweenSets(old(m.disk)) ==> m.disk == old(m.disk)
  {
    assert addresses[0] in Elements(addresses);
    if m.disk.next.Some? {
      :- Need(m.disk.live.Some? && m.disk.parent == m.disk.state.value.origin);
      if m.disk.live.value == {} && m.disk.next.value <= Elements(addresses) {
        :- AddMissing(m, origin, addresses, m.disk.next.value);
        :- SwapIn(m, origin);
      } else {
        :- Need(m.disk.live.value == Elements(addresses) && m.disk.next.value == {});
        :- Command(m, true, m.disk.(next := None));
      }
    } else if m.disk.live.None? {
      :- RefreshSet(m, origin, addresses);
    } else {
      :- Need(m.disk.live.value != {} && m.disk.live.value == Elements(addresses));
    }
    return Ok;
  }

  /** `_reconcile_chain`: the rules that are missing, in order. */
  method ReconcileChain(m: Machine<Disk>, ghost origin: seq<ParentRule>) returns (r: Status)
    requires Safe(origin, m.disk) && m.disk.state == Some(Saved(Installing, origin))
    requires m.disk.live.Some? && m.disk.next.None?
    modifies m
    ensures Safe(origin, m.disk) && m.disk == old(m.disk).(chain := m.disk.chain)
    ensures r.Ok? ==> m.disk.chain == Some(RULES)
    ensures !r.Refused?
    ensures r.PowerLost? ==> old(m.power) < 4
    ensures m.power >= old(m.power) - 4
  {
    if m.disk.chain.None? {
      :- Command(m, true, m.disk.(chain := Some([])));
    }
    ghost var power := m.power;
    assert m.disk.chain.value == RULES[..|m.disk.chain.value|];
    for i := |m.disk.chain.value| to |RULES|
      invariant Safe(origin, m.disk) && m.disk == old(m.disk).(chain := Some(RULES[..i]))
      invariant m.power >= power - i
    {
      assert RULES[..i] + [RULES[i]] == RULES[..i + 1];
      :- Command(m, RULES[i] == AllowTls ==> m.disk.live.Some?, m.disk.(chain := Some(RULES[..i] + [RULES[i]])));
    }
    assert RULES[..|RULES|] == RULES;
    return Ok;
  }

  /** `_reconcile_hooks`: the second hook first, so that a visible hook is never alone
      in front of the other worker's. */
  method ReconcileHooks(m: Machine<Disk>, ghost origin: seq<ParentRule>) returns (r: Status)
    requires Safe(origin, m.disk) && m.disk.state == Some(Saved(Installing, origin))
    requires m.disk.chain == Some(RULES)
    modifies m
    ensures Safe(origin, m.disk) && m.disk == old(m.disk).(parent := m.disk.parent)
    ensures r.Ok? ==> m.disk.parent == HOOKS + origin
    ensures !r.Refused?
    ensures r.PowerLost? ==> old(m.power) < 2
    ensures m.power >= old(m.power) - 2
  {
    var recorded := m.disk.state.value.origin;
    assert ParentAt(recorded, m.disk.parent);
    assert HOOKS + recorded == [HOOKS[0]] + ([HOOKS[1]] + recorded);
    if m.disk.parent == recorded {
      :- Command(m, m.disk.chain.Some?, m.disk.(parent := [HOOKS[1]] + m.disk.parent));
    }
    if m.disk.parent == [HOOKS[1]] + recorded {
      :- Command(m, m.disk.chain.Some?, m.disk.(parent := [HOOKS[0]] + m.disk.parent));
    }
    return Ok;
  }

  /** `verify`. */
  predicate Verified(d: Disk, allowExpired: bool) {
    && d.state.Some? && d.state.value.stage == Active
    && d.parent == HOOKS + d.state.value.origin && d.chain == Some(RULES)
    && d.live.Some? && (allowExpired || d.live.value != {})
  }

  /** What `verify` vouches for, whatever else the tables hold: what becomes of every
      packet, and, unless expiry is allowed, that some address is still resolved. */
  lemma InstalledMeaning(d: Disk, allowExpired: bool, d0: Disk, given: Given, p: Packet)
    requires Verified(d, allowExpired) && forall rule :: rule in d.state.value.origin ==> !rule.Hook?
    ensures var original := Evaluate(d.state.value.origin, d0, given, p);
            Evaluate(d.parent, d, given, p) ==
              if p.source != 0xAC1F_2A16 && p.source != 0xAC1F_2B16 then original
              else if Admitted(d, p) then original
              else Dropped
    ensures d.live.Some? && (!allowExpired ==> d.live.value != {})
  {
    var origin := d.state.value.origin;
    OriginIgnoresFence(origin, d, d0, given, p);
    CompleteChain(d, p);
    assert d.parent[1..] == [HOOKS[1]] + origin && d.parent[1..][1..] == origin;
  }

  /** The start of `install`, on any tables: the project's hook must come first, and
      nothing of the fence may be there. */
  method RecordOrigin(m: Machine<Disk>) returns (r: Status)
    requires m.disk.state.None?
    modifies m
    ensures r.Refused? <==>
              || m.disk.parent == [] || m.disk.parent[0] != Project
              || (exists rule :: rule in m.disk.parent && rule.Hook?)
              || m.disk.chain.Some? || m.disk.live.Some?
    ensures m.disk == if r.Ok? then old(m.disk).(state := Some(Saved(Installing, old(m.disk).parent)))
                      else old(m.disk)
    ensures r.PowerLost? ==> old(m.power) == 0
    ensures m.power == if r.Ok? then old(m.power) - 1 else if r.Refused? then old(m.power) else 0
  {
    r := Ok;
    :- Need(IsOrigin(m.disk.parent) && m.disk.chain.None? && m.disk.live.None?);
    r := m.Put(m.disk.(state := Some(Saved(Installing, m.disk.parent))));
  }

  /** Exactly when `install` succeeds: a fresh host, a resumable set, or a live fence. */
  predicate MayInstall(d: Disk, answer: Option<seq<Address>>) {
    if d.state.Some? && d.state.value.stage != Installing then Verified(d, false)
    else answer.Some? && SetReady(d, Elements(answer.value))
  }

  /** What installs with these addresses, each cut anywhere, can leave. */
  predicate InstallCut(d: Disk, all: set<Address>) {
    && SetCut(d, all)
    && (d.state.None? ==> d.live.None?)
    && (d.state.Some? ==> d.state.value.stage in {Installing, Active})
    && (d.state.Some? && d.state.value.stage == Active ==> d.live == Some(all) && d.next.None?)
  }

  /** Cut between the creations of the two sets: the live set exists and is empty,
      and there is no temporary to complete it from. */
  predicate BetweenSets(d: Disk) {
    d.state.Some? && d.state.value.stage == Installing && d.live == Some({}) && d.next.None?
  }

  lemma ResumableExactly(origin: seq<ParentRule>, d: Disk, addresses: seq<Address>)
    requires Safe(origin, d) && Resolved(addresses) && |addresses| <= 64
    requires InstallCut(d, Elements(addresses))
    ensures MayInstall(d, Some(addresses)) <==> !BetweenSets(d)
  {
    DistinctCount(addresses);
    assert addresses[0] in Elements(addresses);
  }

  predicate IsActive(d: Disk) {
    d.state.Some? && d.state.value.stage == Active
  }

  /** The durable record is past INSTALLING. */
  predicate Settled(d: Disk) {
    d.state.Some? && d.state.value.stage != Installing
  }

  /** A temporary set left behind once the fence is active. */
  predicate Jammed(d: Disk) {
    d.next.Some? && d.state.Some? && d.state.value.stage in {Active, RollingBack}
  }

  /** From the durable INSTALLING record to the end. */
  method CompleteInstall(m: Machine<Disk>, ghost origin: seq<ParentRule>, addresses: seq<Address>) returns (r: Status)
    requires Safe(origin, m.disk) && Resolved(addresses)
    requires m.disk.state == Some(Saved(Installing, origin))
    modifies m
    ensures Safe(origin, m.disk)
    ensures r.Ok? ==>
              m.disk == Disk(HOOKS + origin, Some(RULES), Some(Elements(addresses)), None, Some(Saved(Active, origin)))
    ensures r.Ok? ==> SetReady(old(m.disk), Elements(addresses))
    ensures r.Refused? ==> !SetReady(old(m.disk), Elements(addresses))
    ensures InstallCut(old(m.disk), Elements(addresses)) ==> InstallCut(m.disk, Elements(addresses))
    ensures Bare(old(m.disk)) && old(m.power) == 1 ==> r.PowerLost? && m.disk == OneCreated(old(m.disk))
    ensures r.PowerLost? ==> old(m.power) < |addresses| + 11
    ensures BetweenSets(old(m.disk)) ==> m.disk == old(m.disk)
  {
    assert addresses[0] in Elements(addresses);
    :- InstallSet(m, origin, addresses);
    :- ReconcileChain(m, origin);
    :- ReconcileHooks(m, origin);
    r := m.Put(m.disk.(state := Some(Saved(Active, m.disk.state.value.origin))));
  }

  method Install(m: Machine<Disk>, ghost origin: seq<ParentRule>, answer: Option<seq<Address>>) returns (r: Status)
    requires Safe(origin, m.disk) && (answer.Some? ==> Resolved(answer.value))
    modifies m
    ensures Safe(origin, m.disk)
    ensures r.Ok? ==> MayInstall(old(m.disk), answer) && Verified(m.disk, false) && m.disk.parent == HOOKS + origin
    ensures r.Refused? ==> !MayInstall(old(m.disk), answer)
    ensures r.PowerLost? ==> old(m.power) < if answer.Some? then |answer.value| + 12 else 1
    ensures answer.Some? && InstallCut(old(m.disk), Elements(answer.value)) ==>
              InstallCut(m.disk, Elements(answer.value))
    ensures Settled(old(m.disk)) || BetweenSets(old(m.disk)) ==> m.disk == old(m.disk)
    ensures answer.Some? && old(m.disk).state.None? && Bare(old(m.disk)) && old(m.power) == 2 ==>
              m.disk == old(m.disk).(live := Some({}), state := Some(Saved(Installing, origin)))
  {
    if m.disk.state.None? {
      :- RecordOrigin(m);
    } else {
      :- Need(m.disk.state.value.stage in {Installing, Active});
      if m.disk.state.value.stage == Active {
        return Need(Verified(m.disk, false));
      }
    }
    :- Need(answer.Some?);
    :- CompleteInstall(m, origin, answer.value);
    assert answer.value[0] in m.disk.live.value;
    return Need(Verified(m.disk, false));
  }

  predicate MayRefresh(d: Disk, answer: Option<seq<Address>>) {
    && d.state.Some? && d.state.value.stage == Active && d.next.None?
    && answer.Some? && |Elements(answer.value)| <= 64
  }

  method Refresh(m: Machine<Disk>, ghost origin: seq<ParentRule>, answer: Option<seq<Address>>) returns (r: Status)
    requires Safe(origin, m.disk) && (answer.Some? ==> Resolved(answer.value))
    modifies m
    ensures Safe(origin, m.disk) && m.disk == old(m.disk).(live := m.disk.live, next := m.disk.next)
    ensures r.Ok? ==> MayRefresh(old(m.disk), answer) && Verified(m.disk, false)
    ensures r.Ok? ==> m.disk.live == Some(Elements(answer.value)) && m.disk.next.None?
    ensures r.Refused? ==> !MayRefresh(old(m.disk), answer)
    ensures m.disk == old(m.disk) || (old(m.disk).live.Some? && answer.Some?
                                      && RefreshCut(old(m.disk).live.value, m.disk, Elements(answer.value)))
    ensures r.PowerLost? ==> answer.Some? && old(m.power) < |answer.value| + 4
    ensures !(IsActive(old(m.disk)) && old(m.disk).next.None?) ==> m.disk == old(m.disk)
    ensures MayRefresh(old(m.disk), answer) && old(m.power) == 1 ==> m.disk == old(m.disk).(next := Some({}))
  {
    r := Ok;
    :- Need(IsActive(m.disk) && m.disk.next.None?);
    assert Verified(m.disk, true);
    :- Need(answer.Some?);
    :- RefreshSet(m, origin, answer.value);
    assert answer.value[0] in m.disk.live.value;
    assert |m.disk.live.value| <= CAPACITY;
    return Need(Verified(m.disk, false));
  }

  /** Exactly when `rollback` succeeds. */
  predicate MayRollBack(d: Disk) {
    && d.state.Some?
    && (d.state.value.stage == RolledBack
        || (d.state.value.stage in {Active, RollingBack}
            && d.chain != Some([]) && d.live != Some({}) && d.next.None?))
  }

  /** Cut between the chain's flush and its deletion: the chain is there and empty. */
  predicate Flushed(d: Disk) {
    d.state.Some? && d.state.value.stage == RollingBack && d.chain == Some([])
  }

  /** A rollback has begun and the set's members have expired. */
  predicate Emptied(d: Disk) {
    d.state.Some? && d.state.value.stage == RollingBack && d.live == Some({})
  }

  /** What a rollback leaves: the untouched parent list, no chain and no set. */
  function Gone(origin: seq<ParentRule>): Disk {
    Disk(origin, None, None, None, Some(Saved(RolledBack, origin)))
  }

  method RemoveHooks(m: Machine<Disk>, ghost origin: seq<ParentRule>) returns (r: Status)
    requires Safe(origin, m.disk) && m.disk.state == Some(Saved(RollingBack, origin))
    modifies m
    ensures Safe(origin, m.disk) && m.disk == old(m.disk).(parent := m.disk.parent)
    ensures r.Ok? ==> m.disk.parent == origin
    ensures r.Ok? && old(m.disk).parent == HOOKS + origin ==> m.power == old(m.power) - 2
    ensures !r.Refused?
    ensures r.PowerLost? ==> old(m.power) < 2
    ensures m.power >= old(m.power) - 2
  {
    var recorded := m.disk.state.value.origin;
    assert HOOKS + recorded == [HOOKS[0]] + ([HOOKS[1]] + recorded);
    if m.disk.parent == HOOKS + recorded {
      assert m.disk.parent[1..] == [HOOKS[1]] + recorded;
      :- Command(m, HOOKS[0] in m.disk.parent, m.disk.(parent := m.disk.parent[1..]));
    }
    if m.disk.parent == [HOOKS[1]] + recorded {
      assert m.disk.parent[1..] == recorded;
      :- Command(m, HOOKS[1] in m.disk.parent, m.disk.(parent := m.disk.parent[1..]));
    }
    return Ok;
  }

  method RemoveTables(m: Machine<Disk>, ghost origin: seq<ParentRule>) returns (r: Status)
    requires Safe(origin, m.disk) && m.disk.state == Some(Saved(RollingBack, origin)) && m.disk.parent == origin
    modifies m
    ensures Safe(origin, m.disk) && m.disk == old(m.disk).(chain := m.disk.chain, live := m.disk.live)
    ensures m.disk.chain in {old(m.disk).chain, Some([]), None} && m.disk.live in {old(m.disk).live, None}
    ensures r.Ok? ==>
              m.disk.chain.None? && m.disk.live.None? && old(m.disk).live != Some({}) && old(m.disk).chain != Some([])
    ensures r.Refused? ==> old(m.disk).chain == Some([]) || old(m.disk).live == Some({})
    ensures r.PowerLost? ==> old(m.power) < 3
    ensures m.power >= old(m.power) - 3
    ensures old(m.disk).chain == Some([]) ==> m.disk == old(m.disk)
    ensures old(m.disk).live == Some({}) ==> m.disk.live == Some({})
    ensures old(m.disk).chain == Some(RULES) && old(m.power) == 1 ==>
              r.PowerLost? && m.disk == old(m.disk).(chain := Some([]))
  {
    if m.disk.chain.Some? {
      :- Need(m.disk.chain.value == RULES);
      :- Command(m, true, m.disk.(chain := Some([])));
      :- Command(m, m.disk.chain == Some([]) && Hook(Database) !in m.disk.parent, m.disk.(chain := None));
    }
    if m.disk.live.Some? {
      :- Need(m.disk.live.value != {});
      :- Command(m, m.disk.chain.None?, m.disk.(live := None));
    }
    return Ok;
  }

  /** From the durable ROLLING_BACK record to the end. */
  method CompleteRollBack(m: Machine<Disk>, ghost origin: seq<ParentRule>) returns (r: Status)
    requires Safe(origin, m.disk) && m.disk.state == Some(Saved(RollingBack, origin))
    modifies m
    ensures Safe(origin, m.disk) && m.disk.next == old(m.disk).next
    ensures r.Ok? ==> MayRollBack(old(m.disk)) && m.disk == Gone(origin)
    ensures !r.Ok? ==> m.disk.state == old(m.disk).state
    ensures r.Refused? ==> !MayRollBack(old(m.disk))
    ensures r.PowerLost? ==> old(m.power) < 6
    ensures MayRollBack(old(m.disk)) ==> MayRollBack(m.disk) || Flushed(m.disk)
    ensures old(m.disk).chain == Some([]) ==> m.disk.chain == Some([])
    ensures old(m.disk).live == Some({}) ==> m.disk.live == Some({})
    ensures old(m.disk).parent == HOOKS + origin && old(m.power) == 3 ==>
              r.PowerLost? && m.disk == old(m.disk).(parent := origin, chain := Some([]))
  {
    r := Ok;
    :- RemoveHooks(m, origin);
    :- RemoveTables(m, origin);
    :- Need(m.disk.next.None?);
    r := m.Put(m.disk.(state := Some(Saved(RolledBack, m.disk.state.value.origin))));
  }

  method RollBack(m: Machine<Disk>, ghost origin: seq<ParentRule>) returns (r: Status)
    requires Safe(origin, m.disk)
    modifies m
    ensures Safe(origin, m.disk)
    ensures r.Ok? ==> MayRollBack(old(m.disk)) && m.disk == Gone(origin)
    ensures r.Refused? ==> !MayRollBack(old(m.disk))
    ensures r.PowerLost? ==> old(m.power) < 7
    ensures MayRollBack(old(m.disk)) ==> MayRollBack(m.disk) || Flushed(m.disk)
    ensures Jammed(old(m.disk)) ==> Jammed(m.disk) && m.disk.next == old(m.disk).next
    ensures Flushed(old(m.disk)) ==> Flushed(m.disk)
    ensures Emptied(old(m.disk)) ==> Emptied(m.disk)
    ensures IsActive(old(m.disk)) && old(m.disk).live == Some({}) && old(m.power) > 0 ==>
              Emptied(m.disk)
    ensures !Settled(old(m.disk)) ==> m.disk == old(m.disk)
    ensures IsActive(old(m.disk)) && old(m.power) == 4 ==>
              m.disk == old(m.disk).(parent := origin, chain := Some([]), state := Some(Saved(RollingBack, origin)))
  {
    r := Ok;
    :- Need(m.disk.state.Some? && m.disk.state.value.stage != Installing);
    if m.disk.state.value.stage == RolledBack {
      assert m.disk == Gone(origin);
      return Ok;
    }
    if m.disk.state.value.stage == Active {
      :- m.Put(m.disk.(state := Some(Saved(RollingBack, m.disk.state.value.origin))));
    }
    r := CompleteRollBack(m, origin);
  }

  // ---- Every run.

  /** What may happen to the fence: an operation, cut after some command, or the
      expiry of set members. */
  datatype Event =
    | Installs(answer: Option<seq<Address>>)
    | Refreshes(answer: Option<seq<Address>>)
    | RollsBack
    | Expires(live: set<Address>, next: set<Address>)

  predicate WellFormed(e: Event) {
    (e.Installs? || e.Refreshes?) && e.answer.Some? ==> Resolved(e.answer.value)
  }

  function Shrunk(s: Option<set<Address>>, kept: set<Address>): Option<set<Address>> {
    if s.None? then None else Some(s.value * kept)
  }

  lemma ExpiryKeepsSafe(origin: seq<ParentRule>, d: Disk, live: set<Address>, next: set<Address>)
    requires Safe(origin, d)
    ensures Safe(origin, d.(live := Shrunk(d.live, live), next := Shrunk(d.next, next)))
  {
    if d.live.Some? {
      Sets.SubsetCount(d.live.value * live, d.live.value);
    }
    if d.next.Some? {
      Sets.SubsetCount(d.next.value * next, d.next.value);
    }
  }

  /** The fence's promise to a packet, at any moment. */
  ghost predicate Guards(origin: seq<ParentRule>, d: Disk) {
    forall given: Given, p: Packet ::
      && (!FromWorker(p) ==> Evaluate(d.parent, d, given, p) == Evaluate(origin, d, given, p))
      && Evaluate(d.parent, d, given, p) in {Dropped, Evaluate(origin, d, given, p)}
  }

  method Step(m: Machine<Disk>, ghost origin: seq<ParentRule>, e: Event, power: nat)
    requires Safe(origin, m.disk) && WellFormed(e)
    modifies m
    ensures Safe(origin, m.disk)
    ensures Jammed(old(m.disk)) ==> Jammed(m.disk)
    ensures BetweenSets(old(m.disk)) ==> BetweenSets(m.disk)
    ensures Flushed(old(m.disk)) ==> Flushed(m.disk)
    ensures Emptied(old(m.disk)) ==> Emptied(m.disk)
  {
    m.power := power;
    match e
    case Installs(answer) =>
      var _ := Install(m, origin, answer);
    case Refreshes(answer) =>
      var _ := Refresh(m, origin, answer);
    case RollsBack =>
      var _ := RollBack(m, origin);
    case Expires(live, next) =>
      ExpiryKeepsSafe(origin, m.disk, live, next);
      m.disk := m.disk.(live := Shrunk(m.disk.live, live), next := Shrunk(m.disk.next, next));
  }

  /** In each of the four states every operation that would leave it is refused. */
  lemma StuckIsRefused(origin: seq<ParentRule>, d: Disk, answer: Option<seq<Address>>)
    requires Safe(origin, d) && (answer.Some? ==> Resolved(answer.value))
    ensures Jammed(d) ==> !MayRefresh(d, answer) && !MayRollBack(d)
    ensures BetweenSets(d) ==> !MayInstall(d, answer) && !MayRefresh(d, answer) && !MayRollBack(d)
    ensures Flushed(d) || Emptied(d) ==> !MayInstall(d, answer) && !MayRefresh(d, answer) && !MayRollBack(d)
  {
    if answer.Some? {
      assert answer.value[0] in Elements(answer.value);
    }
  }

  /** Any run of operations and expiries, each operation cut anywhere. */
  method Operate(m: Machine<Disk>, ghost origin: seq<ParentRule>, script: seq<(Event, nat)>)
    requires Safe(origin, m.disk)
    requires forall e :: e in script ==> WellFormed(e.0)
    modifies m
    ensures Safe(origin, m.disk) && Guards(origin, m.disk)
    ensures Jammed(old(m.disk)) ==> Jammed(m.disk)
    ensures BetweenSets(old(m.disk)) ==> BetweenSets(m.disk)
    ensures Flushed(old(m.disk)) ==> Flushed(m.disk)
    ensures Emptied(old(m.disk)) ==> Emptied(m.disk)
  {
    for i := 0 to |script|
      invariant Safe(origin, m.disk)
      invariant Jammed(old(m.disk)) ==> Jammed(m.disk)
      invariant BetweenSets(old(m.disk)) ==> BetweenSets(m.disk)
      invariant Flushed(old(m.disk)) ==> Flushed(m.disk)
      invariant Emptied(old(m.disk)) ==> Emptied(m.disk)
    {
      Step(m, origin, script[i].0, script[i].1);
    }
    forall given: Given, p: Packet {
      NeverWidens(origin, m.disk, m.disk, given, p);
    }
  }

  /** However often an install of the same addresses is cut, one more run finishes it,
      unless the cut fell between the two set creations. */
  method InstallUntilDone(m: Machine<Disk>, ghost origin: seq<ParentRule>, addresses: seq<Address>, cuts: seq<nat>)
    returns (between: bool, r: Status)
    requires Safe(origin, m.disk) && m.disk.state.None? && m.disk.next.None?
    requires Resolved(addresses) && |addresses| <= 64
    modifies m
    ensures r.Ok? <==> !between
    ensures r.Ok? ==>
              Verified(m.disk, false) && m.disk.parent == HOOKS + origin && m.disk.live == Some(Elements(addresses))
    ensures between ==> BetweenSets(m.disk)
  {
    for i := 0 to |cuts|
      invariant Safe(origin, m.disk) && InstallCut(m.disk, Elements(addresses))
    {
      m.power := cuts[i];
      var _ := Install(m, origin, Some(addresses));
    }
    ResumableExactly(origin, m.disk, addresses);
    between := BetweenSets(m.disk);
    m.power := |addresses| + 12;
    r := Install(m, origin, Some(addresses));
  }

  /** However often a rollback is cut, one more run finishes it, unless the cut fell
      between the chain's flush and its deletion. */
  method RollBackUntilDone(m: Machine<Disk>, ghost origin: seq<ParentRule>, cuts: seq<nat>)
    returns (flushed: bool, r: Status)
    requires Safe(origin, m.disk) && MayRollBack(m.disk)
    modifies m
    ensures r.Ok? <==> !flushed
    ensures r.Ok? ==> m.disk == Gone(origin)
    ensures flushed ==> Flushed(m.disk)
  {
    for i := 0 to |cuts|
      invariant Safe(origin, m.disk) && (MayRollBack(m.disk) || Flushed(m.disk))
    {
      m.power := cuts[i];
      var _ := RollBack(m, origin);
    }
    flushed := Flushed(m.disk);
    m.power := 7;
    r := RollBack(m, origin);
  }

  /** A refresh of an active fence cut after its first command jams it, for good. */
  method JamByRefresh(m: Machine<Disk>, ghost origin: seq<ParentRule>, addresses: seq<Address>,
                      script: seq<(Event, nat)>)
    requires Safe(origin, m.disk) && Resolved(addresses) && MayRefresh(m.disk, Some(addresses))
    requires forall e :: e in script ==> WellFormed(e.0)
    modifies m
    ensures Safe(origin, m.disk) && Jammed(m.disk)
  {
    m.power := 1;
    var _ := Refresh(m, origin, Some(addresses));
    Operate(m, origin, script);
  }

  /** An install of a bare host cut after its second command is never resumed. */
  method StrandInstall(m: Machine<Disk>, ghost origin: seq<ParentRule>, addresses: seq<Address>,
                       script: seq<(Event, nat)>)
    requires Safe(origin, m.disk) && Resolved(addresses) && m.disk.state.None? && Bare(m.disk)
    requires forall e :: e in script ==> WellFormed(e.0)
    modifies m
    ensures Safe(origin, m.disk) && BetweenSets(m.disk)
  {
    m.power := 2;
    var _ := Install(m, origin, Some(addresses));
    Operate(m, origin, script);
  }

  /** A rollback of an active fence cut after its fourth command is never resumed. */
  method StrandRollBack(m: Machine<Disk>, ghost origin: seq<ParentRule>, script: seq<(Event, nat)>)
    requires Safe(origin, m.disk) && IsActive(m.disk)
    requires forall e :: e in script ==> WellFormed(e.0)
    modifies m
    ensures Safe(origin, m.disk) && Flushed(m.disk)
  {
    m.power := 4;
    var _ := RollBack(m, origin);
    Operate(m, origin, script);
  }

  /** A rollback of an active fence whose addresses have expired never finishes. */
  method StrandExpired(m: Machine<Disk>, ghost origin: seq<ParentRule>, power: nat, script: seq<(Event, nat)>)
    requires Safe(origin, m.disk) && IsActive(m.disk)
    requires m.disk.live == Some({}) && power > 0
    requires forall e :: e in script ==> WellFormed(e.0)
    modifies m
    ensures Safe(origin, m.disk) && Emptied(m.disk)
  {
    m.power := power;
    var _ := RollBack(m, origin);
    Operate(m, origin, script);
  }
}
