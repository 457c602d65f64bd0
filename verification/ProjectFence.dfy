/** The project's own firewall, `network-fence.py`: the refresh of its two provider
    sets, and the one-shot installation of its chains. */
module ProjectFence {
  import opened Power
  import Fence

  const CAPACITY := 512

  /** One provider set and its temporary, as the kernel holds them. */
  datatype Pair = Pair(live: Option<set<Fence.Address>>, next: Option<set<Fence.Address>>)

  datatype Provider = Https | Smtp

  datatype Sets = Sets(https: Pair, smtp: Pair)

  function PairOf(d: Sets, p: Provider): Pair {
    if p == Https then d.https else d.smtp
  }

  function WithPair(d: Sets, p: Provider, pair: Pair): Sets {
    if p == Https then d.(https := pair) else d.(smtp := pair)
  }

  /** The content a refresh starts from: a missing set is first created empty. */
  function Content(pair: Pair): set<Fence.Address> {
    if pair.live.Some? then pair.live.value else {}
  }

  /** At every cut the live set has its previous or its complete new content. */
  predicate Atomic(was: Pair, is': Pair, all: set<Fence.Address>) {
    is' == was || is'.live == Some(Content(was)) || is'.live == Some(all)
  }

  method Fill(m: Machine<Sets>, p: Provider, addresses: seq<Fence.Address>) returns (r: Status)
    requires PairOf(m.disk, p).next == Some({}) && Fence.Resolved(addresses)
    modifies m
    ensures m.disk == WithPair(old(m.disk), p, Pair(PairOf(old(m.disk), p).live, PairOf(m.disk, p).next))
    ensures r.Ok? ==> PairOf(m.disk, p).next == Some(Fence.Elements(addresses)) && |addresses| <= 512
    ensures r.Refused? ==> |addresses| > 512
    ensures r.PowerLost? ==> old(m.power) < |addresses|
    ensures m.power >= old(m.power) - |addresses|
  {
    assert Fence.Elements(addresses[..0]) == {};
    for i := 0 to |addresses|
      invariant m.disk == WithPair(old(m.disk), p,
                                   Pair(PairOf(old(m.disk), p).live, Some(Fence.Elements(addresses[..i]))))
      invariant i <= CAPACITY
      invariant m.power >= old(m.power) - i
    {
      var pair := PairOf(m.disk, p);
      Fence.DistinctCount(addresses[..i]);
      assert addresses[i] !in pair.next.value;
      assert Fence.Elements(addresses[..i + 1]) == Fence.Elements(addresses[..i]) + {addresses[i]};
      :- Need(|pair.next.value| < CAPACITY);
      :- m.Put(WithPair(m.disk, p, pair.(next := Some(pair.next.value + {addresses[i]}))));
    }
    assert addresses[..|addresses|] == addresses;
    return Ok;
  }

  /** One provider: create both sets if missing, flush and fill the temporary, swap, destroy. */
  method RefreshOne(m: Machine<Sets>, p: Provider, addresses: seq<Fence.Address>) returns (r: Status)
    requires Fence.Resolved(addresses)
    modifies m
    ensures m.disk == WithPair(old(m.disk), p, PairOf(m.disk, p))
    ensures Atomic(PairOf(old(m.disk), p), PairOf(m.disk, p), Fence.Elements(addresses))
    ensures r.Ok? ==> PairOf(m.disk, p) == Pair(Some(Fence.Elements(addresses)), None)
    ensures r.Ok? ==> |addresses| <= 512
    ensures r.Refused? ==> |addresses| > 512
    ensures r.PowerLost? ==> old(m.power) < |addresses| + 5
    ensures m.power >= old(m.power) - |addresses| - 5
  {
    if PairOf(m.disk, p).live.None? {
      :- m.Put(WithPair(m.disk, p, PairOf(m.disk, p).(live := Some({}))));
    }
    if PairOf(m.disk, p).next.None? {
      :- m.Put(WithPair(m.disk, p, PairOf(m.disk, p).(next := Some({}))));
    }
    :- m.Put(WithPair(m.disk, p, PairOf(m.disk, p).(next := Some({}))));
    :- Fill(m, p, addresses);
    :- m.Put(WithPair(m.disk, p, Pair(PairOf(m.disk, p).next, PairOf(m.disk, p).live)));
    r := m.Put(WithPair(m.disk, p, PairOf(m.disk, p).(next := None)));
  }

  /** `refresh`, from whatever an earlier cut left: one run with power to finish
      succeeds exactly when both answers fit, and then holds both of them; at every
      cut each live set is previous or complete, and the second set is untouched
      until the first is complete. */
  method Refresh(m: Machine<Sets>, https: Option<seq<Fence.Address>>, smtp: Option<seq<Fence.Address>>)
    returns (r: Status)
    requires (https.Some? ==> Fence.Resolved(https.value)) && (smtp.Some? ==> Fence.Resolved(smtp.value))
    modifies m
    ensures https.None? || smtp.None? ==> r.Refused? && m.disk == old(m.disk)
    ensures https.Some? && smtp.Some? ==>
              && Atomic(old(m.disk).https, m.disk.https, Fence.Elements(https.value))
              && Atomic(old(m.disk).smtp, m.disk.smtp, Fence.Elements(smtp.value))
              && (m.disk.smtp != old(m.disk).smtp ==> m.disk.https == Pair(Some(Fence.Elements(https.value)), None))
              && (!r.PowerLost? ==> (r.Ok? <==> |https.value| <= 512 && |smtp.value| <= 512))
              && (r.PowerLost? ==> old(m.power) < |https.value| + |smtp.value| + 10)
              && (r.Ok? ==>
                    m.disk == Sets(Pair(Some(Fence.Elements(https.value)), None),
                                   Pair(Some(Fence.Elements(smtp.value)), None)))
  {
    r := Ok;
    :- Need(https.Some? && smtp.Some?);
    :- RefreshOne(m, Https, https.value);
    r := RefreshOne(m, Smtp, smtp.value);
  }

  /** However a refresh of the same answers is cut, one more run completes it. */
  method RefreshUntilDone(m: Machine<Sets>, https: seq<Fence.Address>, smtp: seq<Fence.Address>, cuts: seq<nat>)
    returns (r: Status)
    requires Fence.Resolved(https) && Fence.Resolved(smtp) && |https| <= 512 && |smtp| <= 512
    modifies m
    ensures r.Ok?
    ensures m.disk == Sets(Pair(Some(Fence.Elements(https)), None), Pair(Some(Fence.Elements(smtp)), None))
  {
    for i := 0 to |cuts| {
      m.power := cuts[i];
      var _ := Refresh(m, Some(https), Some(smtp));
    }
    m.power := |https| + |smtp| + 10;
    r := Refresh(m, Some(https), Some(smtp));
  }

  // ---- The chain behind the project hook.

  /** The parent list and the owned chain; rules are known only by number. */
  datatype Tables = Tables(parent: seq<Fence.ParentRule>, chain: Option<seq<nat>>)

  /** A hook is visible only in front of a complete chain. */
  predicate HookedComplete(d: Tables, rules: seq<nat>) {
    (Fence.Project in d.parent ==> d.chain == Some(rules)) && (d.chain.Some? ==> d.chain.value <= rules)
  }

  /** `verify_chain`: the exact chain, and the project's hook first, or right after
      the two hooks of a verified external fence. */
  predicate Verified(d: Tables, rules: seq<nat>, external: bool) {
    && d.chain == Some(rules) && Fence.Project in d.parent
    && var rest := if Fence.HOOKS <= d.parent then d.parent[2..] else d.parent;
    && (if Fence.HOOKS <= d.parent then external else forall rule :: rule in d.parent ==> !rule.Hook?)
    && rest != [] && rest[0] == Fence.Project
  }

  /** The project's hook is first with no external hook anywhere, or third behind the two
      of a verified external fence. */
  ghost predicate InPlace(parent: seq<Fence.ParentRule>, external: bool) {
    || (|parent| > 0 && parent[0] == Fence.Project && forall rule :: rule in parent ==> !rule.Hook?)
    || (|parent| > 2 && parent[0] == Fence.Hook(Fence.Database) && parent[1] == Fence.Hook(Fence.Egress)
        && parent[2] == Fence.Project && external)
  }

  lemma VerifiedExactly(d: Tables, rules: seq<nat>, external: bool)
    ensures Verified(d, rules, external) <==> d.chain == Some(rules) && InPlace(d.parent, external)
  {
    if |d.parent| > 1 && d.parent[0] == Fence.HOOKS[0] && d.parent[1] == Fence.HOOKS[1] {
      assert d.parent[0] in d.parent && d.parent[..2] == Fence.HOOKS;
    }
  }

  /** `install_chain`: an existing chain is only verified: it must be whole, and the
      project's hook first, or right behind the two of a verified external fence. */
  method InstallChain(m: Machine<Tables>, rules: seq<nat>, external: bool) returns (r: Status)
    requires HookedComplete(m.disk, rules)
    modifies m
    ensures HookedComplete(m.disk, rules)
    ensures old(m.disk).chain.Some? ==>
              && m.disk == old(m.disk) && !r.PowerLost?
              && (r.Ok? <==> old(m.disk).chain == Some(rules) && InPlace(old(m.disk).parent, external))
    ensures old(m.disk).chain.None? ==>
              && (!r.PowerLost? ==> (r.Ok? <==> forall rule :: rule in old(m.disk).parent ==> !rule.Hook?))
              && (r.PowerLost? <==> old(m.power) < |rules| + 2)
              && (r.PowerLost? ==> m.disk == Tables(old(m.disk).parent,
                                     if old(m.power) == 0 then None else Some(rules[..old(m.power) - 1])))
              && (!r.PowerLost? ==> m.disk == Tables([Fence.Project] + old(m.disk).parent, Some(rules)))
  {
    if m.disk.chain.Some? {
      VerifiedExactly(m.disk, rules, external);
      return Need(Verified(m.disk, rules, external));
    }
    :- m.Put(m.disk.(chain := Some([])));
    for i := 0 to |rules|
      invariant m.disk == Tables(old(m.disk).parent, Some(rules[..i]))
      invariant m.power == old(m.power) - 1 - i
    {
      assert rules[..i] + [rules[i]] == rules[..i + 1];
      :- m.Put(m.disk.(chain := Some(rules[..i] + [rules[i]])));
    }
    assert rules[..|rules|] == rules;
    :- m.Put(m.disk.(parent := [Fence.Project] + m.disk.parent));
    assert m.disk.parent[1..] == old(m.disk).parent;
    return Need(Verified(m.disk, rules, external));
  }

  predicate AnyHook(parent: seq<Fence.ParentRule>) {
    exists rule :: rule in parent && rule.Hook?
  }

  /** Unlike the external fence, a cut installation is never resumed: after any cut
      but the very first, the re-run verifies the incomplete chain and refuses. On a
      host whose external hooks already stand, the hook is put in front of them and
      the program refuses its own result. */
  method InstallChainTwice(m: Machine<Tables>, rules: seq<nat>, external: bool, cut: nat) returns (r: Status)
    requires HookedComplete(m.disk, rules) && m.disk.chain.None?
    modifies m
    ensures r.Ok? <==> !AnyHook(old(m.disk).parent) && (cut == 0 || cut >= |rules| + 2)
    ensures m.disk == if cut == 0 || cut >= |rules| + 2 then Tables([Fence.Project] + old(m.disk).parent, Some(rules))
                      else Tables(old(m.disk).parent, Some(rules[..cut - 1]))
  {
    m.power := cut;
    r := InstallChain(m, rules, external);
    if cut >= |rules| + 2 {
      assert m.disk.parent[0] == Fence.Project && m.disk.parent[1..] == old(m.disk).parent;
    }
    m.power := |rules| + 2;
    r := InstallChain(m, rules, external);
  }
}
