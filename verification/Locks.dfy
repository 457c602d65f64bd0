/** The host-wide file locks. Every modelled program takes them in the order install,
    singleton, control, transition: the Python programs by polling a non-blocking
    `flock`, the shell bootstrap by nesting `flock` around the control program. */
module Locks {

  /** The jobs of which at most one runs at a time, each behind its own lock file. */
  datatype Job = Backup | BonusLedger | LangameDaily | ExternalDaily | NetworkRefresh

  datatype Lock = Install | Singleton(job: Job) | Control | Transition

  function Rank(l: Lock): nat {
    match l
    case Install => 0
    case Singleton(_) => 1
    case Control => 2
    case Transition => 3
  }

  datatype Request = Request(lock: Lock, exclusive: bool)

  datatype Program =
    | HandoffExclusive | HandoffShared | BundleInstaller | BoundaryRead | BoundaryWrite | SourceTransport
    | Introduction | IntroductionRead
    | ControlRead | ControlWrite | ControlJob(job: Job) | ExternalCleanup

  /** What each program asks for, in its own order. */
  function Requests(p: Program): seq<Request> {
    match p
    case HandoffExclusive => [Request(Control, true)]
    case HandoffShared => [Request(Control, false)]
    case BundleInstaller => [Request(Install, true), Request(Control, true)]
    case BoundaryRead => [Request(Install, false), Request(Control, false), Request(Transition, true)]
    case BoundaryWrite => [Request(Install, true), Request(Control, true), Request(Transition, true)]
    case SourceTransport => [Request(Control, true)]
    case Introduction => [Request(Control, true)]
    case IntroductionRead => [Request(Control, false)]
    case ControlRead => [Request(Control, false)]
    case ControlWrite => [Request(Control, true)]
    case ControlJob(job) => [Request(Singleton(job), true), Request(Control, false)]
    case ExternalCleanup => [Request(Singleton(ExternalDaily), true)]
  }

  lemma OrderedRequests(p: Program, i: nat, j: nat)
    requires i < j < |Requests(p)|
    ensures Rank(Requests(p)[i].lock) < Rank(Requests(p)[j].lock)
  {
  }

  /** A process takes its locks one by one, works inside the window, and closes them
      one by one, last first. */
  datatype Process =
    | Idle
    | Acquiring(program: Program, taken: nat)
    | Inside(program: Program)
    | Closing(program: Program, taken: nat)
  {
    function Taken(): nat {
      match this
      case Idle => 0
      case Acquiring(_, taken) => taken
      case Inside(program) => |Requests(program)|
      case Closing(_, taken) => taken
    }

    predicate Valid() {
      match this
      case Idle => true
      case Acquiring(program, taken) => taken < |Requests(program)|
      case Inside(_) => true
      case Closing(program, taken) => 0 < taken <= |Requests(program)|
    }

    /** The first `Taken()` requests are what it holds. */
    predicate Holds(l: Lock)
      requires Valid()
    {
      !Idle? && exists k :: 0 <= k < Taken() && Requests(program)[k].lock == l
    }

    predicate HoldsExclusively(l: Lock)
      requires Valid()
    {
      !Idle? && exists k :: 0 <= k < Taken() && Requests(program)[k] == Request(l, true)
    }
  }

  type State = seq<Process>

  predicate AllValid(s: State) {
    forall i :: 0 <= i < |s| ==> s[i].Valid()
  }

  /** `flock` refuses a request that another open file conflicts with. */
  predicate Conflicts(q: Process, r: Request)
    requires q.Valid()
  {
    if r.exclusive then q.Holds(r.lock) else q.HoldsExclusively(r.lock)
  }

  predicate Blocked(s: State, i: nat, on: nat)
    requires AllValid(s) && i < |s| && on < |s|
  {
    i != on && s[i].Acquiring? && Conflicts(s[on], Requests(s[i].program)[s[i].taken])
  }

  predicate Free(s: State, i: nat)
    requires AllValid(s) && i < |s|
  {
    forall j :: 0 <= j < |s| ==> !Blocked(s, i, j)
  }

  datatype Event =
    | Begin(who: nat, program: Program)
    | Poll(who: nat)
    | TimeOut(who: nat)
    | Leave(who: nat)
    | CloseOne(who: nat)
    | Crash(who: nat)

  function Closed(program: Program, taken: nat): Process {
    if taken == 0 then Idle else Closing(program, taken)
  }

  /** One step of one process; an event that does not apply changes nothing. */
  function Step(s: State, e: Event): (t: State)
    requires AllValid(s)
    ensures AllValid(t) && |t| == |s|
  {
    if e.who >= |s| then s
    else
      var p := s[e.who];
      match e
      case Begin(i, program) => if p.Idle? then s[i := Acquiring(program, 0)] else s
      case Poll(i) =>
        if p.Acquiring? && Free(s, i) then
          s[i := if p.taken + 1 == |Requests(p.program)| then Inside(p.program) else Acquiring(p.program, p.taken + 1)]
        else s
      case TimeOut(i) => if p.Acquiring? then s[i := Closed(p.program, p.taken)] else s
      case Leave(i) => if p.Inside? then s[i := Closing(p.program, p.Taken())] else s
      case CloseOne(i) => if p.Closing? then s[i := Closed(p.program, p.taken - 1)] else s
      case Crash(i) => s[i := Idle]
  }

  function Run(s: State, events: seq<Event>): (t: State)
    requires AllValid(s)
    ensures AllValid(t) && |t| == |s|
    decreases |events|
  {
    if events == [] then s else Run(Step(s, events[0]), events[1..])
  }

  /** An exclusive holder is the only holder. */
  ghost predicate Exclusive(s: State)
    requires AllValid(s)
  {
    forall i, j, l :: 0 <= i < |s| && 0 <= j < |s| && i != j && s[i].HoldsExclusively(l) ==> !s[j].Holds(l)
  }

  lemma ExclusiveIsHeld(p: Process, l: Lock)
    requires p.Valid()
    ensures p.HoldsExclusively(l) ==> p.Holds(l)
  {
  }

  /** Taking one more request adds exactly that request. */
  lemma TakeOne(p: Process, q: Process, l: Lock)
    requires p.Valid() && q.Valid() && p.Acquiring? && !q.Idle? && q.program == p.program && q.Taken() == p.taken + 1
    ensures var r := Requests(p.program)[p.taken];
            && (q.Holds(l) ==> p.Holds(l) || r.lock == l)
            && (q.HoldsExclusively(l) ==> p.HoldsExclusively(l) || r == Request(l, true))
  {
  }

  /** Giving locks up adds nothing. */
  lemma TakeFewer(p: Process, q: Process, l: Lock)
    requires p.Valid() && q.Valid() && (q.Idle? || (!p.Idle? && q.program == p.program && q.Taken() <= p.Taken()))
    ensures q.Holds(l) ==> p.Holds(l)
    ensures q.HoldsExclusively(l) ==> p.HoldsExclusively(l)
  {
  }

  lemma StepKeepsExclusive(s: State, e: Event)
    requires AllValid(s) && Exclusive(s)
    ensures Exclusive(Step(s, e))
  {
    var t := Step(s, e);
    if e.who < |s| {
      var w := e.who;
      forall i, j, l | 0 <= i < |t| && 0 <= j < |t| && i != j && t[i].HoldsExclusively(l)
        ensures !t[j].Holds(l)
      {
        if e.Poll? && s[w].Acquiring? && Free(s, w) {
          TakeOne(s[w], t[w], l);
          ExclusiveIsHeld(s[i], l);
          ExclusiveIsHeld(t[i], l);
          assert !Blocked(s, w, i) && !Blocked(s, w, j);
        } else if e.Begin? {
        } else {
          TakeFewer(s[w], t[w], l);
        }
      }
    }
  }

  /** For any number of processes and any interleaving, timeouts and crashes included,
      no exclusive window overlaps another holder of the same lock. */
  lemma {:induction false} RunKeepsExclusive(s: State, events: seq<Event>)
    requires AllValid(s) && Exclusive(s)
    ensures Exclusive(Run(s, events))
    decreases |events|
  {
    if events != [] {
      StepKeepsExclusive(s, events[0]);
      RunKeepsExclusive(Step(s, events[0]), events[1..]);
    }
  }

  /** From idle processes on: two programs are never in their windows together if one
      of them takes a lock exclusively that the other takes at all. */
  lemma WindowsExclude(s: State, events: seq<Event>, i: nat, j: nat, l: Lock)
    requires forall k :: 0 <= k < |s| ==> s[k].Idle?
    requires i < |s| && j < |s| && i != j
    ensures var t := Run(s, events);
            t[i].Inside? && t[j].Inside? && Request(l, true) in Requests(t[i].program) ==>
              forall r :: r in Requests(t[j].program) ==> r.lock != l
  {
    RunKeepsExclusive(s, events);
    var t := Run(s, events);
    if t[i].Inside? && t[j].Inside? && Request(l, true) in Requests(t[i].program) {
      assert t[i].HoldsExclusively(l);
      assert !t[j].Holds(l);
    }
  }

  /** Who keeps the whole control plane to itself while it works. */
  ghost predicate Modifies(p: Program) {
    p in {HandoffExclusive, BundleInstaller, BoundaryWrite, SourceTransport, Introduction, ControlWrite}
  }

  /** Which programs may work at the same time: a modifying one with nothing but the
      emergency cleanup; reads and jobs with one another, but no job twice, no two
      boundary reads, no two cleanups, and the external job not beside the cleanup. */
  ghost predicate Together(p: Program, q: Program) {
    && (Modifies(p) ==> q == ExternalCleanup)
    && (Modifies(q) ==> p == ExternalCleanup)
    && (p == q ==> !p.ControlJob? && p != BoundaryRead && p != ExternalCleanup)
    && {p, q} != {ControlJob(ExternalDaily), ExternalCleanup}
  }

  /** No lock that one asks for exclusively is asked for by the other at all. */
  ghost predicate Compatible(p: Program, q: Program) {
    forall r, s :: r in Requests(p) && s in Requests(q) && r.lock == s.lock ==> !r.exclusive && !s.exclusive
  }

  /** Every program's requests, lock by lock. */
  ghost predicate Asks(p: Program, r: Request) {
    match r.lock
    case Install => p in {BundleInstaller, BoundaryRead, BoundaryWrite} && (r.exclusive <==> p != BoundaryRead)
    case Singleton(job) => r.exclusive && (p == ControlJob(job) || (p == ExternalCleanup && job == ExternalDaily))
    case Control => p != ExternalCleanup && (r.exclusive <==> Modifies(p))
    case Transition => r.exclusive && p in {BoundaryRead, BoundaryWrite}
  }

  lemma AsksExactly(p: Program, r: Request)
    ensures r in Requests(p) <==> Asks(p, r)
  {
    var rs := Requests(p);
    assert |rs| == 1 ==> rs == [rs[0]];
    assert |rs| == 2 ==> rs == [rs[0], rs[1]];
    assert |rs| == 3 ==> rs == [rs[0], rs[1], rs[2]];
  }

  lemma CompatibleTogether(p: Program, q: Program)
    ensures Compatible(p, q) <==> Together(p, q)
  {
    hide Requests;
    hide Together;
    if Together(p, q) {
      forall r, s | r in Requests(p) && s in Requests(q) && r.lock == s.lock
        ensures !r.exclusive && !s.exclusive
      {
        SharedOnly(p, q, r, s);
      }
    } else {
      NotTogether(p, q);
    }
  }

  lemma SharedOnly(p: Program, q: Program, r: Request, s: Request)
    requires Together(p, q) && r in Requests(p) && s in Requests(q) && r.lock == s.lock
    ensures !r.exclusive && !s.exclusive
  {
    AsksExactly(p, r);
    AsksExactly(q, s);
    hide Requests;
  }

  lemma NotTogether(p: Program, q: Program)
    requires !Together(p, q)
    ensures !Compatible(p, q)
  {
    hide Requests;
    var l := if p == ExternalCleanup || q == ExternalCleanup then Singleton(ExternalDaily)
             else if Modifies(p) || Modifies(q) then Control
             else if p.ControlJob? then Singleton(p.job) else Transition;
    var r := Request(l, l != Control || Modifies(p));
    var s := Request(l, l != Control || Modifies(q));
    AsksExactly(p, r);
    AsksExactly(q, s);
  }

  /** Whatever happened before, and however many processes there are: two that work at
      the same time are programs that may. */
  lemma WhoWorksTogether(s: State, events: seq<Event>, i: nat, j: nat)
    requires forall k :: 0 <= k < |s| ==> s[k].Idle?
    requires i < |s| && j < |s| && i != j
    ensures var t := Run(s, events);
            t[i].Inside? && t[j].Inside? ==> Together(t[i].program, t[j].program)
  {
    var t := Run(s, events);
    if t[i].Inside? && t[j].Inside? {
      var p, q := t[i].program, t[j].program;
      forall r, r' | r in Requests(p) && r' in Requests(q) && r.lock == r'.lock
        ensures !r.exclusive && !r'.exclusive
      {
        WindowsExclude(s, events, i, j, r.lock);
        WindowsExclude(s, events, j, i, r.lock);
      }
      CompatibleTogether(p, q);
    }
  }

  /** A process that nobody stands in the way of gets all its locks by polling. */
  lemma {:induction false} PollIn(s: State, i: nat) returns (events: seq<Event>)
    requires AllValid(s) && i < |s| && s[i].Acquiring?
    requires forall j, k :: 0 <= j < |s| && j != i && 0 <= k < |Requests(s[i].program)| ==>
               !Conflicts(s[j], Requests(s[i].program)[k])
    ensures Run(s, events) == s[i := Inside(s[i].program)]
    decreases |Requests(s[i].program)| - s[i].taken
  {
    var t := Step(s, Poll(i));
    assert Free(s, i);
    if t[i].Inside? {
      events := [Poll(i)];
      assert Run(t, events[1..]) == t;
    } else {
      var rest := PollIn(t, i);
      events := [Poll(i)] + rest;
      assert events[1..] == rest;
    }
  }

  lemma {:induction false} RunInTurn(s: State, a: seq<Event>, b: seq<Event>)
    requires AllValid(s)
    ensures Run(s, a + b) == Run(Run(s, a), b)
    decreases |a|
  {
    if a == [] {
      assert a + b == b;
    } else {
      RunInTurn(Step(s, a[0]), a[1..], b);
      assert (a + b)[1..] == a[1..] + b;
    }
  }

  /** Two processes can be in their windows together exactly if their programs may. */
  lemma TogetherExactly(p: Program, q: Program)
    ensures (exists events :: Run([Idle, Idle], events) == [Inside(p), Inside(q)]) <==> Together(p, q)
  {
    if events :| Run([Idle, Idle], events) == [Inside(p), Inside(q)] {
      WhoWorksTogether([Idle, Idle], events, 0, 1);
    }
    if Together(p, q) {
      var events := Meet(p, q);
    }
  }

  lemma Meet(p: Program, q: Program) returns (events: seq<Event>)
    requires Together(p, q)
    ensures Run([Idle, Idle], events) == [Inside(p), Inside(q)]
  {
    BeginBoth(p, q);
    CompatibleTogether(p, q);
    Harmless(p, q);
    hide Run;
    hide Requests;
    var begun, s := [Begin(0, p), Begin(1, q)], [Acquiring(p, 0), Acquiring(q, 0)];
    var first := PollIn(s, 0);
    var t := [Inside(p), Acquiring(q, 0)];
    assert s[0 := Inside(p)] == t;
    var second := PollIn(t, 1);
    assert t[1 := Inside(q)] == [Inside(p), Inside(q)];
    RunInTurn([Idle, Idle], begun, first);
    RunInTurn([Idle, Idle], begun + first, second);
    events := begun + first + second;
  }

  lemma BeginBoth(p: Program, q: Program)
    ensures Run([Idle, Idle], [Begin(0, p), Begin(1, q)]) == [Acquiring(p, 0), Acquiring(q, 0)]
  {
    var events := [Begin(0, p), Begin(1, q)];
    var s := Step([Idle, Idle], events[0]);
    assert events[1..][0] == events[1] && events[1..][1..] == [];
    assert Run(s, events[1..]) == Step(s, events[1]);
  }

  lemma Harmless(p: Program, q: Program)
    requires Compatible(p, q)
    ensures forall k :: 0 <= k < |Requests(p)| ==> !Conflicts(Acquiring(q, 0), Requests(p)[k])
    ensures forall k :: 0 <= k < |Requests(q)| ==> !Conflicts(Inside(p), Requests(q)[k])
  {
    hide Requests;
  }

  // ---- Waiting.

  function Wanted(p: Process): nat
    requires p.Valid() && p.Acquiring?
  {
    Rank(Requests(p.program)[p.taken].lock)
  }

  /** Whoever is waited for and waits itself wants a later lock. */
  lemma WaitsClimb(s: State, i: nat, j: nat)
    requires AllValid(s) && i < |s| && j < |s| && Blocked(s, i, j) && s[j].Acquiring?
    ensures Wanted(s[i]) < Wanted(s[j])
  {
    var l := Requests(s[i].program)[s[i].taken].lock;
    ExclusiveIsHeld(s[j], l);
    var k :| 0 <= k < s[j].taken && Requests(s[j].program)[k].lock == l;
    OrderedRequests(s[j].program, k, s[j].taken);
  }

  /** A chain of waiting processes, each blocked by the next. */
  predicate Chain(s: State, c: seq<nat>)
    requires AllValid(s)
  {
    && (forall k :: 0 <= k < |c| ==> c[k] < |s| && s[c[k]].Acquiring?)
    && forall k :: 0 <= k < |c| - 1 ==> Blocked(s, c[k], c[k + 1])
  }

  lemma {:induction false} ChainClimbs(s: State, c: seq<nat>)
    requires AllValid(s) && Chain(s, c) && c != []
    ensures Wanted(s[c[|c| - 1]]) >= Wanted(s[c[0]]) + |c| - 1
  {
    if |c| > 1 {
      WaitsClimb(s, c[0], c[1]);
      ChainClimbs(s, c[1..]);
    }
  }

  /** No cycle of waiting processes exists in any state at all. */
  lemma NoWaitingCycle(s: State, c: seq<nat>)
    requires AllValid(s) && Chain(s, c) && c != []
    ensures !Blocked(s, c[|c| - 1], c[0])
  {
    ChainClimbs(s, c);
    if Blocked(s, c[|c| - 1], c[0]) {
      WaitsClimb(s, c[|c| - 1], c[0]);
    }
  }

  /** The process can take its next step without anyone else's. */
  predicate CanMove(s: State, i: nat)
    requires AllValid(s) && i < |s|
  {
    s[i].Inside? || s[i].Closing? || (s[i].Acquiring? && Free(s, i))
  }

  /** From any busy process, following who blocks whom reaches one that can move: its own
      next step changes the state. */
  lemma {:induction false} SomeoneMoves(s: State, i: nat) returns (j: nat)
    requires AllValid(s) && i < |s| && !s[i].Idle?
    ensures j < |s| && CanMove(s, j) && exists e :: e in {Poll(j), Leave(j), CloseOne(j)} && Step(s, e) != s
    decreases if s[i].Acquiring? then 4 - Wanted(s[i]) else 0
  {
    j := i;
    if s[i].Acquiring? && !Free(s, i) {
      var k :| 0 <= k < |s| && Blocked(s, i, k);
      if s[k].Acquiring? {
        WaitsClimb(s, i, k);
        j := SomeoneMoves(s, k);
      } else {
        j := k;
      }
    }
    NextStep(s, j);
  }

  lemma NextStep(s: State, j: nat)
    requires AllValid(s) && j < |s| && CanMove(s, j)
    ensures exists e :: e in {Poll(j), Leave(j), CloseOne(j)} && Step(s, e) != s
  {
    var e := if s[j].Inside? then Leave(j) else if s[j].Closing? then CloseOne(j) else Poll(j);
    assert Step(s, e)[j] != s[j];
  }
}
