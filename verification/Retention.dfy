/** Backup retention, `retain` of `pull-backup.py`: a scan of the candidates, newest
    first, and the removal of what it does not keep. */
module Retention {
  import opened Power
  import Sets

  /** A verified backup. `rank` orders by capture time and then by name; the three
      calendar keys are what the capture time falls in. */
  datatype Backup = Backup(rank: int, day: int, week: int, month: int)

  datatype Period = Day | Week | Month

  function KeyOf(p: Period, b: Backup): int {
    match p
    case Day => b.day
    case Week => b.week
    case Month => b.month
  }

  const DAYS := 7
  const WEEKS := 4
  const MONTHS := 3

  /** The scan's memory: how many backups it has passed, and the keys they had. */
  datatype Seen = Seen(count: nat, days: set<int>, weeks: set<int>, months: set<int>)

  const NOTHING := Seen(0, {}, {}, {})

  predicate Fresh(keys: set<int>, key: int, limit: nat) {
    key !in keys && |keys| < limit
  }

  predicate Keeps(s: Seen, b: Backup) {
    || s.count < 2 || Fresh(s.days, b.day, DAYS) || Fresh(s.weeks, b.week, WEEKS) || Fresh(s.months, b.month, MONTHS)
  }

  function Pass(s: Seen, b: Backup): Seen {
    Seen(s.count + 1, s.days + {b.day}, s.weeks + {b.week}, s.months + {b.month})
  }

  function KeptFrom(c: seq<Backup>, s: Seen): set<Backup> {
    if c == [] then {}
    else (if Keeps(s, c[0]) then {c[0]} else {}) + KeptFrom(c[1..], Pass(s, c[0]))
  }

  /** The backups a prune of this newest-first history keeps. */
  function Kept(c: seq<Backup>): set<Backup> {
    KeptFrom(c, NOTHING)
  }

  predicate Descending(c: seq<Backup>) {
    forall i, j :: 0 <= i < j < |c| ==> c[i].rank > c[j].rank
  }

  function Filter(c: seq<Backup>, s: set<Backup>): seq<Backup> {
    if c == [] then []
    else if c[0] in s then [c[0]] + Filter(c[1..], s)
    else Filter(c[1..], s)
  }

  lemma {:induction false} KeptAreCandidates(c: seq<Backup>, s: Seen)
    ensures forall b :: b in KeptFrom(c, s) ==> b in c
  {
    if c != [] {
      KeptAreCandidates(c[1..], Pass(s, c[0]));
    }
  }

  // ---- Stability on intervals.

  /** Two key sets agree as far as the scan can tell: equal, or both full. */
  predicate SameKeys(a: set<int>, b: set<int>, limit: nat) {
    a == b || (|a| >= limit && |b| >= limit)
  }

  predicate SameSeen(a: Seen, b: Seen) {
    && (a.count == b.count || (a.count >= 2 && b.count >= 2))
    && SameKeys(a.days, b.days, DAYS) && SameKeys(a.weeks, b.weeks, WEEKS) && SameKeys(a.months, b.months, MONTHS)
  }

  lemma GrowCount(keys: set<int>, key: int)
    ensures |keys + {key}| == if key in keys then |keys| else |keys| + 1
  {
    if key in keys {
      assert keys + {key} == keys;
    }
  }

  /** Passing the same backup keeps key sets indistinguishable. */
  lemma SameKeysPass(a: set<int>, b: set<int>, key: int, limit: nat)
    requires SameKeys(a, b, limit)
    ensures SameKeys(a + {key}, b + {key}, limit)
    ensures Fresh(a, key, limit) <==> Fresh(b, key, limit)
    ensures !Fresh(a, key, limit) ==> SameKeys(a + {key}, b, limit)
  {
    GrowCount(a, key);
    GrowCount(b, key);
    if key in a {
      assert a + {key} == a;
    }
  }

  lemma SameSeenPass(a: Seen, b: Seen, x: Backup)
    requires SameSeen(a, b)
    ensures SameSeen(Pass(a, x), Pass(b, x))
    ensures Keeps(a, x) <==> Keeps(b, x)
    ensures !Keeps(a, x) ==> SameSeen(Pass(a, x), b)
  {
    SameKeysPass(a.days, b.days, x.day, DAYS);
    SameKeysPass(a.weeks, b.weeks, x.week, WEEKS);
    SameKeysPass(a.months, b.months, x.month, MONTHS);
  }

  lemma {:induction false} StableFrom(c: seq<Backup>, present: set<Backup>, a: Seen, b: Seen)
    requires SameSeen(a, b) && KeptFrom(c, a) <= present
    ensures KeptFrom(Filter(c, present), b) == KeptFrom(c, a)
  {
    if c != [] {
      var x, rest := c[0], c[1..];
      SameSeenPass(a, b, x);
      if x in present {
        StableFrom(rest, present, Pass(a, x), Pass(b, x));
        assert Filter(c, present) == [x] + Filter(rest, present);
        assert ([x] + Filter(rest, present))[1..] == Filter(rest, present);
      } else {
        StableFrom(rest, present, Pass(a, x), b);
        assert Filter(c, present) == Filter(rest, present);
      }
    }
  }

  /** Any set of backups between the kept ones and the whole history prunes to the
      same kept set, whatever the calendar keys are. */
  lemma StableOnIntervals(c: seq<Backup>, present: set<Backup>)
    requires Kept(c) <= present
    ensures Kept(Filter(c, present)) == Kept(c)
  {
    StableFrom(c, present, NOTHING, NOTHING);
  }

  // ---- What is kept.

  predicate NewestOf(c: seq<Backup>, i: nat, p: Period)
    requires i < |c|
  {
    forall j :: 0 <= j < i ==> KeyOf(p, c[j]) != KeyOf(p, c[i])
  }

  function Keys(c: seq<Backup>, p: Period): set<int> {
    set b | b in c :: KeyOf(p, b)
  }

  function SeenIn(c: seq<Backup>): Seen {
    Seen(|c|, Keys(c, Day), Keys(c, Week), Keys(c, Month))
  }

  lemma KeysStep(c: seq<Backup>, x: Backup, p: Period)
    ensures Keys(c + [x], p) == Keys(c, p) + {KeyOf(p, x)}
  {
    forall k | k in Keys(c, p) + {KeyOf(p, x)}
      ensures k in Keys(c + [x], p)
    {
      if k == KeyOf(p, x) {
        assert x in c + [x];
      } else {
        var b :| b in c && KeyOf(p, b) == k;
        assert b in c + [x];
      }
    }
  }

  lemma SeenStep(c: seq<Backup>, x: Backup)
    ensures SeenIn(c + [x]) == Pass(SeenIn(c), x)
  {
    KeysStep(c, x, Day);
    KeysStep(c, x, Week);
    KeysStep(c, x, Month);
  }

  lemma TailIsOlder(before: seq<Backup>, c: seq<Backup>)
    requires c != [] && Descending(before + c)
    ensures c[0] !in c[1..]
  {
    forall k | 0 < k < |c|
      ensures c[k] != c[0]
    {
      assert (before + c)[|before|] == c[0] && (before + c)[|before| + k] == c[k];
    }
  }

  lemma {:induction false} KeptByPosition(before: seq<Backup>, c: seq<Backup>, i: nat)
    requires i < |c| && Descending(before + c)
    ensures c[i] in KeptFrom(c, SeenIn(before)) <==> Keeps(SeenIn(before + c[..i]), c[i])
    decreases |c|
  {
    var rest, longer := c[1..], before + [c[0]];
    SeenStep(before, c[0]);
    TailIsOlder(before, c);
    if i == 0 {
      assert before + c[..0] == before;
      KeptAreCandidates(rest, SeenIn(longer));
    } else {
      assert longer + rest == before + c && longer + rest[..i - 1] == before + c[..i];
      KeptByPosition(longer, rest, i - 1);
      assert c[i] == rest[i - 1];
    }
  }

  /** A backup is kept exactly when it is one of the two newest, or the newest of its
      day, week or month and fewer than seven days, four weeks or three months have a
      newer one. */
  lemma KeptExactly(c: seq<Backup>, i: nat)
    requires i < |c| && Descending(c)
    ensures c[i] in Kept(c) <==>
              || i < 2
              || (NewestOf(c, i, Day) && |Keys(c[..i], Day)| < 7)
              || (NewestOf(c, i, Week) && |Keys(c[..i], Week)| < 4)
              || (NewestOf(c, i, Month) && |Keys(c[..i], Month)| < 3)
  {
    assert [] + c == c && [] + c[..i] == c[..i];
    assert SeenIn([]) == NOTHING;
    KeptByPosition([], c, i);
    NewestIsFresh(c, i, Day);
    NewestIsFresh(c, i, Week);
    NewestIsFresh(c, i, Month);
  }

  lemma NewestIsFresh(c: seq<Backup>, i: nat, p: Period)
    requires i < |c|
    ensures KeyOf(p, c[i]) !in Keys(c[..i], p) <==> NewestOf(c, i, p)
  {
    if KeyOf(p, c[i]) in Keys(c[..i], p) {
      var b :| b in c[..i] && KeyOf(p, b) == KeyOf(p, c[i]);
      var j :| 0 <= j < i && c[j] == b;
    } else {
      forall j | 0 <= j < i
        ensures KeyOf(p, c[j]) != KeyOf(p, c[i])
      {
        assert c[j] in c[..i];
      }
    }
  }

  /** Where a calendar key never increases going back in time, the keys already seen
      at the newest backup of a period are exactly the later periods that have one. */
  lemma LaterPeriods(c: seq<Backup>, i: nat, p: Period)
    requires i < |c| && NewestOf(c, i, p)
    requires forall j, k :: 0 <= j < k < |c| ==> KeyOf(p, c[j]) >= KeyOf(p, c[k])
    ensures Keys(c[..i], p) == set k | k in Keys(c, p) && k > KeyOf(p, c[i])
  {
    forall k | k in Keys(c[..i], p)
      ensures k in Keys(c, p) && k > KeyOf(p, c[i])
    {
      var b :| b in c[..i] && KeyOf(p, b) == k;
      var j :| 0 <= j < i && c[j] == b;
    }
    forall k | k in Keys(c, p) && k > KeyOf(p, c[i])
      ensures k in Keys(c[..i], p)
    {
      var b :| b in c && KeyOf(p, b) == k;
      var j :| 0 <= j < |c| && c[j] == b;
      assert j < i;
      assert b in c[..i];
    }
  }

  function Room(keys: set<int>, limit: nat): nat {
    if |keys| < limit then limit - |keys| else 0
  }

  function Slots(s: Seen): nat {
    (if s.count < 2 then 2 - s.count else 0) + Room(s.days, DAYS) + Room(s.weeks, WEEKS) + Room(s.months, MONTHS)
  }

  lemma RoomStep(keys: set<int>, key: int, limit: nat)
    ensures Room(keys + {key}, limit) == Room(keys, limit) - if Fresh(keys, key, limit) then 1 else 0
  {
    GrowCount(keys, key);
  }

  /** Every kept backup uses up at least one slot. */
  lemma {:induction false} KeptFitSlots(c: seq<Backup>, s: Seen)
    ensures |KeptFrom(c, s)| <= Slots(s)
  {
    if c != [] {
      RoomStep(s.days, c[0].day, DAYS);
      RoomStep(s.weeks, c[0].week, WEEKS);
      RoomStep(s.months, c[0].month, MONTHS);
      KeptFitSlots(c[1..], Pass(s, c[0]));
    }
  }

  /** Never more than thirteen: the newest backup fills a slot of every kind. */
  lemma AtMostThirteen(c: seq<Backup>)
    ensures |Kept(c)| <= 13
  {
    if c != [] {
      KeptFitSlots(c[1..], Pass(NOTHING, c[0]));
      GrowCount({}, c[0].day);
      GrowCount({}, c[0].week);
      GrowCount({}, c[0].month);
    }
  }

  // ---- Pruning after every arrival.

  function Elements(c: seq<Backup>): set<Backup> {
    set b | b in c
  }

  function Prune(c: seq<Backup>): seq<Backup> {
    Filter(c, Kept(c))
  }

  function Insert(c: seq<Backup>, x: Backup): seq<Backup> {
    if c == [] || x.rank > c[0].rank then [x] + c else [c[0]] + Insert(c[1..], x)
  }

  /** A new backup has a rank of its own. */
  predicate New(c: seq<Backup>, x: Backup) {
    forall i :: 0 <= i < |c| ==> c[i].rank != x.rank
  }

  lemma {:induction false} InsertMembers(c: seq<Backup>, x: Backup)
    ensures Elements(Insert(c, x)) == Elements(c) + {x}
  {
    if c == [] || x.rank > c[0].rank {
    } else {
      InsertMembers(c[1..], x);
      assert Elements(c) == {c[0]} + Elements(c[1..]);
      assert Elements(Insert(c, x)) == {c[0]} + Elements(Insert(c[1..], x));
    }
  }

  lemma {:induction false} InsertKeepsOrder(c: seq<Backup>, x: Backup)
    requires Descending(c) && New(c, x)
    ensures Descending(Insert(c, x)) && Elements(Insert(c, x)) == Elements(c) + {x}
  {
    InsertMembers(c, x);
    if c != [] && x.rank < c[0].rank {
      var rest := Insert(c[1..], x);
      InsertKeepsOrder(c[1..], x);
      forall j | 0 <= j < |rest|
        ensures rest[j].rank < c[0].rank
      {
        assert rest[j] in Elements(rest);
      }
    }
  }

  lemma {:induction false} FilterMembers(c: seq<Backup>, s: set<Backup>)
    ensures Elements(Filter(c, s)) == Elements(c) * s
  {
    if c != [] {
      FilterMembers(c[1..], s);
      assert Elements(c) == {c[0]} + Elements(c[1..]);
      if c[0] in s {
        assert Elements(Filter(c, s)) == {c[0]} + Elements(Filter(c[1..], s));
      }
    }
  }

  lemma {:induction false} FilterKeepsOrder(c: seq<Backup>, s: set<Backup>)
    requires Descending(c)
    ensures Descending(Filter(c, s)) && Elements(Filter(c, s)) == Elements(c) * s
  {
    FilterMembers(c, s);
    if c != [] {
      FilterKeepsOrder(c[1..], s);
      var rest := Filter(c[1..], s);
      assert forall j :: 0 <= j < |rest| ==> rest[j] in Elements(rest);
      assert forall b :: b in Elements(rest) ==> b in c[1..];
    }
  }

  lemma NoElements(c: seq<Backup>)
    ensures Elements(c) == {} ==> c == []
  {
    if c != [] {
      assert c[0] in Elements(c);
    }
  }

  /** A newest-first history is determined by the backups in it. */
  lemma {:induction false} DescendingUnique(a: seq<Backup>, b: seq<Backup>)
    requires Descending(a) && Descending(b) && Elements(a) == Elements(b)
    ensures a == b
  {
    if a == [] {
      NoElements(b);
    } else {
      assert a[0] in Elements(b) && (b != [] ==> b[0] in Elements(a));
      assert a[0] == b[0];
      forall x
        ensures x in Elements(a[1..]) <==> x in Elements(b[1..])
      {
        assert x in a[1..] <==> x in a && x != a[0];
        assert x in b[1..] <==> x in b && x != b[0];
        assert x in a <==> x in Elements(a);
        assert x in b <==> x in Elements(b);
      }
      DescendingUnique(a[1..], b[1..]);
    }
  }

  predicate Below(small: Seen, large: Seen) {
    small.count <= large.count && small.days <= large.days && small.weeks <= large.weeks && small.months <= large.months
  }

  lemma {:induction false} ShrinksFrom(c: seq<Backup>, present: set<Backup>, large: Seen, small: Seen)
    requires Below(small, large)
    ensures KeptFrom(c, large) * present <= KeptFrom(Filter(c, present), small)
  {
    if c != [] {
      var x, rest := c[0], c[1..];
      Sets.SubsetCount(small.days, large.days);
      Sets.SubsetCount(small.weeks, large.weeks);
      Sets.SubsetCount(small.months, large.months);
      if x in present {
        ShrinksFrom(rest, present, Pass(large, x), Pass(small, x));
        assert ([x] + Filter(rest, present))[1..] == Filter(rest, present);
      } else {
        ShrinksFrom(rest, present, Pass(large, x), small);
      }
    }
  }

  lemma FilterBelow(c: seq<Backup>, x: Backup, s: set<Backup>)
    requires Descending(c) && c != [] && x.rank > c[0].rank
    ensures Insert(Filter(c, s), x) == [x] + Filter(c, s)
  {
    FilterKeepsOrder(c, s);
    var f := Filter(c, s);
    if f != [] {
      assert f[0] in Elements(f);
      var k :| 0 <= k < |c| && c[k] == f[0];
    }
  }

  lemma {:induction false} FilterInserted(c: seq<Backup>, x: Backup, s: set<Backup>)
    requires Descending(c) && New(c, x)
    ensures Filter(Insert(c, x), s) == if x in s then Insert(Filter(c, s), x) else Filter(c, s)
  {
    if c == [] {
    } else if x.rank > c[0].rank {
      FilterBelow(c, x, s);
      assert ([x] + c)[1..] == c;
    } else {
      var rest := c[1..];
      FilterInserted(rest, x, s);
      assert ([c[0]] + Insert(rest, x))[1..] == Insert(rest, x);
      if c[0] in s {
        assert ([c[0]] + Filter(rest, s))[1..] == Filter(rest, s);
      } else if x in s {
        assert Filter(c, s) == Filter(rest, s);
      }
    }
  }

  lemma {:induction false} FilterTwice(c: seq<Backup>, large: set<Backup>, small: set<Backup>)
    requires small <= large
    ensures Filter(Filter(c, large), small) == Filter(c, small)
  {
    if c != [] {
      FilterTwice(c[1..], large, small);
      if c[0] in large {
        assert ([c[0]] + Filter(c[1..], large))[1..] == Filter(c[1..], large);
      }
    }
  }

  lemma {:induction false} FilterAll(c: seq<Backup>, s: set<Backup>)
    requires Elements(c) <= s
    ensures Filter(c, s) == c
  {
    if c != [] {
      assert forall b :: b in c[1..] ==> b in c;
      FilterAll(c[1..], s);
      assert c[0] in Elements(c);
    }
  }

  /** One arrival into a pruned history, then a prune, is a prune of everything. */
  lemma PruneAfterArrival(c: seq<Backup>, x: Backup)
    requires Descending(c) && New(c, x)
    ensures Prune(Insert(Prune(c), x)) == Prune(Insert(c, x))
  {
    var whole, present := Insert(c, x), Kept(c) + {x};
    InsertKeepsOrder(c, x);
    KeptAreCandidates(c, NOTHING);
    KeptAreCandidates(whole, NOTHING);
    FilterInserted(c, x, Elements(c));
    FilterAll(c, Elements(c));
    assert x !in Elements(c);
    ShrinksFrom(whole, Elements(c), NOTHING, NOTHING);
    assert Kept(whole) <= present by {
      forall b | b in Kept(whole)
        ensures b in present
      {
        assert b in Elements(whole);
      }
    }
    FilterInserted(c, x, present);
    FilterAgrees(c, Kept(c), present);
    StableOnIntervals(whole, present);
    FilterTwice(whole, present, Kept(whole));
  }

  lemma {:induction false} FilterAgrees(c: seq<Backup>, s: set<Backup>, t: set<Backup>)
    requires forall b :: b in c ==> (b in s <==> b in t)
    ensures Filter(c, s) == Filter(c, t)
  {
    if c != [] {
      FilterAgrees(c[1..], s, t);
    }
  }

  predicate Distinct(arrivals: seq<Backup>) {
    forall i, j :: 0 <= i < j < |arrivals| ==> arrivals[i].rank != arrivals[j].rank
  }

  /** Everything that ever arrived, newest first. */
  function History(arrivals: seq<Backup>): seq<Backup> {
    if arrivals == [] then [] else Insert(History(arrivals[..|arrivals| - 1]), arrivals[|arrivals| - 1])
  }

  /** What is left when every arrival is followed by a prune. */
  function Store(arrivals: seq<Backup>): seq<Backup> {
    if arrivals == [] then [] else Prune(Insert(Store(arrivals[..|arrivals| - 1]), arrivals[|arrivals| - 1]))
  }

  lemma ArrivalIsNew(before: seq<Backup>, x: Backup, c: seq<Backup>)
    requires Distinct(before + [x]) && Elements(c) == Elements(before)
    ensures New(c, x)
  {
    forall i | 0 <= i < |c|
      ensures c[i].rank != x.rank
    {
      assert c[i] in Elements(c);
      var k :| 0 <= k < |before| && before[k] == c[i];
      assert (before + [x])[k] == c[i] && (before + [x])[|before|] == x;
    }
  }

  lemma {:induction false} HistoryIsSorted(arrivals: seq<Backup>)
    requires Distinct(arrivals)
    ensures Descending(History(arrivals)) && Elements(History(arrivals)) == Elements(arrivals)
  {
    if arrivals != [] {
      var before, x := arrivals[..|arrivals| - 1], arrivals[|arrivals| - 1];
      HistoryIsSorted(before);
      assert arrivals == before + [x];
      ArrivalIsNew(before, x, History(before));
      InsertKeepsOrder(History(before), x);
    }
  }

  lemma {:induction false} StoreIsOnePrune(arrivals: seq<Backup>)
    requires Distinct(arrivals)
    ensures Store(arrivals) == Prune(History(arrivals))
  {
    if arrivals != [] {
      var before, x := arrivals[..|arrivals| - 1], arrivals[|arrivals| - 1];
      StoreIsOnePrune(before);
      HistoryIsSorted(before);
      assert arrivals == before + [x];
      ArrivalIsNew(before, x, History(before));
      PruneAfterArrival(History(before), x);
    }
  }

  /** Pruning after every arrival keeps what one prune of the whole history keeps,
      in whatever order the backups arrive. */
  lemma ArrivalOrderIsIrrelevant(arrivals: seq<Backup>, others: seq<Backup>)
    requires Distinct(arrivals) && Distinct(others) && Elements(arrivals) == Elements(others)
    ensures Store(arrivals) == Store(others) == Prune(History(others))
  {
    StoreIsOnePrune(arrivals);
    StoreIsOnePrune(others);
    HistoryIsSorted(arrivals);
    HistoryIsSorted(others);
    DescendingUnique(History(arrivals), History(others));
  }

  // ---- The scan and the removals.

  /** The loop of `retain`. */
  method Scan(c: seq<Backup>) returns (keep: set<Backup>)
    ensures keep == Kept(c)
  {
    keep := {};
    var daily, weekly, monthly := {}, {}, {};
    for index := 0 to |c|
      invariant keep + KeptFrom(c[index..], Seen(index, daily, weekly, monthly)) == Kept(c)
    {
      var b := c[index];
      assert c[index..][0] == b && c[index..][1..] == c[index + 1..];
      if || index < 2 || (b.day !in daily && |daily| < DAYS) || (b.week !in weekly && |weekly| < WEEKS)
         || (b.month !in monthly && |monthly| < MONTHS) {
        keep := keep + {b};
      }
      daily, weekly, monthly := daily + {b.day}, weekly + {b.week}, monthly + {b.month};
    }
  }

  predicate DistinctRanks(s: set<Backup>) {
    forall a, b :: a in s && b in s && a != b ==> a.rank != b.rank
  }

  /** The candidates sorted newest first; the receipts are listed in any order. */
  method Sort(s: set<Backup>) returns (c: seq<Backup>)
    requires DistinctRanks(s)
    ensures Descending(c) && Elements(c) == s
  {
    c := [];
    var rest := s;
    while rest != {}
      invariant rest <= s && Descending(c) && Elements(c) == s - rest
      decreases rest
    {
      var x :| x in rest;
      assert New(c, x) by {
        forall i | 0 <= i < |c|
          ensures c[i].rank != x.rank
        {
          assert c[i] in Elements(c);
        }
      }
      InsertKeepsOrder(c, x);
      c, rest := Insert(c, x), rest - {x};
    }
  }

  /** The backup files, and the receipts that name them. */
  datatype Disk = Disk(files: set<Backup>, receipts: set<Backup>)

  /** Where a prune of `d0` may be cut: some doomed backups are gone, each file before
      its receipt; `orphans` are the receipts whose files went without them. */
  ghost predicate PruneCut(c: seq<Backup>, d0: Disk, d: Disk, orphans: set<Backup>) {
    && (forall b :: b in d.files ==> b in d0.files)
    && (forall b :: b in d0.files && b !in d.files ==> b in d0.receipts && b !in Kept(c))
    && (forall b :: b in d.receipts <==> b in d0.receipts && (b in d0.files && b !in d.files ==> b in orphans))
    && (forall b :: b in orphans ==> b in d0.files && b !in d.files)
  }

  /** The backups a prune still has to remove. */
  function Doomed(c: seq<Backup>, d: Disk): set<Backup> {
    (d.receipts - Kept(c)) * d.files
  }

  /** Removing one more doomed backup moves along the cuts. */
  lemma RemovalIsACut(c: seq<Backup>, d0: Disk, d: Disk, b: Backup)
    requires PruneCut(c, d0, d, {}) && b in d.files && b in d0.receipts && b !in Kept(c)
    ensures PruneCut(c, d0, d.(files := d.files - {b}), {b})
    ensures PruneCut(c, d0, Disk(d.files - {b}, d.receipts - {b}), {})
    ensures |Doomed(c, d.(files := d.files - {b}))| == |Doomed(c, d)| - 1
    ensures |Doomed(c, Disk(d.files - {b}, d.receipts - {b}))| == |Doomed(c, d)| - 1
  {
    assert Doomed(c, d) == Doomed(c, d.(files := d.files - {b})) + {b};
    assert Doomed(c, Disk(d.files - {b}, d.receipts - {b})) == Doomed(c, d.(files := d.files - {b}));
  }

  /** One backup, if it is doomed and still there: its file, then its receipt. */
  method Remove(m: Machine<Disk>, ghost c: seq<Backup>, ghost d0: Disk, b: Backup, keep: set<Backup>)
    returns (r: Status, ghost orphans: set<Backup>)
    requires PruneCut(c, d0, m.disk, {}) && b in d0.receipts && keep == Kept(c)
    modifies m
    ensures PruneCut(c, d0, m.disk, orphans) && m.disk.files <= old(m.disk).files
    ensures b in keep || b !in old(m.disk).files ==>
              r.Ok? && orphans == {} && m.disk == old(m.disk) && m.power == old(m.power)
    ensures b !in keep && b in old(m.disk).files ==>
              && r == (if old(m.power) < 2 then PowerLost else Ok)
              && orphans == (if old(m.power) == 1 then {b} else {})
              && (r.Ok? ==> m.power == old(m.power) - 2)
              && |Doomed(c, m.disk)| == |Doomed(c, old(m.disk))| - (if old(m.power) == 0 then 0 else 1)
              && (r.Ok? ==> b !in m.disk.files)
    ensures b !in keep && b in old(m.disk).files ==> |Doomed(c, old(m.disk))| > 0
  {
    r, orphans := Ok, {};
    if b !in keep && b in m.disk.files {
      RemovalIsACut(c, d0, m.disk, b);
      hide PruneCut;
      hide Doomed;
      r := m.Put(m.disk.(files := m.disk.files - {b}));
      if !r.Ok? { return; }
      orphans := {b};
      r := m.Put(m.disk.(receipts := m.disk.receipts - {b}));
      if !r.Ok? { return; }
      orphans := {};
    }
  }

  function Least(a: nat, b: nat): nat {
    if a <= b then a else b
  }

  /** A run whose power lasts `power` writes, with `doomed` backups to remove, leaves an
      orphan exactly when it stops between a file and its receipt. */
  function OrphanedBy(power: nat, doomed: nat): nat {
    if power < 2 * doomed then power % 2 else 0
  }

  /** How many of `doomed` backups a run of that power removes. */
  function RemovedBy(power: nat, doomed: nat): nat {
    Least(doomed, (power + 1) / 2)
  }

  /** Where the power stands when a run stops, for each removal's two writes. */
  lemma StopsBetween(power: nat, doomed: nat, rest: nat, left: nat)
    requires rest + 2 * doomed == power + 2 * left && left > 0 && rest < 2
    ensures power < 2 * doomed && OrphanedBy(power, doomed) == rest && doomed - RemovedBy(power, doomed) == left - rest
  {
  }

  /** The first `n` candidates are gone, but for the kept ones. */
  predicate Gone(c: seq<Backup>, keep: set<Backup>, files: set<Backup>, n: nat)
    requires n <= |c|
  {
    forall k :: 0 <= k < n && c[k] !in keep ==> c[k] !in files
  }

  lemma OneMoreGone(c: seq<Backup>, keep: set<Backup>, before: set<Backup>, files: set<Backup>, n: nat)
    requires n < |c| && Gone(c, keep, before, n) && files <= before && (c[n] !in keep ==> c[n] !in files)
    ensures Gone(c, keep, files, n + 1)
  {
  }

  lemma SortedFacts(candidates: seq<Backup>, d: Disk, i: nat)
    requires Elements(candidates) == d.receipts && i < |candidates|
    ensures candidates[i] in d.receipts
  {
    assert candidates[i] in Elements(candidates);
  }

  lemma NothingDoomed(c: seq<Backup>, d0: Disk, d: Disk)
    requires Elements(c) == d0.receipts && PruneCut(c, d0, d, {})
    requires Gone(c, Kept(c), d.files, |c|)
    ensures Doomed(c, d) == {}
  {
    forall b | b in d.receipts && b !in Kept(c)
      ensures b !in d.files
    {
      assert b in Elements(c);
      var k :| 0 <= k < |c| && c[k] == b;
    }
  }

  lemma UncutPrune(c: seq<Backup>, d: Disk)
    ensures PruneCut(c, d, d, {})
  {
  }

  /** The removal loop of `retain`. */
  method RemoveAll(m: Machine<Disk>, candidates: seq<Backup>, keep: set<Backup>)
    returns (r: Status, ghost orphans: set<Backup>)
    requires Elements(candidates) == m.disk.receipts && keep == Kept(candidates)
    modifies m
    ensures PruneCut(candidates, old(m.disk), m.disk, orphans)
    ensures !r.Refused? && (r.Ok? <==> old(m.power) >= 2 * |Doomed(candidates, old(m.disk))|)
    ensures |orphans| == OrphanedBy(old(m.power), |Doomed(candidates, old(m.disk))|)
    ensures |Doomed(candidates, m.disk)|
            == |Doomed(candidates, old(m.disk))| - RemovedBy(old(m.power), |Doomed(candidates, old(m.disk))|)
  {
    ghost var d0, doomed, power := m.disk, |Doomed(candidates, m.disk)|, m.power;
    orphans := {};
    UncutPrune(candidates, m.disk);
    assert Gone(candidates, keep, m.disk.files, 0);
    hide *;
    for i := 0 to |candidates|
      invariant PruneCut(candidates, d0, m.disk, {})
      invariant Gone(candidates, keep, m.disk.files, i)
      invariant m.power + 2 * doomed == power + 2 * |Doomed(candidates, m.disk)|
    {
      SortedFacts(candidates, d0, i);
      ghost var left, rest, before := |Doomed(candidates, m.disk)|, m.power, m.disk.files;
      r, orphans := Remove(m, candidates, d0, candidates[i], keep);
      if !r.Ok? {
        StopsBetween(power, doomed, rest, left);
        return;
      }
      OneMoreGone(candidates, keep, before, m.disk.files, i);
    }
    r, orphans := Ok, {};
    NothingDoomed(candidates, d0, m.disk);
    NoMoreOrphans(power, doomed);
  }

  lemma NoMoreOrphans(power: nat, doomed: nat)
    requires power >= 2 * doomed
    ensures OrphanedBy(power, doomed) == 0 && RemovedBy(power, doomed) == doomed
  {
  }

  /** `retain`. Each removal is two writes, so a cut leaves an orphan exactly when it
      falls on an odd write before the last. */
  method Retain(m: Machine<Disk>) returns (r: Status, ghost c: seq<Backup>, ghost orphans: set<Backup>)
    requires DistinctRanks(m.disk.receipts)
    modifies m
    ensures Descending(c) && Elements(c) == old(m.disk).receipts
    ensures PruneCut(c, old(m.disk), m.disk, orphans)
    ensures !r.Refused? && (r.Ok? <==> old(m.power) >= 2 * |Doomed(c, old(m.disk))|)
    ensures |orphans| == OrphanedBy(old(m.power), |Doomed(c, old(m.disk))|)
    ensures |Doomed(c, m.disk)| == |Doomed(c, old(m.disk))| - RemovedBy(old(m.power), |Doomed(c, old(m.disk))|)
  {
    var candidates := Sort(m.disk.receipts);
    var keep := Scan(candidates);
    c := candidates;
    hide *;
    r, orphans := RemoveAll(m, candidates, keep);
  }

  /** What a history looks like to a later prune: the same, less what is gone. */
  lemma RemainingHistory(c: seq<Backup>, remaining: seq<Backup>)
    requires Descending(c) && Descending(remaining)
    requires Kept(c) <= Elements(remaining) <= Elements(c)
    ensures Kept(remaining) == Kept(c)
  {
    FilterKeepsOrder(c, Elements(remaining));
    assert Elements(c) * Elements(remaining) == Elements(remaining);
    DescendingUnique(remaining, Filter(c, Elements(remaining)));
    StableOnIntervals(c, Elements(remaining));
  }

  /** What an uninterrupted prune leaves. */
  function Uninterrupted(c: seq<Backup>, d0: Disk): Disk {
    Disk(d0.files - Doomed(c, d0), d0.receipts - Doomed(c, d0))
  }

  /** How many receipts a series of cut runs orphans. */
  function OrphanCount(cuts: seq<nat>, doomed: nat): nat {
    if cuts == [] then 0
    else OrphanedBy(cuts[0], doomed) + OrphanCount(cuts[1..], doomed - RemovedBy(cuts[0], doomed))
  }

  /** One more cut prune of what earlier ones left is a cut prune of the original. */
  lemma CutsCompose(c: seq<Backup>, last: seq<Backup>, d0: Disk, d: Disk, d': Disk, before: set<Backup>,
                    orphans: set<Backup>)
    requires PruneCut(c, d0, d, before) && PruneCut(last, d, d', orphans) && Kept(last) == Kept(c)
    ensures PruneCut(c, d0, d', before + orphans) && |before + orphans| == |before| + |orphans|
    ensures Doomed(last, d) == Doomed(c, d) && Doomed(last, d') == Doomed(c, d')
  {
    assert before * orphans == {};
  }

  /** However often a prune is cut, one more finishes it: the files are exactly those an
      uninterrupted prune leaves, and the receipts differ by exactly the orphans. The
      whole result is the uninterrupted one exactly when no cut fell between a file and
      its receipt. An orphan stays for good: no later prune removes it, because the file
      it looks for is gone. */
  method RetainUntilDone(m: Machine<Disk>, cuts: seq<nat>) returns (ghost c: seq<Backup>, ghost orphans: set<Backup>)
    requires DistinctRanks(m.disk.receipts)
    modifies m
    ensures Descending(c) && Elements(c) == old(m.disk).receipts
    ensures var whole := Uninterrupted(c, old(m.disk));
            && m.disk == whole.(receipts := whole.receipts + orphans)
            && orphans <= Doomed(c, old(m.disk))
            && (m.disk == whole <==> OrphanCount(cuts, |Doomed(c, old(m.disk))|) == 0)
    ensures |orphans| == OrphanCount(cuts, |Doomed(c, old(m.disk))|)
  {
    c := Sort(m.disk.receipts);
    orphans := {};
    ghost var d0 := m.disk;
    UncutPrune(c, d0);
    orphans := RetainSeries(m, c, d0, {}, cuts);
    DoomedAreFew(c, m.disk);
    ghost var left := |Doomed(c, m.disk)|;
    NoMoreOrphans(2 * |m.disk.receipts|, left);
    orphans := RetainOnce(m, c, d0, orphans, 2 * |m.disk.receipts|);
    FinishedIsUninterrupted(c, d0, m.disk, orphans);
  }

  /** A series of runs, each with its own power. */
  method RetainSeries(m: Machine<Disk>, ghost c: seq<Backup>, ghost d0: Disk, ghost before: set<Backup>, cuts: seq<nat>)
    returns (ghost orphans: set<Backup>)
    requires DistinctRanks(d0.receipts) && Descending(c) && Elements(c) == d0.receipts
    requires PruneCut(c, d0, m.disk, before)
    modifies m
    ensures PruneCut(c, d0, m.disk, orphans)
    ensures |orphans| == |before| + OrphanCount(cuts, |Doomed(c, old(m.disk))|)
    decreases |cuts|
  {
    hide PruneCut;
    hide Doomed;
    hide DistinctRanks;
    hide Descending;
    orphans := before;
    if cuts != [] {
      orphans := RetainOnce(m, c, d0, before, cuts[0]);
      orphans := RetainSeries(m, c, d0, orphans, cuts[1..]);
    }
  }

  lemma DoomedAreFew(c: seq<Backup>, d: Disk)
    ensures |Doomed(c, d)| <= |d.receipts|
  {
    Sets.SubsetCount(Doomed(c, d), d.receipts);
  }

  /** A finished prune's disk is the uninterrupted one but for the orphans. */
  lemma FinishedIsUninterrupted(c: seq<Backup>, d0: Disk, d: Disk, orphans: set<Backup>)
    requires PruneCut(c, d0, d, orphans) && Doomed(c, d) == {}
    ensures var whole := Uninterrupted(c, d0);
            && d == whole.(receipts := whole.receipts + orphans) && orphans <= Doomed(c, d0)
            && (d == whole <==> orphans == {})
  {
    var whole := Uninterrupted(c, d0);
    forall b
      ensures b in d.files <==> b in whole.files
      ensures b in d.receipts <==> b in whole.receipts + orphans
    {
      assert b !in Doomed(c, d);
    }
    if orphans != {} {
      var b :| b in orphans;
      assert b in d.receipts && b !in whole.receipts;
    }
  }

  /** One run of a series, seen from the disk the series started with. */
  method RetainOnce(m: Machine<Disk>, ghost c: seq<Backup>, ghost d0: Disk, ghost before: set<Backup>, power: nat)
    returns (ghost orphans: set<Backup>)
    requires DistinctRanks(d0.receipts) && Descending(c) && Elements(c) == d0.receipts
    requires PruneCut(c, d0, m.disk, before)
    modifies m
    ensures PruneCut(c, d0, m.disk, orphans)
    ensures |orphans| == |before| + OrphanedBy(power, |Doomed(c, old(m.disk))|)
    ensures |Doomed(c, m.disk)| == |Doomed(c, old(m.disk))| - RemovedBy(power, |Doomed(c, old(m.disk))|)
  {
    m.power := power;
    ghost var d := m.disk;
    ghost var last, added;
    var r;
    r, last, added := Retain(m);
    KeptAreCandidates(c, NOTHING);
    assert Kept(c) <= d.receipts <= d0.receipts by {
      forall b | b in Kept(c)
        ensures b in d.receipts
      {
        assert b in Elements(c);
      }
    }
    RemainingHistory(c, last);
    CutsCompose(c, last, d0, d, m.disk, before, added);
    orphans := before + added;
  }

  /** An orphan is reachable by every single cut on the first write, and then the disk
      is never the uninterrupted one again. */
  method OrphanReceipt(m: Machine<Disk>) returns (ghost c: seq<Backup>, ghost orphans: set<Backup>)
    requires DistinctRanks(m.disk.receipts)
    modifies m
    ensures Descending(c) && Elements(c) == old(m.disk).receipts
    ensures Doomed(c, old(m.disk)) != {} ==>
              |orphans| == 1 && m.disk != Uninterrupted(c, old(m.disk)) && orphans <= m.disk.receipts
              && orphans !! m.disk.files
  {
    c, orphans := RetainUntilDone(m, [1]);
    assert OrphanCount([1], |Doomed(c, old(m.disk))|) == OrphanedBy(1, |Doomed(c, old(m.disk))|);
  }
}
