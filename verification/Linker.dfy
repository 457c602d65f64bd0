/** The captured-import linker, `link` of `host_observer.py`: every relative import of
    a captured module is replaced by the data URL of what it names, recursively and
    with a memo. */
module Linker {
  import opened Base64
  import opened Power

  type Leaf = string

  /** A captured module: its text, cut at its relative imports in the order they appear,
      and whether one would survive their replacement. `rests[i]` follows import `i`. */
  datatype Source = Source(head: Bytes, imports: seq<Leaf>, rests: seq<Bytes>, stray: bool)

  /** A linked module: its own text, with the linked modules of its imports in place. */
  datatype Url = Url(source: Source, imports: seq<Url>)

  type Sources = map<Leaf, Source>

  const LIMIT := 16 * 1024 * 1024

  /** A text with the URLs of its imports in place. */
  function Woven(head: Bytes, rests: seq<Bytes>, urls: seq<Url>): Bytes
    decreases urls
  {
    if urls == [] then head
    else if rests == [] then head + Rendered(urls[0]) + Woven([], [], urls[1..])
    else head + Rendered(urls[0]) + Woven(rests[0], rests[1..], urls[1..])
  }

  /** The data URL itself. */
  function Rendered(u: Url): Bytes
    decreases u
  {
    Ascii("data:text/javascript;base64,") + Encode(Woven(u.source.head, u.source.rests, u.imports))
  }

  lemma {:induction false} PartOfWoven(head: Bytes, rests: seq<Bytes>, urls: seq<Url>, i: nat)
    requires i < |urls|
    ensures |Rendered(urls[i])| <= |Woven(head, rests, urls)|
    decreases i
  {
    if i > 0 {
      if rests == [] {
        PartOfWoven([], [], urls[1..], i - 1);
      } else {
        PartOfWoven(rests[0], rests[1..], urls[1..], i - 1);
      }
    }
  }

  /** An import's URL is always shorter than what imports it. */
  lemma ImportIsSmaller(u: Url, i: nat)
    requires i < |u.imports|
    ensures |Rendered(u.imports[i])| < |Rendered(u)|
  {
    PartOfWoven(u.source.head, u.source.rests, u.imports, i);
  }

  // ---- What a link must be, and when there is one.

  /** `u` is the module `leaf` with every import replaced by what it names, all the way
      down. */
  predicate Encodes(sources: Sources, u: Url, leaf: Leaf) {
    && leaf in sources && u.source == sources[leaf] && |u.imports| == |sources[leaf].imports|
    && forall i :: 0 <= i < |u.imports| ==> Encodes(sources, u.imports[i], sources[leaf].imports[i])
  }

  /** There is only one such module. */
  lemma {:induction false} EncodesOne(sources: Sources, u: Url, v: Url, leaf: Leaf)
    requires Encodes(sources, u, leaf) && Encodes(sources, v, leaf)
    ensures u == v
    decreases u
  {
    forall i | 0 <= i < |u.imports|
      ensures u.imports[i] == v.imports[i]
    {
      EncodesOne(sources, u.imports[i], v.imports[i], sources[leaf].imports[i]);
    }
    assert u.imports == v.imports;
  }

  /** The graph below `leaf` is closed and acyclic, and its link is not over 16 MiB. */
  ghost predicate Linkable(sources: Sources, leaf: Leaf) {
    Closed(sources, leaf, []) && forall u :: Encodes(sources, u, leaf) ==> |Rendered(u)| <= 16777216
  }

  // ---- The reference: a fresh link, without the memo and the size limit.

  function Nodes(path: seq<Leaf>): set<Leaf> {
    set x | x in path
  }

  /** Linking `leaf` while the modules of `visiting` are being linked. */
  function FreshLink(sources: Sources, leaf: Leaf, visiting: seq<Leaf>): Option<Url>
    decreases sources.Keys - Nodes(visiting), 1, 0
  {
    if leaf !in sources || leaf in visiting then None
    else
      assert leaf !in sources.Keys - Nodes(visiting + [leaf]);
      var linked := FreshLinks(sources, sources[leaf].imports, visiting + [leaf]);
      if linked.None? || sources[leaf].stray then None else Some(Url(sources[leaf], linked.value))
  }

  function FreshLinks(sources: Sources, imports: seq<Leaf>, visiting: seq<Leaf>): (r: Option<seq<Url>>)
    ensures r.Some? ==> |r.value| == |imports|
    decreases sources.Keys - Nodes(visiting), 2, |imports|
  {
    if imports == [] then Some([])
    else
      var first := FreshLink(sources, imports[0], visiting);
      var rest := FreshLinks(sources, imports[1..], visiting);
      if first.None? || rest.None? then None else Some([first.value] + rest.value)
  }

  lemma {:induction false} LinkAllElements(sources: Sources, imports: seq<Leaf>, visiting: seq<Leaf>)
    ensures FreshLinks(sources, imports, visiting).Some? <==>
              forall i :: 0 <= i < |imports| ==> FreshLink(sources, imports[i], visiting).Some?
    ensures FreshLinks(sources, imports, visiting).Some? ==>
              forall i :: 0 <= i < |imports| ==>
                FreshLink(sources, imports[i], visiting) == Some(FreshLinks(sources, imports, visiting).value[i])
    decreases |imports|
  {
    if imports != [] {
      LinkAllElements(sources, imports[1..], visiting);
      if FreshLinks(sources, imports, visiting).None? && FreshLink(sources, imports[0], visiting).Some? {
        var i :| 0 <= i < |imports[1..]| && FreshLink(sources, imports[1..][i], visiting).None?;
        assert imports[i + 1] == imports[1..][i];
      }
    }
  }

  /** A fresh link is the module it is asked for. */
  lemma {:induction false} FreshEncodes(sources: Sources, leaf: Leaf, visiting: seq<Leaf>)
    requires FreshLink(sources, leaf, visiting).Some?
    ensures Encodes(sources, FreshLink(sources, leaf, visiting).value, leaf)
    decreases sources.Keys - Nodes(visiting)
  {
    var imports := sources[leaf].imports;
    assert leaf !in sources.Keys - Nodes(visiting + [leaf]);
    LinkAllElements(sources, imports, visiting + [leaf]);
    forall i | 0 <= i < |imports|
      ensures Encodes(sources, FreshLinks(sources, imports, visiting + [leaf]).value[i], imports[i])
    {
      FreshEncodes(sources, imports[i], visiting + [leaf]);
    }
  }

  // ---- The import graph.

  predicate IsPath(sources: Sources, path: seq<Leaf>) {
    forall i :: 0 <= i < |path| - 1 ==> path[i] in sources && path[i + 1] in sources[path[i]].imports
  }

  /** The end of a path is a captured module that nothing before it repeats. */
  predicate EndsWell(sources: Sources, visiting: seq<Leaf>, path: seq<Leaf>)
    requires path != []
  {
    var last := path[|path| - 1];
    last in sources && !sources[last].stray && last !in visiting && last !in path[..|path| - 1]
  }

  /** The graph below `leaf` is closed, has no cycle, avoids `visiting`, and keeps no
      relative import. */
  ghost predicate Closed(sources: Sources, leaf: Leaf, visiting: seq<Leaf>) {
    forall path :: path != [] && path[0] == leaf && IsPath(sources, path) ==> EndsWell(sources, visiting, path)
  }

  lemma {:induction false} LinkedEndsWell(sources: Sources, leaf: Leaf, visiting: seq<Leaf>, path: seq<Leaf>)
    requires FreshLink(sources, leaf, visiting).Some?
    requires path != [] && path[0] == leaf && IsPath(sources, path)
    ensures EndsWell(sources, visiting, path)
    decreases |path|
  {
    if |path| > 1 {
      var imports := sources[leaf].imports;
      var k :| 0 <= k < |imports| && imports[k] == path[1];
      LinkAllElements(sources, imports, visiting + [leaf]);
      LinkedEndsWell(sources, path[1], visiting + [leaf], path[1..]);
      assert path[..|path| - 1] == [leaf] + path[1..][..|path[1..]| - 1];
    }
  }

  lemma ClosedBelow(sources: Sources, leaf: Leaf, visiting: seq<Leaf>, dependency: Leaf)
    requires Closed(sources, leaf, visiting) && leaf in sources && dependency in sources[leaf].imports
    ensures Closed(sources, dependency, visiting + [leaf])
  {
    forall path | path != [] && path[0] == dependency && IsPath(sources, path)
      ensures EndsWell(sources, visiting + [leaf], path)
    {
      var longer := [leaf] + path;
      assert IsPath(sources, longer);
      assert EndsWell(sources, visiting, longer);
      assert longer[..|longer| - 1] == [leaf] + path[..|path| - 1];
    }
  }

  lemma {:induction false} ClosedLinks(sources: Sources, leaf: Leaf, visiting: seq<Leaf>)
    requires Closed(sources, leaf, visiting)
    ensures FreshLink(sources, leaf, visiting).Some?
    decreases sources.Keys - Nodes(visiting)
  {
    assert EndsWell(sources, visiting, [leaf]);
    var imports := sources[leaf].imports;
    assert leaf !in sources.Keys - Nodes(visiting + [leaf]);
    forall i | 0 <= i < |imports|
      ensures FreshLink(sources, imports[i], visiting + [leaf]).Some?
    {
      ClosedBelow(sources, leaf, visiting, imports[i]);
      ClosedLinks(sources, imports[i], visiting + [leaf]);
    }
    LinkAllElements(sources, imports, visiting + [leaf]);
  }

  /** A fresh link succeeds exactly when the graph reachable from the root is closed
      and acyclic. */
  lemma LinksExactlyClosed(sources: Sources, leaf: Leaf, visiting: seq<Leaf>)
    ensures FreshLink(sources, leaf, visiting).Some? <==> Closed(sources, leaf, visiting)
  {
    if FreshLink(sources, leaf, visiting).Some? {
      forall path | path != [] && path[0] == leaf && IsPath(sources, path)
        ensures EndsWell(sources, visiting, path)
      {
        LinkedEndsWell(sources, leaf, visiting, path);
      }
    }
    if Closed(sources, leaf, visiting) {
      ClosedLinks(sources, leaf, visiting);
    }
  }

  /** Where two fresh links both succeed, they give the same URL. */
  lemma {:induction false} LinkIgnoresVisiting(sources: Sources, leaf: Leaf, a: seq<Leaf>, b: seq<Leaf>)
    requires FreshLink(sources, leaf, a).Some? && FreshLink(sources, leaf, b).Some?
    ensures FreshLink(sources, leaf, a) == FreshLink(sources, leaf, b)
    decreases sources.Keys - Nodes(a)
  {
    var imports := sources[leaf].imports;
    assert leaf !in sources.Keys - Nodes(a + [leaf]);
    LinkAllElements(sources, imports, a + [leaf]);
    LinkAllElements(sources, imports, b + [leaf]);
    forall i | 0 <= i < |imports|
      ensures FreshLink(sources, imports[i], a + [leaf]) == FreshLink(sources, imports[i], b + [leaf])
    {
      LinkIgnoresVisiting(sources, imports[i], a + [leaf], b + [leaf]);
    }
    assert FreshLinks(sources, imports, a + [leaf]).value == FreshLinks(sources, imports, b + [leaf]).value;
  }

  lemma JoinPaths(sources: Sources, a: seq<Leaf>, b: seq<Leaf>)
    requires a != [] && b != [] && IsPath(sources, a) && IsPath(sources, b)
    requires a[|a| - 1] in sources && b[0] in sources[a[|a| - 1]].imports
    ensures IsPath(sources, a + b)
  {
    var joined := a + b;
    forall i | 0 <= i < |joined| - 1
      ensures joined[i] in sources && joined[i + 1] in sources[joined[i]].imports
    {
      if i < |a| - 1 {
        assert joined[i] == a[i] && joined[i + 1] == a[i + 1];
      } else if i >= |a| {
        assert joined[i] == b[i - |a|] && joined[i + 1] == b[i - |a| + 1];
      }
    }
  }

  /** A path from `leaf` back into the path that led to it makes a cycle. */
  lemma WayBackIsACycle(sources: Sources, leaf: Leaf, path: seq<Leaf>, visiting: seq<Leaf>, k: nat)
    requires path != [] && path[0] == leaf && IsPath(sources, path) && IsPath(sources, visiting + [leaf])
    requires k < |visiting| && visiting[k] == path[|path| - 1]
    ensures !Closed(sources, leaf, [])
  {
    var whole := visiting + [leaf];
    var around := path + whole[k + 1..];
    assert whole[k] == visiting[k] && whole[k + 1] in sources[whole[k]].imports;
    JoinPaths(sources, path, whole[k + 1..]);
    assert around[|around| - 1] == leaf && around[..|around| - 1][0] == leaf;
    assert !EndsWell(sources, [], around);
  }

  /** A module that links on its own links equally well from any path that leads to
      it: were it to reach back into that path, it would reach itself. */
  lemma LinksOnAnyPath(sources: Sources, leaf: Leaf, visiting: seq<Leaf>)
    requires FreshLink(sources, leaf, []).Some? && IsPath(sources, visiting + [leaf])
    ensures FreshLink(sources, leaf, visiting) == FreshLink(sources, leaf, [])
  {
    LinksExactlyClosed(sources, leaf, []);
    forall path | path != [] && path[0] == leaf && IsPath(sources, path)
      ensures EndsWell(sources, visiting, path)
    {
      assert EndsWell(sources, [], path);
      if path[|path| - 1] in visiting {
        var k :| 0 <= k < |visiting| && visiting[k] == path[|path| - 1];
        WayBackIsACycle(sources, leaf, path, visiting, k);
        assert false;
      }
    }
    LinksExactlyClosed(sources, leaf, visiting);
    LinkIgnoresVisiting(sources, leaf, visiting, []);
  }

  // ---- The linker itself.

  /** A link that succeeds and fits. Only the root's own size matters. */
  function Fitting(u: Option<Url>): Option<Url> {
    if u.Some? && |Rendered(u.value)| <= LIMIT then u else None
  }

  class Captured {
    const sources: Sources
    var urls: map<Leaf, Url>

    constructor (sources: Sources)
      ensures this.sources == sources && urls == map[] && Valid()
    {
      this.sources, this.urls := sources, map[];
    }

    /** Every memo entry is a fresh link. */
    ghost predicate Valid()
      reads this
    {
      forall leaf :: leaf in urls ==> Some(urls[leaf]) == Fitting(FreshLink(sources, leaf, []))
    }

    /** `link`. A raised error is `None`. */
    method Link(leaf: Leaf, visiting: seq<Leaf>) returns (url: Option<Url>)
      requires Valid() && IsPath(sources, visiting + [leaf])
      modifies this
      ensures Valid()
      ensures url == Fitting(FreshLink(sources, leaf, visiting))
      ensures url.Some? ==> Encodes(sources, url.value, leaf) && |Rendered(url.value)| <= 16777216
      decreases sources.Keys - Nodes(visiting), 1, 0
    {
      if leaf !in sources || leaf in visiting {
        return None;
      }
      if leaf in urls {
        LinksOnAnyPath(sources, leaf, visiting);
        FreshEncodes(sources, leaf, []);
        return Some(urls[leaf]);
      }
      var source := sources[leaf];
      assert leaf !in sources.Keys - Nodes(visiting + [leaf]);
      LinkAllElements(sources, source.imports, visiting + [leaf]);
      var linked: seq<Url> := [];
      for i := 0 to |source.imports|
        invariant Valid() && |linked| == i
        invariant forall k :: 0 <= k < i ==> Some(linked[k]) == FreshLink(sources, source.imports[k], visiting + [leaf])
      {
        StepOfPath(leaf, visiting, i);
        var dependency := Link(source.imports[i], visiting + [leaf]);
        if dependency.None? {
          TooLargeBelow(leaf, visiting, i);
          return None;
        }
        linked := linked + [dependency.value];
      }
      if source.stray {
        return None;
      }
      ghost var reference := FreshLinks(sources, source.imports, visiting + [leaf]);
      assert linked == reference.value;
      var u := Url(source, linked);
      if |Rendered(u)| > LIMIT {
        return None;
      }
      LinksExactlyClosed(sources, leaf, visiting);
      AloneToo(leaf, visiting);
      FreshEncodes(sources, leaf, visiting);
      urls := urls[leaf := u];
      return Some(u);
    }

    lemma StepOfPath(leaf: Leaf, visiting: seq<Leaf>, i: nat)
      requires IsPath(sources, visiting + [leaf]) && leaf in sources && i < |sources[leaf].imports|
      ensures IsPath(sources, visiting + [leaf] + [sources[leaf].imports[i]])
    {
      var path, longer := visiting + [leaf], visiting + [leaf] + [sources[leaf].imports[i]];
      forall k | 0 <= k < |longer| - 1
        ensures longer[k] in sources && longer[k + 1] in sources[longer[k]].imports
      {
        if k < |path| - 1 {
          assert longer[k] == path[k] && longer[k + 1] == path[k + 1];
        }
      }
    }

    /** If an import cannot be linked within the limit, neither can what imports it. */
    lemma TooLargeBelow(leaf: Leaf, visiting: seq<Leaf>, i: nat)
      requires leaf in sources && i < |sources[leaf].imports|
      requires Fitting(FreshLink(sources, sources[leaf].imports[i], visiting + [leaf])).None?
      ensures Fitting(FreshLink(sources, leaf, visiting)).None?
    {
      var u := FreshLink(sources, leaf, visiting);
      if u.Some? {
        LinkAllElements(sources, sources[leaf].imports, visiting + [leaf]);
        ImportIsSmaller(u.value, i);
      }
    }

    /** A module that links from a path also links on its own. */
    lemma AloneToo(leaf: Leaf, visiting: seq<Leaf>)
      requires FreshLink(sources, leaf, visiting).Some?
      ensures FreshLink(sources, leaf, []) == FreshLink(sources, leaf, visiting)
    {
      LinksExactlyClosed(sources, leaf, visiting);
      forall path | path != [] && path[0] == leaf && IsPath(sources, path)
        ensures EndsWell(sources, [], path)
      {
        assert EndsWell(sources, visiting, path);
      }
      LinksExactlyClosed(sources, leaf, []);
      LinkIgnoresVisiting(sources, leaf, [], visiting);
    }
  }

  /** On its own a module has a link exactly if it is linkable. */
  lemma FitsExactly(sources: Sources, leaf: Leaf)
    ensures Fitting(FreshLink(sources, leaf, [])).Some? <==> Linkable(sources, leaf)
  {
    LinksExactlyClosed(sources, leaf, []);
    if FreshLink(sources, leaf, []).Some? {
      var u := FreshLink(sources, leaf, []).value;
      FreshEncodes(sources, leaf, []);
      forall v | Encodes(sources, v, leaf)
        ensures v == u
      {
        EncodesOne(sources, v, u, leaf);
      }
    }
  }

  /** Linking several roots, in any order and with one memo, gives each root its own
      module with every import in place, and fails exactly when one cannot be linked. */
  method LinkRoots(sources: Sources, roots: seq<Leaf>) returns (linked: Option<seq<Url>>)
    ensures linked.Some? <==> forall i :: 0 <= i < |roots| ==> Linkable(sources, roots[i])
    ensures linked.Some? ==>
              && |linked.value| == |roots|
              && forall i :: 0 <= i < |roots| ==> Encodes(sources, linked.value[i], roots[i])
  {
    var captured := new Captured(sources);
    var done: seq<Url> := [];
    for i := 0 to |roots|
      invariant captured.Valid() && captured.sources == sources && |done| == i
      invariant fresh(captured)
      invariant forall k :: 0 <= k < i ==> Linkable(sources, roots[k]) && Encodes(sources, done[k], roots[k])
    {
      FitsExactly(sources, roots[i]);
      var url := captured.Link(roots[i], []);
      if url.None? {
        return None;
      }
      done := done + [url.value];
    }
    return Some(done);
  }
}
