/**
 * The mining stage (adapter/wordcount/mine.go) and the visitor contract it
 * drives (adapter/wordcount/processor_config.go): `Name`, `Visit`, `Results`.
 * A miner keeps its accumulated state in place; `Visit` updates it and says
 * whether to descend into the visited node's children.
 */
module Mine {
  import opened Wrappers
  import opened Ast
  import opened Code

  /** The behaviour of one kind of miner: its name, its visit step and how it reports. */
  datatype Visitor<!S> = Visitor(name: string, visit: VisitFn<S>, results: S -> map<string, int>)

  class Miner<S> {
    const visitor: Visitor<S>
    var state: S

    constructor (visitor: Visitor<S>, initial: S)
      ensures this.visitor == visitor && state == initial
    {
      this.visitor := visitor;
      state := initial;
    }

    /** `Name()`: the miner's label, fixed for its whole life. */
    function Name(): (r: string)
      ensures r == visitor.name
    {
      visitor.name
    }

    /** `Visit(n)`; `n` is `None` for `Visit(nil)`. `descend` is "the returned visitor is non-nil". */
    method Visit(n: Option<Node>) returns (descend: bool)
      modifies this
      ensures (state, descend) == visitor.visit(old(state), n)
    {
      var next := visitor.visit(state, n);
      state := next.0;
      descend := next.1;
    }

    /** `Results()`: the counts the miner reports for what it has accumulated so far. */
    function Results(): (r: map<string, int>)
      reads this
      ensures r == visitor.results(state)
    {
      visitor.results(state)
    }
  }

  /** `ast.Walk(miner, n)`: pre-order, pruned where `Visit` answers nil. */
  method Walk<S>(miner: Miner<S>, n: Node)
    modifies miner
    ensures miner.state == Walked(miner.visitor.visit, old(miner.state), n)
    decreases n
  {
    var descend := miner.Visit(Some(n));
    if !descend {
      return;
    }
    ghost var entered := miner.state;
    for i := 0 to |n.children|
      invariant miner.state == WalkedChildren(miner.visitor.visit, entered, n, i)
    {
      Walk(miner, n.children[i]);
    }
    descend := miner.Visit(None);
  }

  /**
   * The state after mining `trees` in order: a nil tree is skipped, any other is
   * walked once.
   */
  function Mined<S>(visit: VisitFn<S>, s: S, trees: seq<Option<Node>>): S
  {
    if trees == [] then s
    else
      var before := Mined(visit, s, trees[..|trees| - 1]);
      match trees[|trees| - 1]
      case None => before
      case Some(root) => Walked(visit, before, root)
  }

  /** `Mine(parsed, miner)`: returns the miner it was given, after walking every tree. */
  method Mine<S>(parsed: seq<File>, miner: Miner<S>) returns (r: Miner<S>)
    modifies miner
    ensures r == miner
    ensures miner.state == Mined(miner.visitor.visit, old(miner.state), Trees(parsed))
  {
    ghost var trees := Trees(parsed);
    for i := 0 to |parsed|
      invariant miner.state == Mined(miner.visitor.visit, old(miner.state), trees[..i])
    {
      assert trees[..i + 1][..i] == trees[..i];
      if parsed[i].ast == None {
        continue;
      }
      Walk(miner, parsed[i].ast.value);
    }
    assert trees[..|parsed|] == trees;
    r := miner;
  }

  /** Only the trees that are present. */
  function Present(trees: seq<Option<Node>>): seq<Option<Node>>
  {
    if trees == [] then []
    else
      var last := trees[|trees| - 1];
      Present(trees[..|trees| - 1]) + (if last.Some? then [last] else [])
  }

  /** Mining is sequential over files: mining `a + b` is mining `a`, then `b`. */
  lemma {:induction false} MinedAppend<S>(visit: VisitFn<S>, s: S, a: seq<Option<Node>>, b: seq<Option<Node>>)
    ensures Mined(visit, s, a + b) == Mined(visit, Mined(visit, s, a), b)
    decreases |b|
  {
    if b == [] {
      assert a + b == a;
    } else {
      var init := b[..|b| - 1];
      assert (a + b)[..|a + b| - 1] == a + init;
      MinedAppend(visit, s, a, init);
    }
  }

  /** A file with a nil tree is never visited: dropping it changes nothing. */
  lemma {:induction false} MinedSkipsNil<S>(visit: VisitFn<S>, s: S, trees: seq<Option<Node>>)
    ensures Mined(visit, s, trees) == Mined(visit, s, Present(trees))
    decreases |trees|
  {
    if trees != [] {
      var init := trees[..|trees| - 1];
      var last := trees[|trees| - 1];
      MinedSkipsNil(visit, s, init);
      if last.Some? {
        var kept := Present(init) + [last];
        assert kept[..|kept| - 1] == Present(init);
      } else {
        assert Present(init) + [] == Present(init);
        assert Present(trees) == Present(init);
        assert Mined(visit, s, trees) == Mined(visit, s, init);
      }
    }
  }

  /** With only nil trees, the miner's state is left as it was. */
  lemma NothingMinedWithoutTrees<S>(visit: VisitFn<S>, s: S, trees: seq<Option<Node>>)
    requires forall i :: 0 <= i < |trees| ==> trees[i] == None
    ensures Mined(visit, s, trees) == s
  {
    MinedSkipsNil(visit, s, trees);
    PresentOfNils(trees);
  }

  lemma {:induction false} PresentOfNils(trees: seq<Option<Node>>)
    requires forall i :: 0 <= i < |trees| ==> trees[i] == None
    ensures Present(trees) == []
    decreases |trees|
  {
    if trees != [] {
      PresentOfNils(trees[..|trees| - 1]);
    }
  }

  /** The visit step of the test miner of adapter/wordcount/mine_test.go: count and descend. */
  function CountVisit(visits: int, n: Option<Node>): (int, bool)
  {
    (visits + 1, true)
  }

  lemma {:induction false} ReplayCounts(k: int, xs: seq<Option<Node>>)
    ensures Replay(CountVisit, k, xs) == k + |xs|
    decreases |xs|
  {
    if xs != [] {
      ReplayCounts(k, xs[..|xs| - 1]);
    }
  }

  /** Walking one tree with the counting miner: one entry and one exit visit per node. */
  lemma WalkedCountsVisits(k: int, n: Node)
    ensures Walked(CountVisit, k, n) == k + 2 * NodeCount(n)
  {
    WalkedReplaysEvents(CountVisit, k, n);
    ReplayCounts(k, Events(n));
    EventsCount(n);
  }

  function TotalNodes(trees: seq<Option<Node>>): nat
  {
    if trees == [] then 0
    else
      TotalNodes(trees[..|trees| - 1])
        + match trees[|trees| - 1] case None => 0 case Some(root) => NodeCount(root)
  }

  /** Visits add up over the files that have a tree. */
  lemma {:induction false} MinedCountsVisits(k: int, trees: seq<Option<Node>>)
    ensures Mined(CountVisit, k, trees) == k + 2 * TotalNodes(trees)
    decreases |trees|
  {
    if trees != [] {
      var init := trees[..|trees| - 1];
      MinedCountsVisits(k, init);
      if trees[|trees| - 1].Some? {
        WalkedCountsVisits(Mined(CountVisit, k, init), trees[|trees| - 1].value);
      }
    }
  }

  /** The tree `go/parser` builds for `package <name>`: a file node with its name identifier. */
  function PackageClause(name: string): Node
  {
    Node("File", [Node(name, [])])
  }

  /** Two one-clause files, as in the test: 8 visits. */
  lemma TwoPackageClausesGiveEightVisits()
    ensures Mined(CountVisit, 0, [Some(PackageClause("main")), Some(PackageClause("test"))]) == 8
  {
    var trees := [Some(PackageClause("main")), Some(PackageClause("test"))];
    MinedCountsVisits(0, trees);
    assert NodeCount(PackageClause("main")) == 2 by {
      assert ChildNodeCount(PackageClause("main"), 1) == 1;
    }
    assert NodeCount(PackageClause("test")) == 2 by {
      assert ChildNodeCount(PackageClause("test"), 1) == 1;
    }
    assert trees[..1] == [Some(PackageClause("main"))];
    assert trees[..1][..0] == [];
  }
}
