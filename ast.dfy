/**
 * The part of Go's `go/ast` package the mining stage relies on: syntax trees and
 * the pre-order driver `ast.Walk`.  A visitor is reduced to a visit function over
 * an accumulator: it receives the visited node (`None` for the exit call
 * `Visit(nil)`) and answers with the new accumulator and whether the walk should
 * descend into the node's children (a non-nil returned visitor).
 */
module Ast {
  import opened Wrappers

  /** A syntax node: its text (node kind or identifier) and its children in source order. */
  datatype Node = Node(text: string, children: seq<Node>)

  type VisitFn<!S> = (S, Option<Node>) -> (S, bool)

  /**
   * The accumulator after `ast.Walk(v, n)`: visit `n`; if the visitor prunes, stop;
   * otherwise walk every child in order and finish with `Visit(nil)`.
   */
  function Walked<S>(visit: VisitFn<S>, s: S, n: Node): S
    decreases n, |n.children| + 1
  {
    var (entered, descend) := visit(s, Some(n));
    if descend then visit(WalkedChildren(visit, entered, n, |n.children|), None).0
    else entered
  }

  /** The accumulator after walking the first `i` children of `n`. */
  function WalkedChildren<S>(visit: VisitFn<S>, s: S, n: Node, i: nat): S
    requires i <= |n.children|
    decreases n, i
  {
    if i == 0 then s
    else Walked(visit, WalkedChildren(visit, s, n, i - 1), n.children[i - 1])
  }

  /** The arguments `ast.Walk` passes to a visitor that never prunes, in call order. */
  function Events(n: Node): seq<Option<Node>>
    decreases n, |n.children| + 1
  {
    [Some(n)] + ChildEvents(n, |n.children|) + [None]
  }

  function ChildEvents(n: Node, i: nat): seq<Option<Node>>
    requires i <= |n.children|
    decreases n, i
  {
    if i == 0 then [] else ChildEvents(n, i - 1) + Events(n.children[i - 1])
  }

  /** Number of nodes in the tree rooted at `n`. */
  function NodeCount(n: Node): nat
    decreases n, |n.children| + 1
  {
    1 + ChildNodeCount(n, |n.children|)
  }

  function ChildNodeCount(n: Node, i: nat): nat
    requires i <= |n.children|
    decreases n, i
  {
    if i == 0 then 0 else ChildNodeCount(n, i - 1) + NodeCount(n.children[i - 1])
  }

  /** The accumulator after feeding `xs` to the visit function one by one. */
  function Replay<S>(visit: VisitFn<S>, s: S, xs: seq<Option<Node>>): S
  {
    if xs == [] then s else visit(Replay(visit, s, xs[..|xs| - 1]), xs[|xs| - 1]).0
  }

  ghost predicate AlwaysDescends<S(!new)>(visit: VisitFn<S>)
  {
    forall s, x :: visit(s, x).1
  }

  lemma {:induction false} ReplayAppend<S>(visit: VisitFn<S>, s: S, xs: seq<Option<Node>>, ys: seq<Option<Node>>)
    ensures Replay(visit, s, xs + ys) == Replay(visit, Replay(visit, s, xs), ys)
    decreases |ys|
  {
    if ys == [] {
      assert xs + ys == xs;
    } else {
      var init := ys[..|ys| - 1];
      assert (xs + ys)[..|xs + ys| - 1] == xs + init;
      ReplayAppend(visit, s, xs, init);
    }
  }

  /**
   * For a visitor that never prunes, the walk calls `Visit` exactly on `Events(n)`:
   * every node in pre-order on entry, and one `Visit(nil)` after each node's subtree.
   */
  lemma {:induction false} WalkedReplaysEvents<S(!new)>(visit: VisitFn<S>, s: S, n: Node)
    requires AlwaysDescends(visit)
    ensures Walked(visit, s, n) == Replay(visit, s, Events(n))
    decreases n, |n.children| + 1
  {
    var entered := visit(s, Some(n)).0;
    var inner := ChildEvents(n, |n.children|);
    WalkedChildrenReplaysEvents(visit, entered, n, |n.children|);
    assert Replay(visit, s, [Some(n)]) == entered by {
      assert [Some(n)][..0] == [];
    }
    ReplayAppend(visit, s, [Some(n)], inner);
    assert Events(n)[..|Events(n)| - 1] == [Some(n)] + inner;
  }

  lemma {:induction false} WalkedChildrenReplaysEvents<S(!new)>(visit: VisitFn<S>, s: S, n: Node, i: nat)
    requires AlwaysDescends(visit)
    requires i <= |n.children|
    ensures WalkedChildren(visit, s, n, i) == Replay(visit, s, ChildEvents(n, i))
    decreases n, i
  {
    if i > 0 {
      WalkedChildrenReplaysEvents(visit, s, n, i - 1);
      WalkedReplaysEvents(visit, WalkedChildren(visit, s, n, i - 1), n.children[i - 1]);
      ReplayAppend(visit, s, ChildEvents(n, i - 1), Events(n.children[i - 1]));
    }
  }

  /** Each node contributes one entry and one exit call. */
  lemma {:induction false} EventsCount(n: Node)
    ensures |Events(n)| == 2 * NodeCount(n)
    decreases n, |n.children| + 1
  {
    ChildEventsCount(n, |n.children|);
  }

  lemma {:induction false} ChildEventsCount(n: Node, i: nat)
    requires i <= |n.children|
    ensures |ChildEvents(n, i)| == 2 * ChildNodeCount(n, i)
    decreases n, i
  {
    if i > 0 {
      ChildEventsCount(n, i - 1);
      EventsCount(n.children[i - 1]);
    }
  }
}
