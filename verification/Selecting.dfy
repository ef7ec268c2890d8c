/** The query: everything that a selector picks below some nodes, in document order from each, and
    without repeats. */
module Selecting {
  import opened Sequences
  import opened Dom
  import opened DocumentOrder
  import opened Selectors
  import opened SelectorMatch
  import opened SelectorParser
  import opened SelectorSyntax

  // ---------------------------------------------------------------------------------------
  // The walk through element nodes

  /** `n` and, below elements, what is under it, parents before children. */
  ghost function Preorder(h: Heap, n: NodeId): seq<NodeId>
    requires WellFormed(h) && n in h
    decreases Room(h, n), 1, 0
  {
    [n] + if h[n].kind.Element? then PreorderUpTo(h, n, |h[n].children|) else []
  }

  /** The walks from the first `k` children of `n`. */
  ghost function PreorderUpTo(h: Heap, n: NodeId, k: nat): seq<NodeId>
    requires WellFormed(h) && n in h && k <= |h[n].children|
    decreases Room(h, n), 0, k
  {
    if k == 0 then []
    else
      ChildRoom(h, n, k - 1);
      PreorderUpTo(h, n, k - 1) + Preorder(h, h[n].children[k - 1])
  }

  /** Document order: an ancestor comes first; otherwise, the branch with the smaller index. */
  ghost predicate DocBefore(h: Heap, a: NodeId, b: NodeId)
    requires Acyclic(h)
  {
    a in h && b in h &&
    var p, q := PathOf(h, a), PathOf(h, b);
    || (|p| < |q| && q[..|p|] == p)
    || exists k :: 0 <= k < |p| && k < |q| && p[..k] == q[..k] && h[p[k]].index < h[q[k]].index
  }

  ghost predicate InOrder(h: Heap, s: seq<NodeId>)
    requires Acyclic(h)
  {
    forall i, j :: 0 <= i < j < |s| ==> DocBefore(h, s[i], s[j])
  }

  lemma BeforeOther(h: Heap, a: NodeId, b: NodeId)
    requires Acyclic(h) && DocBefore(h, a, b)
    ensures a != b
  {
  }

  /** The walk meets exactly the nodes that are reached through elements. */
  lemma {:induction false} PreorderMeets(h: Heap, n: NodeId, d: NodeId)
    requires WellFormed(h) && n in h
    ensures d in Preorder(h, n) <==> Met(h, n, d)
    decreases Room(h, n), 1, 0
  {
    hide Met, ChildrenLinked, ParentsLinked, LeavesBare, Acyclic;
    MetSelf(h, n);
    if h[n].kind.Element? {
      PreorderUpToMeets(h, n, |h[n].children|, d);
      if i :| 0 <= i < |h[n].children| && MetBelow(h, n, i, d) { MetFromChild(h, n, i, d); }
    }
    if Met(h, n, d) && d != n {
      MetChild(h, n, d);
      var i :| 0 <= i < |h[n].children| && h[n].children[i] in h && Met(h, h[n].children[i], d);
      assert MetBelow(h, n, i, d);
    }
  }

  ghost predicate MetBelow(h: Heap, n: NodeId, i: nat, d: NodeId)
    requires Acyclic(h) && n in h && i < |h[n].children|
  {
    h[n].children[i] in h && Met(h, h[n].children[i], d)
  }

  lemma {:induction false} PreorderUpToMeets(h: Heap, n: NodeId, k: nat, d: NodeId)
    requires WellFormed(h) && n in h && k <= |h[n].children|
    ensures d in PreorderUpTo(h, n, k) <==> exists i :: 0 <= i < k && MetBelow(h, n, i, d)
    decreases Room(h, n), 0, k
  {
    hide Met, ChildrenLinked, ParentsLinked, LeavesBare, Acyclic;
    if k > 0 {
      ChildRoom(h, n, k - 1);
      PreorderUpToMeets(h, n, k - 1, d);
      PreorderMeets(h, h[n].children[k - 1], d);
      assert MetBelow(h, n, k - 1, d) <==> Met(h, h[n].children[k - 1], d);
    }
  }

  /** What is met from `n` has the path of `n` as the start of its own. */
  lemma MetPath(h: Heap, n: NodeId, d: NodeId)
    requires Acyclic(h) && n in h && Met(h, n, d)
    ensures |PathOf(h, n)| <= |PathOf(h, d)| && PathOf(h, d)[..|PathOf(h, n)|] == PathOf(h, n)
  {
    PathPrefix(h, d, |PathOf(h, n)| - 1);
  }

  /** Nodes met from an earlier child come before those met from a later one. */
  lemma ChildrenInOrder(h: Heap, n: NodeId, i: nat, j: nat, a: NodeId, b: NodeId)
    requires WellFormed(h) && n in h && i < j < |h[n].children|
    requires MetBelow(h, n, i, a) && MetBelow(h, n, j, b)
    ensures DocBefore(h, a, b)
  {
    hide Met;
    var c, d := h[n].children[i], h[n].children[j];
    ChildRoom(h, n, i);
    ChildRoom(h, n, j);
    MetPath(h, c, a);
    MetPath(h, d, b);
    var p, q, m := PathOf(h, a), PathOf(h, b), |PathOf(h, n)|;
    assert p[..m] == p[..m + 1][..m] == PathOf(h, n);
    assert q[..m] == q[..m + 1][..m] == PathOf(h, n);
    assert p[m] == p[..m + 1][m] == c;
    assert q[m] == q[..m + 1][m] == d;
  }

  lemma RootFirst(h: Heap, n: NodeId, i: nat, d: NodeId)
    requires WellFormed(h) && n in h && i < |h[n].children| && MetBelow(h, n, i, d)
    ensures DocBefore(h, n, d)
  {
    hide Met;
    ChildRoom(h, n, i);
    MetPath(h, h[n].children[i], d);
    var q, m := PathOf(h, d), |PathOf(h, n)|;
    assert q[..m] == q[..m + 1][..m] == PathOf(h, n);
  }

  lemma {:induction false} PreorderInOrder(h: Heap, n: NodeId)
    requires WellFormed(h) && n in h
    ensures InOrder(h, Preorder(h, n))
    decreases Room(h, n), 1, 0
  {
    hide Met, ChildrenLinked, ParentsLinked, LeavesBare, Acyclic, DocBefore;
    if h[n].kind.Element? {
      var m := |h[n].children|;
      PreorderUpToInOrder(h, n, m);
      var s := PreorderUpTo(h, n, m);
      forall x | x in s ensures DocBefore(h, n, x) {
        PreorderUpToMeets(h, n, m, x);
        var i :| 0 <= i < m && MetBelow(h, n, i, x);
        RootFirst(h, n, i, x);
      }
      assert forall j :: 0 < j < |Preorder(h, n)| ==> Preorder(h, n)[j] == s[j - 1];
    }
  }

  lemma {:induction false} PreorderUpToInOrder(h: Heap, n: NodeId, k: nat)
    requires WellFormed(h) && n in h && k <= |h[n].children|
    ensures InOrder(h, PreorderUpTo(h, n, k))
    decreases Room(h, n), 0, k
  {
    hide Met, ChildrenLinked, ParentsLinked, LeavesBare, Acyclic, DocBefore;
    if k > 0 {
      ChildRoom(h, n, k - 1);
      var c := h[n].children[k - 1];
      PreorderUpToInOrder(h, n, k - 1);
      PreorderInOrder(h, c);
      var s, t := PreorderUpTo(h, n, k - 1), Preorder(h, c);
      forall x, y | x in s && y in t ensures DocBefore(h, x, y) {
        PreorderUpToMeets(h, n, k - 1, x);
        PreorderMeets(h, c, y);
        assert MetBelow(h, n, k - 1, y);
        var i :| 0 <= i < k - 1 && MetBelow(h, n, i, x);
        ChildrenInOrder(h, n, i, k - 1, x, y);
      }
      InOrderConcat(h, s, t);
    }
  }

  lemma InOrderConcat(h: Heap, s: seq<NodeId>, t: seq<NodeId>)
    requires Acyclic(h) && InOrder(h, s) && InOrder(h, t)
    requires forall x, y :: x in s && y in t ==> DocBefore(h, x, y)
    ensures InOrder(h, s + t)
  {
    hide DocBefore;
    forall i, j | 0 <= i < j < |s + t| ensures DocBefore(h, (s + t)[i], (s + t)[j]) {
      if i < |s| <= j { assert s[i] in s && t[j - |s|] in t; }
    }
  }

  /** The walk meets no node twice. */
  lemma PreorderDistinct(h: Heap, n: NodeId)
    requires WellFormed(h) && n in h
    ensures Distinct(Preorder(h, n))
  {
    hide Met, ChildrenLinked, ParentsLinked, LeavesBare, Acyclic, DocBefore, Preorder;
    PreorderInOrder(h, n);
    var s := Preorder(h, n);
    forall i, j | 0 <= i < j < |s| ensures s[i] != s[j] { BeforeOther(h, s[i], s[j]); }
  }

  // ---------------------------------------------------------------------------------------
  // Filtering and removing repeats

  /** The nodes that the selector selects, in the order given. */
  ghost function Picked(h: Heap, judge: Judge, s: Selector, xs: seq<NodeId>): (r: seq<NodeId>)
    requires Acyclic(h) && forall x :: x in xs ==> x in h
    ensures forall x :: x in r <==> x in xs && Selects(h, judge, s, x)
  {
    if xs == [] then []
    else
      var m := |xs| - 1;
      assert xs == xs[..m] + [xs[m]];
      Picked(h, judge, s, xs[..m]) + if Selects(h, judge, s, xs[m]) then [xs[m]] else []
  }

  lemma PickedNone(h: Heap, judge: Judge, s: Selector)
    requires Acyclic(h)
    ensures Picked(h, judge, s, []) == []
  {}

  lemma PickedStep(h: Heap, judge: Judge, s: Selector, xs: seq<NodeId>, y: NodeId)
    requires Acyclic(h) && (forall x :: x in xs ==> x in h) && y in h
    ensures Picked(h, judge, s, xs + [y])
         == Picked(h, judge, s, xs) + if Selects(h, judge, s, y) then [y] else []
  {
    hide Selects, Acyclic;
    assert (xs + [y])[..|xs|] == xs;
  }

  lemma {:induction false} PickedConcat(h: Heap, judge: Judge, s: Selector, xs: seq<NodeId>, ys: seq<NodeId>)
    requires Acyclic(h) && (forall x :: x in xs ==> x in h) && (forall y :: y in ys ==> y in h)
    ensures forall z :: z in xs + ys ==> z in h
    ensures Picked(h, judge, s, xs + ys) == Picked(h, judge, s, xs) + Picked(h, judge, s, ys)
  {
    hide Selects, Acyclic, Picked;
    if ys == [] {
      assert xs + ys == xs;
      PickedNone(h, judge, s);
    } else {
      var m := |ys| - 1;
      var zs := xs + ys[..m];
      assert ys == ys[..m] + [ys[m]];
      assert xs + ys == zs + [ys[m]];
      PickedConcat(h, judge, s, xs, ys[..m]);
      PickedStep(h, judge, s, ys[..m], ys[m]);
      PickedStep(h, judge, s, zs, ys[m]);
    }
  }

  /** Keep the first of each. */
  function Dedup(xs: seq<NodeId>): (r: seq<NodeId>)
    ensures forall x :: x in r <==> x in xs
    ensures Distinct(r)
  {
    if xs == [] then []
    else
      var m := |xs| - 1;
      assert xs == xs[..m] + [xs[m]];
      var r := Dedup(xs[..m]);
      if xs[m] in r then r else r + [xs[m]]
  }

  /** `xs`, then what of `ys` is not there yet. */
  function Merge(xs: seq<NodeId>, ys: seq<NodeId>): seq<NodeId> {
    if ys == [] then xs
    else
      var m := |ys| - 1;
      var r := Merge(xs, ys[..m]);
      if ys[m] in r then r else r + [ys[m]]
  }

  lemma DedupStep(xs: seq<NodeId>, y: NodeId)
    ensures Dedup(xs + [y]) == if y in Dedup(xs) then Dedup(xs) else Dedup(xs) + [y]
  {
    hide Distinct;
    assert (xs + [y])[..|xs|] == xs;
  }

  lemma {:induction false} MergeHolds(xs: seq<NodeId>, ys: seq<NodeId>)
    ensures xs <= Merge(xs, ys) && forall x :: x in Merge(xs, ys) <==> x in xs || x in ys
    ensures Distinct(xs) ==> Distinct(Merge(xs, ys))
  {
    if ys != [] {
      var m := |ys| - 1;
      MergeHolds(xs, ys[..m]);
      assert ys == ys[..m] + [ys[m]];
    }
  }

  lemma MergeNone(xs: seq<NodeId>)
    ensures Merge(xs, []) == xs
  {}

  lemma MergeStep(xs: seq<NodeId>, ys: seq<NodeId>, y: NodeId)
    ensures Merge(xs, ys + [y]) == if y in Merge(xs, ys) then Merge(xs, ys) else Merge(xs, ys) + [y]
  {
    assert (ys + [y])[..|ys|] == ys;
  }

  lemma {:induction false} MergeDedup(xs: seq<NodeId>, ys: seq<NodeId>)
    ensures Merge(Dedup(xs), ys) == Dedup(xs + ys)
  {
    hide Merge, Dedup, Distinct;
    if ys == [] {
      assert xs + ys == xs;
      MergeNone(Dedup(xs));
    } else {
      var m := |ys| - 1;
      MergeDedup(xs, ys[..m]);
      MergeStep(Dedup(xs), ys[..m], ys[m]);
      DedupStep(xs + ys[..m], ys[m]);
      assert ys == ys[..m] + [ys[m]];
      assert xs + ys == xs + ys[..m] + [ys[m]];
    }
  }

  /** In the order of first appearance in `xs`. */
  ghost predicate FirstSeen(r: seq<NodeId>, xs: seq<NodeId>) {
    forall i, j :: 0 <= i < j < |r| ==> SeenBefore(xs, r[i], r[j])
  }

  ghost predicate SeenBefore(xs: seq<NodeId>, a: NodeId, b: NodeId) { 0 <= IndexOf(xs, a) < IndexOf(xs, b) }

  lemma {:induction false} DedupFirstSeen(xs: seq<NodeId>)
    ensures FirstSeen(Dedup(xs), xs)
  {
    if xs != [] {
      var m := |xs| - 1;
      DedupFirstSeen(xs[..m]);
      FirstSeenStep(xs[..m], xs[m]);
      assert xs == xs[..m] + [xs[m]];
    }
  }

  lemma FirstSeenStep(xs: seq<NodeId>, y: NodeId)
    requires FirstSeen(Dedup(xs), xs)
    ensures FirstSeen(Dedup(xs + [y]), xs + [y])
  {
    hide IndexOf, Dedup;
    DedupStep(xs, y);
    var r, r' := Dedup(xs), Dedup(xs + [y]);
    var zs := xs + [y];
    forall i, j | 0 <= i < j < |r'| ensures SeenBefore(zs, r'[i], r'[j]) {
      assert i < |r| && r'[i] == r[i] && r[i] in r;
      SameIndex(xs, y, r[i]);
      assert 0 <= IndexOf(xs, r[i]) < |xs|;
      if j < |r| {
        assert r'[j] == r[j] && r[j] in r;
        SameIndex(xs, y, r[j]);
        assert SeenBefore(xs, r[i], r[j]);
      } else {
        assert r'[j] == y && y !in r;
        SameIndex(xs, y, y);
      }
    }
  }

  lemma SameIndex(xs: seq<NodeId>, y: NodeId, x: NodeId)
    ensures x in xs ==> IndexOf(xs + [y], x) == IndexOf(xs, x)
    ensures x !in xs && x == y ==> IndexOf(xs + [y], x) == |xs|
  {
    hide IndexOf;
    if x in xs {
      var a := IndexOf(xs, x);
      assert (xs + [y])[..a] == xs[..a];
      FirstIndex(xs + [y], x, a);
    } else if x == y {
      assert (xs + [y])[..|xs|] == xs;
      FirstIndex(xs + [y], x, |xs|);
    }
  }

  // ---------------------------------------------------------------------------------------
  // The operations

  method NodeExists(nodes: seq<NodeId>, n: NodeId) returns (found: bool)
    ensures found <==> n in nodes
  {
    for i := 0 to |nodes|
      invariant n !in nodes[..i]
    {
      if nodes[i] == n { return true; }
    }
    return false;
  }

  /** Append the nodes that are not there yet. */
  method UnionNodes(nodes1: seq<NodeId>, nodes2: seq<NodeId>) returns (r: seq<NodeId>)
    ensures r == Merge(nodes1, nodes2)
    ensures nodes1 <= r && forall x :: x in r <==> x in nodes1 || x in nodes2
    ensures Distinct(nodes1) ==> Distinct(r)
  {
    MergeHolds(nodes1, nodes2);
    r := nodes1;
    for i := 0 to |nodes2|
      invariant r == Merge(nodes1, nodes2[..i])
    {
      assert nodes2[..i + 1][..i] == nodes2[..i];
      var there := NodeExists(r, nodes2[i]);
      if !there { r := r + [nodes2[i]]; }
    }
    assert nodes2[..|nodes2|] == nodes2;
  }

  lemma PreorderInHeap(h: Heap, n: NodeId)
    requires WellFormed(h) && n in h
    ensures forall x :: x in Preorder(h, n) ==> x in h
    ensures forall k, x :: 0 <= k <= |h[n].children| && x in PreorderUpTo(h, n, k) ==> x in h
  {
    hide Met;
    forall x | x in Preorder(h, n) ensures x in h { PreorderMeets(h, n, x); }
    forall k, x | 0 <= k <= |h[n].children| && x in PreorderUpTo(h, n, k) ensures x in h {
      PreorderUpToMeets(h, n, k, x);
    }
  }

  ghost function Hits(h: Heap, judge: Judge, s: Selector, n: NodeId): seq<NodeId>
    requires WellFormed(h) && n in h
  {
    PreorderInHeap(h, n);
    Picked(h, judge, s, Preorder(h, n))
  }

  lemma {:induction false} PickedInOrder(h: Heap, judge: Judge, s: Selector, xs: seq<NodeId>)
    requires Acyclic(h) && (forall x :: x in xs ==> x in h) && InOrder(h, xs)
    ensures InOrder(h, Picked(h, judge, s, xs))
  {
    hide Selects, DocBefore, Acyclic;
    if xs != [] {
      var m := |xs| - 1;
      PickedInOrder(h, judge, s, xs[..m]);
      var r := Picked(h, judge, s, xs[..m]);
      forall i | 0 <= i < |r| ensures DocBefore(h, r[i], xs[m]) {
        assert r[i] in r && r[i] in xs[..m];
        var k :| 0 <= k < m && xs[..m][k] == r[i];
      }
    }
  }

  /** The hits of one walk come in document order. */
  lemma HitsInOrder(h: Heap, judge: Judge, s: Selector, n: NodeId)
    requires WellFormed(h) && n in h
    ensures InOrder(h, Hits(h, judge, s, n))
  {
    hide Selects, DocBefore, ChildrenLinked, ParentsLinked, LeavesBare, Acyclic, Preorder;
    PreorderInHeap(h, n);
    PreorderInOrder(h, n);
    PickedInOrder(h, judge, s, Preorder(h, n));
  }

  /** The hits below the first `k` children of an element. */
  ghost function HitsUpTo(h: Heap, judge: Judge, s: Selector, n: NodeId, k: nat): seq<NodeId>
    requires WellFormed(h) && n in h && k <= |h[n].children|
  {
    PreorderInHeap(h, n);
    Picked(h, judge, s, [n] + PreorderUpTo(h, n, k))
  }

  lemma HitsStep(h: Heap, judge: Judge, s: Selector, n: NodeId, k: nat)
    requires WellFormed(h) && n in h && k < |h[n].children|
    ensures h[n].children[k] in h
    ensures HitsUpTo(h, judge, s, n, k + 1) == HitsUpTo(h, judge, s, n, k) + Hits(h, judge, s, h[n].children[k])
  {
    hide Selects, Preorder, Picked, ChildrenLinked, ParentsLinked, LeavesBare, Acyclic;
    ChildRoom(h, n, k);
    PreorderInHeap(h, n);
    PreorderInHeap(h, h[n].children[k]);
    var a, b := [n] + PreorderUpTo(h, n, k), Preorder(h, h[n].children[k]);
    assert [n] + PreorderUpTo(h, n, k + 1) == a + b;
    PickedConcat(h, judge, s, a, b);
  }

  lemma PickedOne(h: Heap, judge: Judge, s: Selector, n: NodeId)
    requires Acyclic(h) && n in h
    ensures Picked(h, judge, s, [n]) == if Selects(h, judge, s, n) then [n] else []
  {
    hide Selects, Acyclic;
    assert [n][..0] == [] && [n][0] == n;
  }

  lemma HitsWhole(h: Heap, judge: Judge, s: Selector, n: NodeId)
    requires WellFormed(h) && n in h
    ensures HitsUpTo(h, judge, s, n, 0) == if Selects(h, judge, s, n) then [n] else []
    ensures Hits(h, judge, s, n)
         == HitsUpTo(h, judge, s, n, if h[n].kind.Element? then |h[n].children| else 0)
  {
    hide Selects, ChildrenLinked, ParentsLinked, LeavesBare, Acyclic;
    PickedOne(h, judge, s, n);
    assert [n] + PreorderUpTo(h, n, 0) == [n];
    assert !h[n].kind.Element? ==> Preorder(h, n) == [n];
  }

  class NodeVector {
    var nodes: seq<NodeId>

    constructor ()
      ensures nodes == []
    {
      nodes := [];
    }

    /** Append what the selector picks in the walk from `n`. */
    method MatchAllInto(h: Heap, judge: Judge, s: Selector, n: NodeId)
      requires WellFormed(h) && n in h
      modifies this
      ensures nodes == old(nodes) + Hits(h, judge, s, n)
      decreases Room(h, n)
    {
      hide Selects, ChildrenLinked, ParentsLinked, LeavesBare, Acyclic, Hits, HitsUpTo;
      HitsWhole(h, judge, s, n);
      var matched := Match(h, judge, s, n);
      if matched { nodes := nodes + [n]; }
      if !h[n].kind.Element? { return; }
      var i := 0;
      while i < |h[n].children|
        invariant 0 <= i <= |h[n].children|
        invariant nodes == old(nodes) + HitsUpTo(h, judge, s, n, i)
      {
        ChildRoom(h, n, i);
        HitsStep(h, judge, s, n, i);
        MatchAllInto(h, judge, s, h[n].children[i]);
        i := i + 1;
      }
    }
  }

  method MatchAll(h: Heap, judge: Judge, s: Selector, n: NodeId) returns (ret: seq<NodeId>)
    requires WellFormed(h) && n in h
    ensures ret == Hits(h, judge, s, n)
  {
    var v := new NodeVector();
    v.MatchAllInto(h, judge, s, n);
    ret := v.nodes;
  }

  /** The hits of all starting nodes, one walk after the other. */
  ghost function AllHits(h: Heap, judge: Judge, s: Selector, starts: seq<NodeId>): (r: seq<NodeId>)
    requires WellFormed(h) && forall n :: n in starts ==> n in h
  {
    if starts == [] then []
    else
      var m := |starts| - 1;
      AllHits(h, judge, s, starts[..m]) + Hits(h, judge, s, starts[m])
  }

  lemma {:induction false} AllHitsAre(h: Heap, judge: Judge, s: Selector, starts: seq<NodeId>, d: NodeId)
    requires WellFormed(h) && forall n :: n in starts ==> n in h
    ensures d in AllHits(h, judge, s, starts)
       <==> exists n :: n in starts && Met(h, n, d) && Selects(h, judge, s, d)
  {
    hide Selects, Met, ChildrenLinked, ParentsLinked, LeavesBare, Acyclic, Preorder;
    if starts != [] {
      var m := |starts| - 1;
      AllHitsAre(h, judge, s, starts[..m], d);
      PreorderMeets(h, starts[m], d);
      PreorderInHeap(h, starts[m]);
      assert starts == starts[..m] + [starts[m]];
    }
  }

  class Selection {
    var nodes: seq<NodeId>

    constructor (nodes: seq<NodeId>)
      ensures this.nodes == nodes
    {
      this.nodes := nodes;
    }

    /** `CSelection::find`: the parser's error, or no repeats; exactly the selected nodes that are met
        through elements from a starting node; in the order in which the walks first see them. */
    method Find(h: Heap, judge: Judge, cx: Context, text: string) returns (found: Found)
      requires WellFormed(h) && forall n :: n in nodes ==> n in h
      ensures found.Thrown? <==> Group(cx, text, 0).Error?
      ensures found.Selected? ==> fresh(found.value)
      ensures found.Selected? ==> Distinct(found.value.nodes)
      ensures found.Selected? ==> forall d :: d in found.value.nodes <==>
                (exists n :: n in nodes && Met(h, n, d) && Selects(h, judge, Group(cx, text, 0).value, d))
      ensures found.Selected? ==>
        FirstSeen(found.value.nodes, AllHits(h, judge, Group(cx, text, 0).value, nodes))
    {
      hide Selects, Met, ChildrenLinked, ParentsLinked, LeavesBare, Acyclic, Hits, Group;
      var created := Create(cx, text);
      if created.None? { return Thrown; }
      var sel := created.value;
      var ret: seq<NodeId> := [];
      for i := 0 to |nodes|
        invariant ret == Dedup(AllHits(h, judge, sel, nodes[..i]))
      {
        var matched := MatchAll(h, judge, sel, nodes[i]);
        assert nodes[..i + 1][..i] == nodes[..i];
        MergeDedup(AllHits(h, judge, sel, nodes[..i]), matched);
        ret := UnionNodes(ret, matched);
      }
      assert nodes[..|nodes|] == nodes;
      forall d ensures d in ret <==> exists n :: n in nodes && Met(h, n, d) && Selects(h, judge, sel, d) {
        AllHitsAre(h, judge, sel, nodes, d);
      }
      DedupFirstSeen(AllHits(h, judge, sel, nodes));
      var s := new Selection(ret);
      return Selected(s);
    }
  }

  /** A selection, or the parser's error. */
  datatype Found = Thrown | Selected(value: Selection)
}
