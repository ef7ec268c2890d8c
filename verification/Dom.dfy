/** The DOM that the tree builder mutates: a heap of nodes linked by parent pointers,
    child vectors and the position each node records within its parent.

    A node pointer is a `NodeId`; the C heap is a map from identifiers to node records, so
    two pointers to one node are one identifier and a field assignment is a map update. */
module Dom {
  import opened Options

  type NodeId = nat

  datatype Namespace = Html | Svg | MathMl

  datatype QName = QName(ns: Namespace, tag: nat)

  datatype Attribute = Attribute(name: string, value: string)

  datatype Kind =
    | Document
    | Element(name: QName, attributes: seq<Attribute>)
    | Template(name: QName, attributes: seq<Attribute>)
    | Text(text: string)
    | Whitespace(text: string)
    | Cdata(text: string)
    | Comment(text: string)
  {
    /** The node types whose union member holds a child vector. */
    predicate HasChildren() { Document? || Element? || Template? }

    predicate IsTag() { Element? || Template? }
  }

  datatype Node = Node(kind: Kind, parent: Option<NodeId>, index: int, children: seq<NodeId>)

  type Heap = map<NodeId, Node>

  // ---------------------------------------------------------------------------------------
  // Well-formedness

  /** Every child knows its parent and its position. */
  ghost predicate ChildrenLinked(h: Heap) {
    forall n, i {:trigger h[n].children[i]} :: n in h && 0 <= i < |h[n].children| ==>
      var c := h[n].children[i]; c in h && h[c].parent == Some(n) && h[c].index == i
  }

  /** Every node with a parent sits in that parent's child vector at its recorded position. */
  ghost predicate ParentsLinked(h: Heap) {
    forall n {:trigger h[n].parent} :: n in h ==>
      match h[n].parent
      case None => h[n].index == -1
      case Some(p) => p in h && 0 <= h[n].index < |h[p].children| && h[p].children[h[n].index] == n
  }

  ghost predicate LeavesBare(h: Heap) {
    forall n :: n in h && !h[n].kind.HasChildren() ==> h[n].children == []
  }

  /** `p` walks parent pointers downwards from a parentless node to its last element. */
  ghost predicate RootPath(h: Heap, p: seq<NodeId>) {
    && |p| > 0
    && (forall i :: 0 <= i < |p| ==> p[i] in h)
    && h[p[0]].parent == None
    && (forall i {:trigger h[p[i]]} :: 0 < i < |p| ==> h[p[i]].parent == Some(p[i - 1]))
  }

  ghost predicate PathTo(h: Heap, n: NodeId, p: seq<NodeId>) {
    RootPath(h, p) && p[|p| - 1] == n
  }

  ghost predicate Rooted(h: Heap, n: NodeId) {
    exists p :: PathTo(h, n, p)
  }

  /** No cycles: following parents from any node reaches a parentless one. */
  ghost predicate Acyclic(h: Heap) {
    forall n {:trigger Rooted(h, n)} :: n in h ==> Rooted(h, n)
  }

  ghost predicate WellFormed(h: Heap) {
    ChildrenLinked(h) && ParentsLinked(h) && LeavesBare(h) && Acyclic(h)
  }

  /** The ancestors of `n`, outermost first, ending in `n` itself. */
  ghost function PathOf(h: Heap, n: NodeId): (p: seq<NodeId>)
    requires Acyclic(h) && n in h
    ensures PathTo(h, n, p)
  {
    assert Rooted(h, n);
    var p :| PathTo(h, n, p); p
  }

  /** `x` is `v` or a descendant of `v`. */
  ghost predicate Under(h: Heap, x: NodeId, v: NodeId)
    requires Acyclic(h) && x in h
  {
    v in PathOf(h, x)
  }

  /** The topmost ancestor of `n`. */
  ghost function RootOf(h: Heap, n: NodeId): (r: NodeId)
    requires Acyclic(h) && n in h
  {
    PathOf(h, n)[0]
  }

  // ---------------------------------------------------------------------------------------
  // Paths

  lemma {:induction false} PathUnique(h: Heap, n: NodeId, p: seq<NodeId>, q: seq<NodeId>)
    requires PathTo(h, n, p) && PathTo(h, n, q)
    ensures p == q
    decreases |p|
  {
    assert h[p[|p| - 1]] == h[q[|q| - 1]];
    if |p| > 1 && |q| > 1 {
      var p', q' := p[..|p| - 1], q[..|q| - 1];
      PathUnique(h, p[|p| - 2], p', q');
      assert p == p' + [n] && q == q' + [n];
    }
  }

  lemma PathIs(h: Heap, n: NodeId, p: seq<NodeId>)
    requires Acyclic(h) && PathTo(h, n, p)
    ensures n in h && PathOf(h, n) == p
  {
    PathUnique(h, n, p, PathOf(h, n));
  }

  /** A prefix of the path to `n` is the path to the ancestor it ends in. */
  lemma PathPrefix(h: Heap, n: NodeId, k: nat)
    requires Acyclic(h) && n in h && k < |PathOf(h, n)|
    ensures PathOf(h, n)[k] in h
    ensures PathOf(h, PathOf(h, n)[k]) == PathOf(h, n)[..k + 1]
  {
    var p := PathOf(h, n);
    assert PathTo(h, p[k], p[..k + 1]);
    PathIs(h, p[k], p[..k + 1]);
  }

  lemma PathDistinct(h: Heap, n: NodeId, i: nat, j: nat)
    requires Acyclic(h) && n in h && i < j < |PathOf(h, n)|
    ensures PathOf(h, n)[i] != PathOf(h, n)[j]
  {
    PathPrefix(h, n, i);
    PathPrefix(h, n, j);
  }

  /** A path never repeats a node, so it is no longer than the heap is large. */
  lemma PathBound(h: Heap, n: NodeId)
    requires Acyclic(h) && n in h
    ensures |PathOf(h, n)| <= |h|
  {
    var p := PathOf(h, n);
    forall i, j | 0 <= i < j < |p| ensures p[i] != p[j] {
      PathDistinct(h, n, i, j);
    }
    DistinctInside(p, h.Keys);
    assert |h.Keys| == |h|;
  }

  lemma {:induction false} DistinctInside(p: seq<NodeId>, s: set<NodeId>)
    requires forall i, j :: 0 <= i < j < |p| ==> p[i] != p[j]
    requires forall i :: 0 <= i < |p| ==> p[i] in s
    ensures |p| <= |s|
  {
    if p != [] {
      var rest := p[1..];
      assert forall i :: 0 <= i < |rest| ==> rest[i] == p[i + 1];
      DistinctInside(rest, s - {p[0]});
    }
  }

  lemma ChildPath(h: Heap, n: NodeId, c: NodeId)
    requires Acyclic(h) && c in h && n in h && h[c].parent == Some(n)
    ensures PathOf(h, c) == PathOf(h, n) + [c]
  {
    assert PathTo(h, c, PathOf(h, n) + [c]);
    PathIs(h, c, PathOf(h, n) + [c]);
  }

  lemma RootPathOf(h: Heap, n: NodeId)
    requires Acyclic(h) && n in h && h[n].parent == None
    ensures PathOf(h, n) == [n]
  {
    assert PathTo(h, n, [n]);
    PathIs(h, n, [n]);
  }

  /** Where an ancestor sits on a path. */
  ghost function Position(p: seq<NodeId>, v: NodeId): (k: nat)
    requires v in p
    ensures k < |p| && p[k] == v
  {
    var k :| 0 <= k < |p| && p[k] == v; k
  }
}
