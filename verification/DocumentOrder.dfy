/** The character data of a tree in document order, and how the link-changing steps move it. */
module DocumentOrder {
  import opened Options
  import opened Dom
  import opened DomOps

  /** How far `n` is from the longest path the heap could hold: recursion below `n` ends. */
  ghost function Room(h: Heap, n: NodeId): nat
    requires Acyclic(h) && n in h
  {
    PathBound(h, n);
    |h| - |PathOf(h, n)|
  }

  lemma ChildRoom(h: Heap, n: NodeId, i: nat)
    requires WellFormed(h) && n in h && i < |h[n].children|
    ensures h[n].children[i] in h && h[h[n].children[i]].parent == Some(n)
    ensures PathOf(h, h[n].children[i]) == PathOf(h, n) + [h[n].children[i]]
    ensures Room(h, h[n].children[i]) < Room(h, n)
  {
    ChildPath(h, n, h[n].children[i]);
  }

  /** The text, whitespace, CDATA and comment nodes of the tree at `n`, in document order. */
  ghost function Leaves(h: Heap, n: NodeId): seq<NodeId>
    requires WellFormed(h) && n in h
    decreases Room(h, n), 1, 0
  {
    if h[n].kind.HasChildren() then LeavesUpTo(h, n, |h[n].children|) else [n]
  }

  /** The leaves of the first `k` children of `n`. */
  ghost function LeavesUpTo(h: Heap, n: NodeId, k: nat): seq<NodeId>
    requires WellFormed(h) && n in h && k <= |h[n].children|
    decreases Room(h, n), 0, k
  {
    if k == 0 then []
    else
      ChildRoom(h, n, k - 1);
      LeavesUpTo(h, n, k - 1) + Leaves(h, h[n].children[k - 1])
  }

  ghost predicate SameAt(h: Heap, h': Heap, y: NodeId) {
    y in h && y in h' && h'[y].children == h[y].children && h'[y].kind == h[y].kind
  }

  /** Below `x`, the heaps differ at most inside the subtree of `t`. */
  ghost predicate SameBelow(h: Heap, h': Heap, x: NodeId, t: NodeId)
    requires Acyclic(h)
  {
    forall y {:trigger SameAt(h, h', y)} :: y in h && Under(h, y, x) && !Under(h, y, t) ==> SameAt(h, h', y)
  }

  lemma SameBelowChild(h: Heap, h': Heap, x: NodeId, t: NodeId, i: nat)
    requires WellFormed(h) && x in h && SameBelow(h, h', x, t) && i < |h[x].children|
    ensures h[x].children[i] in h && SameBelow(h, h', h[x].children[i], t)
  {
    var c := h[x].children[i];
    ChildRoom(h, x, i);
    forall y | y in h && Under(h, y, c) && !Under(h, y, t) ensures SameAt(h, h', y) {
      UnderTrans(h, y, c, x);
    }
  }

  lemma UnderTrans(h: Heap, y: NodeId, c: NodeId, x: NodeId)
    requires Acyclic(h) && y in h && c in h && Under(h, y, c) && Under(h, c, x)
    ensures Under(h, y, x)
  {
    var p := PathOf(h, y);
    var k := Position(p, c);
    PathPrefix(h, y, k);
    assert x in p[..k + 1];
  }

  /** Changing the tree only inside `t`, and not the leaves of `t`, changes no leaves around it. */
  lemma {:induction false} LeavesAround(h: Heap, h': Heap, x: NodeId, t: NodeId)
    requires WellFormed(h) && WellFormed(h') && x in h && SameBelow(h, h', x, t)
    requires t in h && Under(h, t, x) ==> t in h' && Leaves(h', t) == Leaves(h, t)
    requires Under(h, x, t) ==> x == t
    ensures x in h' && Leaves(h', x) == Leaves(h, x)
    decreases Room(h, x), 1, 0
  {
    if x == t {
      assert PathOf(h, x)[|PathOf(h, x)| - 1] == x;
    } else {
      assert PathOf(h, x)[|PathOf(h, x)| - 1] == x;
      assert SameAt(h, h', x);
      if h[x].kind.HasChildren() { LeavesAroundUpTo(h, h', x, t, |h[x].children|); }
    }
  }

  lemma {:induction false} LeavesAroundUpTo(h: Heap, h': Heap, x: NodeId, t: NodeId, k: nat)
    requires WellFormed(h) && WellFormed(h') && x in h && SameBelow(h, h', x, t) && SameAt(h, h', x)
    requires t in h && Under(h, t, x) ==> t in h' && Leaves(h', t) == Leaves(h, t)
    requires !Under(h, x, t) && k <= |h[x].children|
    ensures LeavesUpTo(h', x, k) == LeavesUpTo(h, x, k)
    decreases Room(h, x), 0, k
  {
    hide ChildrenLinked, ParentsLinked, LeavesBare, Acyclic, Leaves, SameBelow;
    if k > 0 {
      LeavesAroundUpTo(h, h', x, t, k - 1);
      var c := h[x].children[k - 1];
      ChildRoom(h, x, k - 1);
      SameBelowChild(h, h', x, t, k - 1);
      if t in h && Under(h, t, c) { UnderTrans(h, t, c, x); }
      LeavesAround(h, h', c, t);
    }
  }

  lemma {:induction false} FreshId(s: set<NodeId>) returns (t: NodeId)
    ensures forall x :: x in s ==> x < t
  {
    t := 0;
    if s != {} {
      var x :| x in s;
      t := FreshId(s - {x});
      assert s == (s - {x}) + {x};
      t := if t <= x then x + 1 else t;
    }
  }

  /** A subtree whose nodes all keep their kind and children keeps its leaves. */
  lemma LeavesSame(h: Heap, h': Heap, x: NodeId)
    requires WellFormed(h) && WellFormed(h') && x in h
    requires forall y {:trigger SameAt(h, h', y)} :: y in h && Under(h, y, x) ==> SameAt(h, h', y)
    ensures x in h' && Leaves(h', x) == Leaves(h, x)
  {
    var t := FreshId(h.Keys);
    assert t !in h;
    LeavesAround(h, h', x, t);
  }

  lemma {:induction false} LeavesUpToSame(h: Heap, n: NodeId, h': Heap, n': NodeId, k: nat)
    requires WellFormed(h) && n in h && k <= |h[n].children|
    requires WellFormed(h') && n' in h' && k <= |h'[n'].children|
    requires forall i :: 0 <= i < k ==> h'[n'].children[i] == h[n].children[i]
    requires forall i :: 0 <= i < k ==>
      h[n].children[i] in h && h[n].children[i] in h' && Leaves(h', h[n].children[i]) == Leaves(h, h[n].children[i])
    ensures LeavesUpTo(h', n', k) == LeavesUpTo(h, n, k)
  {
    if k > 0 { LeavesUpToSame(h, n, h', n', k - 1); }
  }

  lemma SiblingsApart(h: Heap, n: NodeId, i: nat, j: nat, y: NodeId)
    requires WellFormed(h) && n in h && i < |h[n].children| && j < |h[n].children| && i != j
    requires y in h && Under(h, y, h[n].children[i])
    ensures !Under(h, y, h[n].children[j])
  {
    var a, b := h[n].children[i], h[n].children[j];
    KidsDiffer(h, n, i, j);
    hide ChildrenLinked, ParentsLinked, LeavesBare, Acyclic, RootPath;
    ChildRoom(h, n, i);
    ChildRoom(h, n, j);
    var p := PathOf(h, y);
    PathPrefix(h, y, Position(p, a));
    if b in p { PathPrefix(h, y, Position(p, b)); }
  }

  lemma KidsDiffer(h: Heap, n: NodeId, i: nat, j: nat)
    requires WellFormed(h) && n in h && i < |h[n].children| && j < |h[n].children| && i != j
    ensures h[n].children[i] != h[n].children[j]
  {
    assert h[h[n].children[i]].index == i && h[h[n].children[j]].index == j;
  }

  /** Appending a tree appends its leaves. */
  lemma LeavesAttach(h: Heap, w: NodeId, v: NodeId)
    requires Attachable(h, w, v)
    ensures v != w && WellFormed(Attach(h, w, v))
    ensures Leaves(Attach(h, w, v), w) == Leaves(h, w) + Leaves(h, v)
  {
    var h', k := Attach(h, w, v), |h[w].children|;
    AttachWellFormed(h, w, v);
    forall i | 0 <= i < k
      ensures h[w].children[i] in h && h[w].children[i] in h'
      ensures Leaves(h', h[w].children[i]) == Leaves(h, h[w].children[i])
    {
      var c := h[w].children[i];
      ChildRoom(h, w, i);
      forall y | y in h && Under(h, y, c) ensures SameAt(h, h', y) { NotBelowOwnChild(h, w, i, y); }
      LeavesSame(h, h', c);
    }
    LeavesUpToSame(h, w, h', w, k);
    forall y | y in h && Under(h, y, v) ensures SameAt(h, h', y) { }
    LeavesSame(h, h', v);
  }

  lemma NotBelowOwnChild(h: Heap, w: NodeId, i: nat, y: NodeId)
    requires WellFormed(h) && w in h && i < |h[w].children| && y in h && Under(h, y, h[w].children[i])
    ensures y != w
  {
    var c := h[w].children[i];
    ChildRoom(h, w, i);
    PathPrefix(h, y, Position(PathOf(h, y), c));
  }

  // ---------------------------------------------------------------------------------------
  // Detaching and interposing

  lemma DetachSame(h: Heap, v: NodeId, y: NodeId)
    requires WellFormed(h) && v in h && y in h && h[v].parent != Some(y)
    ensures SameAt(h, Detach(h, v), y)
  {
  }

  lemma LeavesAll(h: Heap, u: NodeId)
    requires WellFormed(h) && u in h && h[u].kind.HasChildren()
    ensures Leaves(h, u) == LeavesUpTo(h, u, |h[u].children|)
  {}

  /** Detaching changes no leaves inside the detached tree. */
  lemma LeavesDetached(h: Heap, v: NodeId)
    requires WellFormed(h) && v in h
    ensures WellFormed(Detach(h, v)) && Leaves(Detach(h, v), v) == Leaves(h, v)
  {
    DetachWellFormed(h, v);
    forall y | y in h && Under(h, y, v) ensures SameAt(h, Detach(h, v), y) {
      if h[v].parent == Some(y) {
        ChildPath(h, y, v);
        PathPrefix(h, y, Position(PathOf(h, y), v));
      }
      DetachSame(h, v, y);
    }
    LeavesSame(h, Detach(h, v), v);
  }

  /** Interposing moves no leaf. */
  lemma LeavesInterpose(h: Heap, b: NodeId, f: NodeId)
    requires Interposable(h, b, f)
    ensures WellFormed(Interpose(h, b, f)) && Leaves(Interpose(h, b, f), b) == Leaves(h, b)
  {
    var h', n := Interpose(h, b, f), |h[b].children|;
    InterposeWellFormed(h, b, f);
    forall i | 0 <= i < n
      ensures h[b].children[i] in h && h[b].children[i] in h'
      ensures Leaves(h', h[b].children[i]) == Leaves(h, h[b].children[i])
    {
      var c := h[b].children[i];
      ChildRoom(h, b, i);
      forall y | y in h && Under(h, y, c) ensures SameAt(h, h', y) {
        NotBelowOwnChild(h, b, i, y);
        RootPathOf(h, f);
      }
      LeavesSame(h, h', c);
    }
    LeavesUpToSame(h, b, h', f, n);
    assert h'[b].children == [f];
    assert Leaves(h', b) == LeavesUpTo(h', b, 1);
    assert LeavesUpTo(h', b, 0) == [];
  }
}
