/** The leaves before and after a subtree, and what moving the subtree does to their order. */
module LeafOrder {
  import opened Options
  import opened Sequences
  import opened Dom
  import opened DomOps
  import opened DocumentOrder

  /** The leaves of the children of `n` from position `k` on. */
  ghost function LeavesFrom(h: Heap, n: NodeId, k: nat): seq<NodeId>
    requires WellFormed(h) && n in h && k <= |h[n].children|
    decreases |h[n].children| - k
  {
    if k == |h[n].children| then []
    else
      ChildRoom(h, n, k);
      Leaves(h, h[n].children[k]) + LeavesFrom(h, n, k + 1)
  }

  lemma ParentUnder(h: Heap, u: NodeId, v: NodeId)
    requires WellFormed(h) && u in h && v in h && Under(h, v, u) && v != u
    ensures h[v].parent.Some? && h[v].parent.value in h && Under(h, h[v].parent.value, u)
    ensures var p := h[v].parent.value;
            && PathOf(h, v) == PathOf(h, p) + [v] && h[p].kind.HasChildren()
            && 0 <= h[v].index < |h[p].children| && h[p].children[h[v].index] == v
  {
    if h[v].parent.Some? { ChildPath(h, h[v].parent.value, v); } else { RootPathOf(h, v); }
  }

  /** The leaves of `u` that come before the subtree of `v`, in document order. */
  ghost function LeavesBefore(h: Heap, u: NodeId, v: NodeId): seq<NodeId>
    requires WellFormed(h) && u in h && v in h && Under(h, v, u)
    decreases |PathOf(h, v)|
  {
    if v == u then []
    else
      ParentUnder(h, u, v);
      var p := h[v].parent.value;
      LeavesBefore(h, u, p) + LeavesUpTo(h, p, h[v].index)
  }

  /** The leaves of `u` that come after the subtree of `v`. */
  ghost function LeavesAfter(h: Heap, u: NodeId, v: NodeId): seq<NodeId>
    requires WellFormed(h) && u in h && v in h && Under(h, v, u)
    decreases |PathOf(h, v)|
  {
    if v == u then []
    else
      ParentUnder(h, u, v);
      var p := h[v].parent.value;
      LeavesFrom(h, p, h[v].index + 1) + LeavesAfter(h, u, p)
  }

  lemma {:induction false} UpToAndFrom(h: Heap, n: NodeId, k: nat)
    requires WellFormed(h) && n in h && k <= |h[n].children|
    ensures LeavesUpTo(h, n, |h[n].children|) == LeavesUpTo(h, n, k) + LeavesFrom(h, n, k)
    decreases |h[n].children| - k
  {
    hide ChildrenLinked, ParentsLinked, LeavesBare, Acyclic, Leaves;
    if k < |h[n].children| {
      ChildRoom(h, n, k);
      UpToAndFrom(h, n, k + 1);
      assert LeavesUpTo(h, n, k + 1) == LeavesUpTo(h, n, k) + Leaves(h, h[n].children[k]);
    }
  }

  lemma {:induction false} LeavesFromSame(h: Heap, n: NodeId, k: nat, h': Heap, n': NodeId, k': nat)
    requires WellFormed(h) && n in h && k <= |h[n].children|
    requires WellFormed(h') && n' in h' && k' <= |h'[n'].children|
    requires h'[n'].children[k'..] == h[n].children[k..]
    requires forall i :: k <= i < |h[n].children| ==>
      h[n].children[i] in h && h[n].children[i] in h' && Leaves(h', h[n].children[i]) == Leaves(h, h[n].children[i])
    ensures LeavesFrom(h', n', k') == LeavesFrom(h, n, k)
    decreases |h[n].children| - k
  {
    hide ChildrenLinked, ParentsLinked, LeavesBare, Acyclic, Leaves;
    var s, s' := h[n].children, h'[n'].children;
    assert |s'[k'..]| == |s[k..]|;
    if k < |s| {
      assert s'[k'..][0] == s[k..][0];
      assert s'[k' + 1..] == s'[k'..][1..] && s[k + 1..] == s[k..][1..];
      ChildRoom(h, n, k);
      ChildRoom(h', n', k');
      LeavesFromSame(h, n, k + 1, h', n', k' + 1);
    }
  }

  /** A child that does not hold `t` keeps its leaves when the heap changes only inside `t`. */
  lemma SiblingKept(h: Heap, h': Heap, p: NodeId, t: NodeId, i: nat)
    requires WellFormed(h) && WellFormed(h') && p in h && t in h && h[t].parent == Some(p) && SameBelow(h, h', p, t)
    requires i < |h[p].children| && i != h[t].index
    ensures h[p].children[i] in h && h[p].children[i] in h'
    ensures Leaves(h', h[p].children[i]) == Leaves(h, h[p].children[i])
  {
    var c, j := h[p].children[i], h[t].index;
    ChildRoom(h, p, i);
    assert h[p].children[j] == t;
    SelfIn(h, c);
    SiblingsApart(h, p, i, j, c);
    SelfIn(h, t);
    SiblingsApart(h, p, j, i, t);
    hide ChildrenLinked, ParentsLinked, LeavesBare, Acyclic, Leaves;
    SameBelowChild(h, h', p, t, i);
    LeavesAround(h, h', c, t);
  }

  lemma SelfIn(h: Heap, x: NodeId)
    requires Acyclic(h) && x in h
    ensures Under(h, x, x)
  {
    var p := PathOf(h, x);
    assert p[|p| - 1] == x;
  }

  /** Around a changed subtree, its parent's leaves are the old ones with the new ones inside. */
  lemma ParentSplit(h: Heap, h': Heap, p: NodeId, t: NodeId)
    requires WellFormed(h) && WellFormed(h') && p in h && t in h && h[t].parent == Some(p) && SameBelow(h, h', p, t)
    requires t in h'
    ensures p in h' && 0 <= h[t].index < |h[p].children|
    ensures Leaves(h', p) == LeavesUpTo(h, p, h[t].index) + Leaves(h', t) + LeavesFrom(h, p, h[t].index + 1)
  {
    hide ChildrenLinked, ParentsLinked, LeavesBare, Acyclic, Leaves, SameBelow, Under;
    KidAt(h, p, t);
    var j, n := h[t].index, |h[p].children|;
    SameParent(h, h', p, t);
    forall i | 0 <= i < n && i != j
      ensures h[p].children[i] in h && h[p].children[i] in h'
      ensures Leaves(h', h[p].children[i]) == Leaves(h, h[p].children[i])
    {
      SiblingKept(h, h', p, t, i);
    }
    LeavesUpToSame(h, p, h', p, j);
    LeavesFromSame(h, p, j + 1, h', p, j + 1);
    HasKids(h, p, j);
    LeavesAll(h', p);
    UpToAndFrom(h', p, j);
    FromStep(h', p, j);
  }

  lemma KidAt(h: Heap, p: NodeId, t: NodeId)
    requires WellFormed(h) && p in h && t in h && h[t].parent == Some(p)
    ensures 0 <= h[t].index < |h[p].children| && h[p].children[h[t].index] == t
  {}

  lemma SameParent(h: Heap, h': Heap, p: NodeId, t: NodeId)
    requires Acyclic(h) && p in h && t in h && h[t].parent == Some(p) && SameBelow(h, h', p, t)
    ensures SameAt(h, h', p)
  {
    hide Acyclic;
    SelfIn(h, p);
    AncestorNotBelow(h, p, t);
  }

  lemma HasKids(h: Heap, p: NodeId, j: nat)
    requires WellFormed(h) && p in h && j < |h[p].children|
    ensures h[p].kind.HasChildren()
  {}

  lemma FromStep(h: Heap, p: NodeId, j: nat)
    requires WellFormed(h) && p in h && j < |h[p].children|
    ensures h[p].children[j] in h
    ensures LeavesFrom(h, p, j) == Leaves(h, h[p].children[j]) + LeavesFrom(h, p, j + 1)
  {
    ChildRoom(h, p, j);
  }

  lemma AncestorNotBelow(h: Heap, p: NodeId, t: NodeId)
    requires Acyclic(h) && p in h && t in h && h[t].parent == Some(p)
    ensures !Under(h, p, t)
  {
    ChildPath(h, p, t);
    if t in PathOf(h, p) { PathPrefix(h, p, Position(PathOf(h, p), t)); }
  }

  /** Where the heaps differ only inside `t`, the leaves of `x` are the old ones before and after `t`
      with the new leaves of `t` between. */
  lemma {:induction false} LeavesSplit(h: Heap, h': Heap, x: NodeId, t: NodeId)
    requires WellFormed(h) && WellFormed(h') && x in h && t in h && Under(h, t, x) && SameBelow(h, h', x, t)
    requires t in h'
    ensures x in h' && Leaves(h', x) == LeavesBefore(h, x, t) + Leaves(h', t) + LeavesAfter(h, x, t)
    decreases |PathOf(h, t)|
  {
    hide ChildrenLinked, ParentsLinked, LeavesBare, Acyclic, Leaves;
    if t != x {
      ParentUnder(h, x, t);
      var p := h[t].parent.value;
      SameBelowParent(h, h', x, p, t);
      ParentSplit(h, h', p, t);
      LeavesSplit(h, h', x, p);
      var b, a := LeavesBefore(h, x, p), LeavesAfter(h, x, p);
      var u, f := LeavesUpTo(h, p, h[t].index), LeavesFrom(h, p, h[t].index + 1);
      Regroup(b, u, Leaves(h', t), f, a);
    }
  }

  lemma Regroup(b: seq<NodeId>, u: seq<NodeId>, t: seq<NodeId>, f: seq<NodeId>, a: seq<NodeId>)
    ensures b + (u + t + f) + a == (b + u) + t + (f + a)
  {}

  lemma SameBelowParent(h: Heap, h': Heap, x: NodeId, p: NodeId, t: NodeId)
    requires Acyclic(h) && x in h && p in h && t in h && Under(h, p, x) && h[t].parent == Some(p)
    requires SameBelow(h, h', x, t)
    ensures SameBelow(h, h', p, t) && SameBelow(h, h', x, p)
  {
    hide Acyclic;
    ChildPath(h, p, t);
    SelfIn(h, p);
    assert Under(h, t, p);
    forall y | y in h && Under(h, y, p) && !Under(h, y, t) ensures SameAt(h, h', y) { UnderTrans(h, y, p, x); }
    forall y | y in h && Under(h, y, x) && !Under(h, y, p) ensures SameAt(h, h', y) {
      if Under(h, y, t) { UnderTrans(h, y, t, p); }
    }
  }

  /** A heap is the same as itself everywhere. */
  lemma LeavesParts(h: Heap, x: NodeId, t: NodeId)
    requires WellFormed(h) && x in h && t in h && Under(h, t, x)
    ensures Leaves(h, x) == LeavesBefore(h, x, t) + Leaves(h, t) + LeavesAfter(h, x, t)
  {
    hide ChildrenLinked, ParentsLinked, LeavesBare, Acyclic, Leaves;
    assert forall y :: y in h ==> SameAt(h, h, y);
    LeavesSplit(h, h, x, t);
  }

  /** Detaching `v` takes its leaves out and leaves the others in their order. */
  lemma LeavesDetach(h: Heap, u: NodeId, v: NodeId)
    requires WellFormed(h) && u in h && v in h && Under(h, v, u) && v != u
    ensures WellFormed(Detach(h, v)) && u in Detach(h, v)
    ensures Leaves(Detach(h, v), u) == LeavesBefore(h, u, v) + LeavesAfter(h, u, v)
  {
    hide ChildrenLinked, ParentsLinked, LeavesBare, Acyclic, Leaves, Detach, LeavesUpTo, LeavesFrom, SameAt;
    var h' := Detach(h, v);
    ParentUnder(h, u, v);
    var p := h[v].parent.value;
    DetachWellFormed(h, v);
    DetachHeap(h, v);
    SelfIn(h, p);
    forall y | y in h && Under(h, y, u) && !Under(h, y, p) ensures SameAt(h, h', y) { DetachSame(h, v, y); }
    LeavesSplit(h, h', u, p);
    ParentWithout(h, v);
    var b, a := LeavesBefore(h, u, p), LeavesAfter(h, u, p);
    RegroupPair(b, LeavesUpTo(h, p, h[v].index), LeavesFrom(h, p, h[v].index + 1), a);
  }

  lemma RegroupPair(b: seq<NodeId>, u: seq<NodeId>, f: seq<NodeId>, a: seq<NodeId>)
    ensures b + (u + f) + a == (b + u) + (f + a)
  {}

  lemma ParentWithout(h: Heap, v: NodeId)
    requires WellFormed(h) && Hangs(h, v)
    ensures var h', p, j := Detach(h, v), h[v].parent.value, h[v].index;
            WellFormed(h') && p in h' && Leaves(h', p) == LeavesUpTo(h, p, j) + LeavesFrom(h, p, j + 1)
  {
    var h', p, j := Detach(h, v), h[v].parent.value, h[v].index;
    var n := |h[p].children|;
    HangsThere(h, v);
    NotOwnParent(h, v);
    DetachWellFormed(h, v);
    forall i | 0 <= i < n && i != j
      ensures h[p].children[i] in h && h[p].children[i] in h'
      ensures Leaves(h', h[p].children[i]) == Leaves(h, h[p].children[i])
    {
      BrotherKept(h, v, i);
    }
    assert h'[p].children == RemoveAt(h[p].children, j);
    assert h'[p].kind == h[p].kind;
    hide ChildrenLinked, ParentsLinked, LeavesBare, Acyclic, Leaves, Detach;
    HasKids(h, p, j);
    LeavesUpToSame(h, p, h', p, j);
    assert h'[p].children[j..] == h[p].children[j + 1..];
    LeavesFromSame(h, p, j + 1, h', p, j);
    LeavesAll(h', p);
    UpToAndFrom(h', p, j);
  }

  lemma BrotherKept(h: Heap, v: NodeId, i: nat)
    requires WellFormed(h) && Hangs(h, v) && i < |h[h[v].parent.value].children| && i != h[v].index
    ensures var h', c := Detach(h, v), h[h[v].parent.value].children[i];
            WellFormed(h') && c in h && c in h' && Leaves(h', c) == Leaves(h, c)
  {
    var h', p, j := Detach(h, v), h[v].parent.value, h[v].index;
    var c := h[p].children[i];
    HangsThere(h, v);
    DetachWellFormed(h, v);
    ChildRoom(h, p, i);
    hide ChildrenLinked, ParentsLinked, LeavesBare, Acyclic, Leaves, Detach;
    forall y | y in h && Under(h, y, c) ensures SameAt(h, h', y) {
      NotBelowOwnChild(h, p, i, y);
      DetachSame(h, v, y);
    }
    LeavesSame(h, h', c);
  }

  /** Inserting a subtree puts its leaves between those of the children before and behind the position, and
      changes no other child vector and no kind. */
  lemma LeavesInsert(h: Heap, w: NodeId, v: NodeId, k: nat)
    requires Attachable(h, w, v) && k <= |h[w].children|
    ensures var h' := InsertChild(h, w, v, k);
            && WellFormed(h') && h'.Keys == h.Keys
            && h'[w].children == h[w].children[..k] + [v] + h[w].children[k..]
            && (forall y :: y in h && y != w ==> SameAt(h, h', y))
            && h'[w].kind == h[w].kind && Leaves(h', w) == LeavesUpTo(h, w, k) + Leaves(h, v) + LeavesFrom(h, w, k)
  {
    hide ChildrenLinked, ParentsLinked, LeavesBare, Acyclic, Leaves;
    AttachableDiffer(h, w, v);
    InsertPath(h, w, v, k, w);
    InsertedSame(h, w, v, k);
    hide InsertChild;
    InsertedLeaves(h, InsertChild(h, w, v, k), w, v, k);
  }

  lemma InsertedLeaves(h: Heap, h': Heap, w: NodeId, v: NodeId, k: nat)
    requires Attachable(h, w, v) && WellFormed(h') && k <= |h[w].children|
    requires w in h' && h'[w].kind == h[w].kind && h'[w].children == h[w].children[..k] + [v] + h[w].children[k..]
    requires forall y :: y in h && y != w ==> SameAt(h, h', y)
    ensures Leaves(h', w) == LeavesUpTo(h, w, k) + Leaves(h, v) + LeavesFrom(h, w, k)
  {
    var s, s' := h[w].children, h'[w].children;
    forall i | 0 <= i < |s| ensures s[i] in h && s[i] in h' && Leaves(h', s[i]) == Leaves(h, s[i]) {
      ElderKept(h, h', w, i);
    }
    GuestKept(h, h', w, v);
    hide ChildrenLinked, ParentsLinked, LeavesBare, Acyclic, Leaves;
    LeavesUpToSame(h, w, h', w, k);
    assert s'[k + 1..] == s[k..];
    LeavesFromSame(h, w, k, h', w, k + 1);
    assert s'[k] == v;
    FromStep(h', w, k);
    LeavesAll(h', w);
    UpToAndFrom(h', w, k);
  }

  lemma InsertedSame(h: Heap, w: NodeId, v: NodeId, k: nat)
    requires Attachable(h, w, v) && v != w && k <= |h[w].children|
    ensures var h' := InsertChild(h, w, v, k);
            && h'.Keys == h.Keys && h'[w].kind == h[w].kind
            && h'[w].children == h[w].children[..k] + [v] + h[w].children[k..]
            && forall y :: y in h && y != w ==> SameAt(h, h', y)
  {}

  /** A child of `w` keeps its leaves when only the child vector of `w` changes. */
  lemma ElderKept(h: Heap, h': Heap, w: NodeId, i: nat)
    requires WellFormed(h) && WellFormed(h') && w in h && i < |h[w].children|
    requires forall y :: y in h && y != w ==> SameAt(h, h', y)
    ensures var c := h[w].children[i]; c in h && c in h' && Leaves(h', c) == Leaves(h, c)
  {
    hide ChildrenLinked, ParentsLinked, LeavesBare, Acyclic, Leaves;
    ChildRoom(h, w, i);
    forall y | y in h && Under(h, y, h[w].children[i]) ensures SameAt(h, h', y) { NotBelowOwnChild(h, w, i, y); }
    LeavesSame(h, h', h[w].children[i]);
  }

  lemma GuestKept(h: Heap, h': Heap, w: NodeId, v: NodeId)
    requires Attachable(h, w, v) && WellFormed(h') && forall y :: y in h && y != w ==> SameAt(h, h', y)
    ensures v in h' && Leaves(h', v) == Leaves(h, v)
  {
    forall y | y in h && Under(h, y, v) ensures SameAt(h, h', y) { }
    LeavesSame(h, h', v);
  }

  // ---------------------------------------------------------------------------------------
  // Which leaves they are

  lemma {:induction false} LeavesUnder(h: Heap, n: NodeId, x: NodeId)
    requires WellFormed(h) && n in h && x in Leaves(h, n)
    ensures x in h && Under(h, x, n)
    decreases Room(h, n), 1, 0
  {
    hide ChildrenLinked, ParentsLinked, LeavesBare, Acyclic;
    SelfIn(h, n);
    if h[n].kind.HasChildren() {
      var i := LeavesUpToUnder(h, n, |h[n].children|, x);
      ChildRoom(h, n, i);
      UnderTrans(h, x, h[n].children[i], n);
    }
  }

  lemma {:induction false} LeavesUpToUnder(h: Heap, n: NodeId, k: nat, x: NodeId) returns (i: nat)
    requires WellFormed(h) && n in h && k <= |h[n].children| && x in LeavesUpTo(h, n, k)
    ensures i < k && x in h && h[n].children[i] in h && Under(h, x, h[n].children[i])
    decreases Room(h, n), 0, k
  {
    hide ChildrenLinked, ParentsLinked, LeavesBare, Acyclic;
    ChildRoom(h, n, k - 1);
    if x in Leaves(h, h[n].children[k - 1]) {
      LeavesUnder(h, h[n].children[k - 1], x);
      i := k - 1;
    } else {
      i := LeavesUpToUnder(h, n, k - 1, x);
    }
  }

  lemma {:induction false} LeavesFromUnder(h: Heap, n: NodeId, k: nat, x: NodeId) returns (i: nat)
    requires WellFormed(h) && n in h && k <= |h[n].children| && x in LeavesFrom(h, n, k)
    ensures k <= i < |h[n].children| && x in h && h[n].children[i] in h && Under(h, x, h[n].children[i])
    decreases |h[n].children| - k
  {
    hide ChildrenLinked, ParentsLinked, LeavesBare, Acyclic, Leaves;
    ChildRoom(h, n, k);
    if x in Leaves(h, h[n].children[k]) {
      LeavesUnder(h, h[n].children[k], x);
      i := k;
    } else {
      i := LeavesFromUnder(h, n, k + 1, x);
    }
  }

  /** The leaves around a subtree are not in it. */
  lemma {:induction false} LeavesOutside(h: Heap, u: NodeId, v: NodeId, x: NodeId)
    requires WellFormed(h) && u in h && v in h && Under(h, v, u)
    requires x in LeavesBefore(h, u, v) || x in LeavesAfter(h, u, v)
    ensures x in h && !Under(h, x, v)
    decreases |PathOf(h, v)|
  {
    hide ChildrenLinked, ParentsLinked, LeavesBare, Acyclic;
    ParentUnder(h, u, v);
    var p, j := h[v].parent.value, h[v].index;
    if x in LeavesBefore(h, u, p) || x in LeavesAfter(h, u, p) {
      LeavesOutside(h, u, p, x);
      SelfIn(h, p);
      if Under(h, x, v) { UnderTrans(h, x, v, p); }
    } else if x in LeavesUpTo(h, p, j) {
      var i := LeavesUpToUnder(h, p, j, x);
      SiblingsApart(h, p, i, j, x);
    } else {
      var i := LeavesFromUnder(h, p, j + 1, x);
      SiblingsApart(h, p, i, j, x);
    }
  }

  // ---------------------------------------------------------------------------------------
  // Moving a block in a sequence

  /** Moving a block of other elements within a sequence changes the whole exactly when the block is not
      empty and the place is another one. */
  lemma MoveIsSame<T>(b: seq<T>, x: seq<T>, y: seq<T>, x': seq<T>, y': seq<T>)
    requires x + y == x' + y' && forall e :: e in b ==> e !in x + y
    ensures x + b + y == x' + b + y' <==> b == [] || |x| == |x'|
  {
    if b == [] {
      assert x + b + y == x + y && x' + b + y' == x' + y';
    } else if |x| == |x'| {
      assert x == (x + y)[..|x|] && x' == (x' + y')[..|x|];
      assert y == (x + y)[|x|..] && y' == (x' + y')[|x|..];
    } else {
      MovedApart(b, x, y, x', y');
    }
  }

  lemma MovedApart<T>(b: seq<T>, x: seq<T>, y: seq<T>, x': seq<T>, y': seq<T>)
    requires x + y == x' + y' && b != [] && |x| != |x'| && forall e :: e in b ==> e !in x + y
    ensures x + b + y != x' + b + y'
  {
    if |x| < |x'| {
      assert (x + b + y)[|x|] == b[0];
      assert (x' + b + y')[|x|] == x'[|x|] && x'[|x|] in x' + y';
      assert b[0] in b;
    } else {
      assert (x' + b + y')[|x'|] == b[0];
      assert (x + b + y)[|x'|] == x[|x'|] && x[|x'|] in x + y;
      assert b[0] in b;
    }
  }

  // ---------------------------------------------------------------------------------------
  // The end of a last-child path

  /** `v` is a last child, and so on up to a child of `u`. */
  ghost predicate OnLastPath(h: Heap, u: NodeId, v: NodeId)
    requires WellFormed(h) && v in h
    decreases |PathOf(h, v)|
  {
    match h[v].parent
    case None => false
    case Some(p) =>
      ChildPath(h, p, v);
      h[v].index == |h[p].children| - 1 && (p == u || OnLastPath(h, u, p))
  }

  lemma {:induction false} LastPathNothingAfter(h: Heap, u: NodeId, v: NodeId)
    requires WellFormed(h) && u in h && v in h && OnLastPath(h, u, v)
    ensures Under(h, v, u) && v != u && LeavesAfter(h, u, v) == []
    decreases |PathOf(h, v)|
  {
    var p := h[v].parent.value;
    hide LeavesBare, Acyclic, Leaves;
    ChildPath(h, p, v);
    SelfIn(h, p);
    SelfIn(h, v);
    if p != u {
      LastPathNothingAfter(h, u, p);
      UnderTrans(h, v, p, u);
      assert Under(h, p, u);
      if v == u { AncestorNotBelow(h, p, v); }
    } else {
      NotOwnParent(h, v);
    }
  }
}
