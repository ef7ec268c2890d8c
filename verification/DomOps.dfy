/** The link-changing steps of the tree builder, as functions on the heap, and what each does
    to well-formedness and to every node's path. */
module DomOps {
  import opened Options
  import opened Dom
  import opened Sequences

  predicate Hangs(h: Heap, v: NodeId) {
    && v in h && h[v].parent.Some? && h[v].parent.value in h
    && 0 <= h[v].index < |h[h[v].parent.value].children|
  }

  /** `remove_from_parent`: unlink `v`, if it has a parent, and renumber the siblings behind it. */
  function Detach(h: Heap, v: NodeId): Heap {
    if !Hangs(h, v) then h
    else
      var p, k := h[v].parent.value, h[v].index;
      map n | n in h ::
        if n == v then h[n].(parent := None, index := -1)
        else if n == p then h[n].(children := RemoveAt(h[n].children, k))
        else if h[n].parent == Some(p) && k < h[n].index then h[n].(index := h[n].index - 1)
        else h[n]
  }

  /** `append_node`: link the parentless `v` as the last child of `w`. */
  function Attach(h: Heap, w: NodeId, v: NodeId): Heap {
    if v !in h || w !in h || v == w then h
    else
      h[v := h[v].(parent := Some(w), index := |h[w].children|)]
       [w := h[w].(children := h[w].children + [v])]
  }

  /** `insert_node` at a position: link the parentless `v` as child `k` of `w` and renumber the
      siblings behind it. */
  function InsertChild(h: Heap, w: NodeId, v: NodeId, k: nat): Heap {
    if v !in h || w !in h || v == w || k > |h[w].children| then h
    else
      map n | n in h ::
        if n == v then h[n].(parent := Some(w), index := k)
        else if n == w then h[n].(children := InsertAt(h[n].children, k, v))
        else if h[n].parent == Some(w) && k <= h[n].index then h[n].(index := h[n].index + 1)
        else h[n]
  }

  /** A new node without links. */
  function Add(h: Heap, n: NodeId, kind: Kind): Heap {
    h[n := Node(kind, None, -1, [])]
  }

  /** Steps 16 and 17 of the adoption agency: `f` takes over the children of `b` and becomes
      the only child of `b`. */
  function Interpose(h: Heap, b: NodeId, f: NodeId): Heap {
    if b !in h || f !in h || b == f then h
    else
      map n | n in h ::
        if n == b then h[n].(children := [f])
        else if n == f then h[n].(parent := Some(b), index := 0, children := h[b].children)
        else if h[n].parent == Some(b) then h[n].(parent := Some(f))
        else h[n]
  }

  // ---------------------------------------------------------------------------------------
  // Paths follow parent pointers only: cutting one pointer, and grafting a root

  ghost predicate SameParentsBut(h: Heap, h': Heap, v: NodeId, parent: Option<NodeId>) {
    h'.Keys == h.Keys && forall n {:trigger h'[n]} :: n in h ==>
      h'[n].parent == if n == v then parent else h[n].parent
  }

  lemma CutAt(h: Heap, h': Heap, v: NodeId, p: seq<NodeId>, k: nat)
    requires RootPath(h, p) && k < |p| && p[k] == v && v !in p[k + 1..]
    requires SameParentsBut(h, h', v, None)
    ensures PathTo(h', p[|p| - 1], p[k..])
  {
    var q := p[k..];
    forall i | 0 <= i < |q| ensures q[i] in h' && (0 < i ==> h'[q[i]].parent == Some(q[i - 1])) {
      assert q[i] == p[k + i];
      assert 0 < i ==> q[i] == p[k + 1..][i - 1];
      assert 0 < i ==> h[p[k + i]].parent == Some(p[k + i - 1]);
    }
  }

  lemma KeepPath(h: Heap, h': Heap, v: NodeId, parent: Option<NodeId>, p: seq<NodeId>)
    requires RootPath(h, p) && v !in p && SameParentsBut(h, h', v, parent)
    ensures RootPath(h', p)
  {
    forall i | 0 <= i < |p| ensures p[i] in h' && h'[p[i]].parent == h[p[i]].parent {
      assert p[i] in p;
    }
  }

  lemma OnceOnPath(h: Heap, x: NodeId, k: nat)
    requires Acyclic(h) && x in h && k < |PathOf(h, x)|
    ensures forall i :: 0 <= i < |PathOf(h, x)| && i != k ==> PathOf(h, x)[i] != PathOf(h, x)[k]
  {
    forall i | 0 <= i < |PathOf(h, x)| && i != k ensures PathOf(h, x)[i] != PathOf(h, x)[k] {
      if i < k { PathDistinct(h, x, i, k); } else { PathDistinct(h, x, k, i); }
    }
  }

  lemma PositionTail(h: Heap, x: NodeId, v: NodeId)
    requires Acyclic(h) && x in h && Under(h, x, v)
    ensures v !in PathOf(h, x)[Position(PathOf(h, x), v) + 1..]
  {
    var p := PathOf(h, x);
    var k := Position(p, v);
    var tail := p[k + 1..];
    forall j | 0 <= j < |tail| ensures tail[j] != v {
      PathDistinct(h, x, k, k + 1 + j);
    }
  }

  /** Clearing one parent pointer cuts exactly the paths through that node. */
  lemma CutPath(h: Heap, h': Heap, v: NodeId, x: NodeId)
    requires Acyclic(h) && v in h && x in h && SameParentsBut(h, h', v, None)
    ensures PathTo(h', x, if Under(h, x, v) then PathOf(h, x)[Position(PathOf(h, x), v)..] else PathOf(h, x))
  {
    if Under(h, x, v) {
      PositionTail(h, x, v);
      CutAt(h, h', v, PathOf(h, x), Position(PathOf(h, x), v));
    } else {
      KeepPath(h, h', v, None, PathOf(h, x));
    }
  }

  lemma CutAcyclic(h: Heap, h': Heap, v: NodeId)
    requires Acyclic(h) && v in h && SameParentsBut(h, h', v, None)
    ensures Acyclic(h')
  {
    forall x | x in h' ensures Rooted(h', x) { CutPath(h, h', v, x); }
  }

  /** Setting the parent of a root prefixes the paths that started there. */
  lemma GraftPath(h: Heap, h': Heap, w: NodeId, v: NodeId, x: NodeId)
    requires Acyclic(h) && v in h && w in h && x in h && h[v].parent == None && !Under(h, w, v)
    requires SameParentsBut(h, h', v, Some(w))
    ensures PathTo(h', x, if RootOf(h, x) == v then PathOf(h, w) + PathOf(h, x) else PathOf(h, x))
  {
    var p, q := PathOf(h, x), PathOf(h, w);
    KeepPath(h, h', v, Some(w), q);
    if p[0] == v {
      var r := q + p;
      forall i | 0 <= i < |r| ensures r[i] in h' && (0 < i ==> h'[r[i]].parent == Some(r[i - 1])) {
        if i < |q| {
          assert 0 < i ==> h'[q[i]].parent == Some(q[i - 1]);
        } else if i > |q| {
          PathDistinct(h, x, 0, i - |q|);
          assert h[p[i - |q|]].parent == Some(p[i - |q| - 1]);
        }
      }
      assert h'[r[0]] == h'[q[0]];
    } else {
      if v in p { RootOnPath(h, x, v); }
      KeepPath(h, h', v, Some(w), p);
    }
  }

  lemma GraftAcyclic(h: Heap, h': Heap, w: NodeId, v: NodeId)
    requires Acyclic(h) && v in h && w in h && h[v].parent == None && !Under(h, w, v)
    requires SameParentsBut(h, h', v, Some(w))
    ensures Acyclic(h')
  {
    forall x | x in h' ensures Rooted(h', x) { GraftPath(h, h', w, v, x); }
  }

  /** A root on a path is where the path starts. */
  lemma RootOnPath(h: Heap, x: NodeId, v: NodeId)
    requires Acyclic(h) && x in h && v in h && h[v].parent == None && v in PathOf(h, x)
    ensures PathOf(h, x)[0] == v
  {
    var p := PathOf(h, x);
    var k := Position(p, v);
    assert h[p[k]].parent == None;
  }

  // ---------------------------------------------------------------------------------------
  // Detach

  lemma DetachChildren(h: Heap, v: NodeId)
    requires WellFormed(h) && v in h && h[v].parent.Some?
    ensures ChildrenLinked(Detach(h, v))
  {
    var h' := Detach(h, v);
    var p, k := h[v].parent.value, h[v].index;
    NotOwnParent(h, v);
    forall n, i | n in h' && 0 <= i < |h'[n].children|
      ensures var c := h'[n].children[i]; c in h' && h'[c].parent == Some(n) && h'[c].index == i
    {
      var j := if n == p && k <= i then i + 1 else i;
      assert h'[n].children[i] == h[n].children[j];
      NotOwnParent(h, h[n].children[j]);
    }
  }

  lemma NotOwnParent(h: Heap, v: NodeId)
    requires Acyclic(h) && v in h
    ensures h[v].parent != Some(v)
  {
    if h[v].parent == Some(v) { ChildPath(h, v, v); }
  }

  lemma DetachParents(h: Heap, v: NodeId)
    requires WellFormed(h) && v in h && h[v].parent.Some?
    ensures ParentsLinked(Detach(h, v))
  {
    hide Detach, ChildrenLinked, LeavesBare, Acyclic;
    var h' := Detach(h, v);
    DetachHeap(h, v);
    forall n | n in h'
      ensures match h'[n].parent
              case None => h'[n].index == -1
              case Some(q) => q in h' && 0 <= h'[n].index < |h'[q].children| && h'[q].children[h'[n].index] == n
    {
      DetachParentAt(h, v, n);
    }
  }

  lemma DetachHeap(h: Heap, v: NodeId)
    ensures Detach(h, v).Keys == h.Keys
  {}

  lemma DetachParentAt(h: Heap, v: NodeId, n: NodeId)
    requires WellFormed(h) && v in h && h[v].parent.Some? && n in h
    ensures var h' := Detach(h, v);
            n in h' &&
            match h'[n].parent
            case None => h'[n].index == -1
            case Some(q) => q in h' && 0 <= h'[n].index < |h'[q].children| && h'[q].children[h'[n].index] == n
  {
    hide ChildrenLinked, LeavesBare, Acyclic;
    var p, k := h[v].parent.value, h[v].index;
    NotOwnParent(h, v);
    NotOwnParent(h, n);
    assert h[n].parent == h[n].parent;
    if n != v && h[n].parent == Some(p) {
      assert h[p].children[h[n].index] == n;
      assert h[n].index != k;
    }
  }

  lemma DetachShape(h: Heap, v: NodeId)
    requires WellFormed(h) && v in h && h[v].parent.Some?
    ensures SameParentsBut(h, Detach(h, v), v, None) && LeavesBare(Detach(h, v))
  {
  }

  /** Detaching keeps the tree well formed. */
  lemma DetachWellFormed(h: Heap, v: NodeId)
    requires WellFormed(h) && v in h
    ensures v in h && WellFormed(Detach(h, v))
  {
    var h' := Detach(h, v);
    if h[v].parent.Some? {
      DetachChildren(h, v);
      DetachParents(h, v);
      DetachShape(h, v);
      CutAcyclic(h, h', v);
    }
  }

  /** Detaching cuts the paths through `v` at `v` and leaves every other path alone. */
  lemma DetachPath(h: Heap, v: NodeId, x: NodeId)
    requires WellFormed(h) && v in h && x in h
    ensures WellFormed(Detach(h, v))
    ensures PathOf(Detach(h, v), x) ==
            if Under(h, x, v) then PathOf(h, x)[Position(PathOf(h, x), v)..] else PathOf(h, x)
  {
    var h' := Detach(h, v);
    DetachWellFormed(h, v);
    if h[v].parent == None && Under(h, x, v) { RootPosition(h, x, v); }
    CutPath(h, h', v, x);
    PathIs(h', x, if Under(h, x, v) then PathOf(h, x)[Position(PathOf(h, x), v)..] else PathOf(h, x));
  }

  lemma RootPosition(h: Heap, x: NodeId, v: NodeId)
    requires Acyclic(h) && x in h && v in h && h[v].parent == None && Under(h, x, v)
    ensures Position(PathOf(h, x), v) == 0
  {
    var p := PathOf(h, x);
    assert h[p[Position(p, v)]].parent == None;
  }

  // ---------------------------------------------------------------------------------------
  // Attach

  ghost predicate Attachable(h: Heap, w: NodeId, v: NodeId) {
    && WellFormed(h) && v in h && w in h
    && h[v].parent == None && h[w].kind.HasChildren() && !Under(h, w, v)
  }

  lemma AttachableDiffer(h: Heap, w: NodeId, v: NodeId)
    requires Attachable(h, w, v)
    ensures v != w
  {
    assert PathOf(h, w)[|PathOf(h, w)| - 1] == w;
  }

  lemma AttachLinks(h: Heap, w: NodeId, v: NodeId)
    requires Attachable(h, w, v) && v != w
    ensures ChildrenLinked(Attach(h, w, v)) && ParentsLinked(Attach(h, w, v))
  {
    var h' := Attach(h, w, v);
    forall n, i | n in h' && 0 <= i < |h'[n].children|
      ensures var c := h'[n].children[i]; c in h' && h'[c].parent == Some(n) && h'[c].index == i
    {
      if i < |h[n].children| {
        assert h'[n].children[i] == h[n].children[i];
      }
    }
    forall n | n in h'
      ensures match h'[n].parent
              case None => h'[n].index == -1
              case Some(q) => q in h' && 0 <= h'[n].index < |h'[q].children| && h'[q].children[h'[n].index] == n
    {
      assert h[n].parent == h[n].parent;
    }
  }

  lemma AttachWellFormed(h: Heap, w: NodeId, v: NodeId)
    requires Attachable(h, w, v)
    ensures v != w && WellFormed(Attach(h, w, v))
  {
    AttachableDiffer(h, w, v);
    var h' := Attach(h, w, v);
    AttachLinks(h, w, v);
    GraftAcyclic(h, h', w, v);
  }

  /** Attaching prefixes the paths of `v`'s tree with the path of `w`. */
  lemma AttachPath(h: Heap, w: NodeId, v: NodeId, x: NodeId)
    requires Attachable(h, w, v) && x in h
    ensures v != w && WellFormed(Attach(h, w, v))
    ensures PathOf(Attach(h, w, v), x) ==
            if RootOf(h, x) == v then PathOf(h, w) + PathOf(h, x) else PathOf(h, x)
  {
    AttachWellFormed(h, w, v);
    GraftPath(h, Attach(h, w, v), w, v, x);
    PathIs(Attach(h, w, v), x, if RootOf(h, x) == v then PathOf(h, w) + PathOf(h, x) else PathOf(h, x));
  }

  lemma InsertChildren(h: Heap, w: NodeId, v: NodeId, k: nat)
    requires Attachable(h, w, v) && v != w && k <= |h[w].children|
    ensures ChildrenLinked(InsertChild(h, w, v, k))
  {
    var h' := InsertChild(h, w, v, k);
    forall n, i | n in h' && 0 <= i < |h'[n].children|
      ensures var c := h'[n].children[i]; c in h' && h'[c].parent == Some(n) && h'[c].index == i
    {
      if n != w || i != k {
        var j := if n == w && k < i then i - 1 else i;
        assert h'[n].children[i] == h[n].children[j];
        NotOwnParent(h, h[n].children[j]);
      }
    }
  }

  lemma InsertKeys(h: Heap, w: NodeId, v: NodeId, k: nat)
    ensures InsertChild(h, w, v, k).Keys == h.Keys
  {}

  lemma InsertParents(h: Heap, w: NodeId, v: NodeId, k: nat)
    requires Attachable(h, w, v) && v != w && k <= |h[w].children|
    ensures ParentsLinked(InsertChild(h, w, v, k))
  {
    hide InsertChild, ChildrenLinked, LeavesBare, Acyclic, Under;
    var h' := InsertChild(h, w, v, k);
    InsertKeys(h, w, v, k);
    forall n | n in h'
      ensures match h'[n].parent
              case None => h'[n].index == -1
              case Some(q) => q in h' && 0 <= h'[n].index < |h'[q].children| && h'[q].children[h'[n].index] == n
    {
      InsertParentAt(h, w, v, k, n);
    }
  }

  lemma InsertParentAt(h: Heap, w: NodeId, v: NodeId, k: nat, n: NodeId)
    requires Attachable(h, w, v) && v != w && k <= |h[w].children| && n in h
    ensures var h' := InsertChild(h, w, v, k);
            n in h' &&
            match h'[n].parent
            case None => h'[n].index == -1
            case Some(q) => q in h' && 0 <= h'[n].index < |h'[q].children| && h'[q].children[h'[n].index] == n
  {
    hide ChildrenLinked, LeavesBare, Acyclic, Under;
    NotOwnParent(h, n);
    assert h[n].parent == h[n].parent;
  }

  /** Inserting at any position keeps the tree well formed and grafts the same paths as
      appending does. */
  lemma InsertPath(h: Heap, w: NodeId, v: NodeId, k: nat, x: NodeId)
    requires Attachable(h, w, v) && k <= |h[w].children| && x in h
    ensures WellFormed(InsertChild(h, w, v, k))
    ensures PathOf(InsertChild(h, w, v, k), x) ==
            if RootOf(h, x) == v then PathOf(h, w) + PathOf(h, x) else PathOf(h, x)
  {
    var h' := InsertChild(h, w, v, k);
    AttachableDiffer(h, w, v);
    InsertChildren(h, w, v, k);
    InsertParents(h, w, v, k);
    InsertShape(h, w, v, k);
    GraftAcyclic(h, h', w, v);
    GraftPath(h, h', w, v, x);
    PathIs(h', x, if RootOf(h, x) == v then PathOf(h, w) + PathOf(h, x) else PathOf(h, x));
  }

  lemma InsertShape(h: Heap, w: NodeId, v: NodeId, k: nat)
    requires Attachable(h, w, v) && v != w && k <= |h[w].children|
    ensures SameParentsBut(h, InsertChild(h, w, v, k), v, Some(w)) && LeavesBare(InsertChild(h, w, v, k))
  {
  }

  // ---------------------------------------------------------------------------------------
  // Add

  lemma AddPath(h: Heap, n: NodeId, kind: Kind, x: NodeId)
    requires WellFormed(h) && n !in h && (x in h || x == n)
    ensures PathTo(Add(h, n, kind), x, if x == n then [n] else PathOf(h, x))
  {
    if x != n {
      var p := PathOf(h, x);
      assert forall i :: 0 <= i < |p| ==> p[i] in h;
    }
  }

  lemma AddWellFormed(h: Heap, n: NodeId, kind: Kind)
    requires WellFormed(h) && n !in h
    ensures WellFormed(Add(h, n, kind))
  {
    var h' := Add(h, n, kind);
    AddLinks(h, n, kind);
    forall x | x in h' ensures Rooted(h', x) { AddPath(h, n, kind, x); }
  }

  /** A new node is a tree of its own and moves no other. */
  lemma AddPaths(h: Heap, n: NodeId, kind: Kind)
    requires WellFormed(h) && n !in h
    ensures WellFormed(Add(h, n, kind))
    ensures forall x :: x in h ==> PathOf(Add(h, n, kind), x) == PathOf(h, x)
    ensures PathOf(Add(h, n, kind), n) == [n]
  {
    AddWellFormed(h, n, kind);
    forall x | x in h || x == n
      ensures PathOf(Add(h, n, kind), x) == if x == n then [n] else PathOf(h, x)
    {
      AddPath(h, n, kind, x);
      PathIs(Add(h, n, kind), x, if x == n then [n] else PathOf(h, x));
    }
  }

  lemma AddLinks(h: Heap, n: NodeId, kind: Kind)
    requires WellFormed(h) && n !in h
    ensures ChildrenLinked(Add(h, n, kind)) && ParentsLinked(Add(h, n, kind)) && LeavesBare(Add(h, n, kind))
  {
  }

  // ---------------------------------------------------------------------------------------
  // Interpose

  ghost predicate Interposable(h: Heap, b: NodeId, f: NodeId) {
    && WellFormed(h) && b in h && f in h && b != f
    && h[b].kind.HasChildren() && h[f].kind.HasChildren()
    && h[f].parent == None && h[f].children == []
  }

  /** The path of `x` once `f` stands between `b` and its former children. */
  ghost function InterposedPath(h: Heap, b: NodeId, f: NodeId, x: NodeId): seq<NodeId>
    requires Interposable(h, b, f) && x in h
  {
    var p := PathOf(h, x);
    if x == f then PathOf(h, b) + [f]
    else if x != b && b in p then p[..Position(p, b) + 1] + [f] + p[Position(p, b) + 1..]
    else p
  }

  lemma ChildlessOnPath(h: Heap, f: NodeId, x: NodeId)
    requires WellFormed(h) && f in h && h[f].children == [] && x in h && x != f
    ensures f !in PathOf(h, x)
  {
    var p := PathOf(h, x);
    forall k | 0 <= k < |p| ensures p[k] != f {
      if k + 1 < |p| {
        assert h[p[k + 1]].parent == Some(p[k]);
        assert h[p[k]].children != [];
      }
    }
  }

  ghost predicate InterposedParents(h: Heap, h': Heap, b: NodeId, f: NodeId) {
    h'.Keys == h.Keys && forall n {:trigger h'[n]} :: n in h ==>
      h'[n].parent == if n == f then Some(b) else if h[n].parent == Some(b) then Some(f) else h[n].parent
  }

  /** The same path when `b` is at most its end. */
  lemma InterposeAbove(h: Heap, h': Heap, b: NodeId, f: NodeId, p: seq<NodeId>)
    requires RootPath(h, p) && f !in p && InterposedParents(h, h', b, f)
    requires forall i :: 0 <= i < |p| - 1 ==> p[i] != b
    ensures RootPath(h', p)
  {
    forall i | 0 <= i < |p| ensures p[i] in h' && h'[p[i]].parent == h[p[i]].parent {
      assert p[i] in p;
      assert i > 0 ==> h[p[i]].parent == Some(p[i - 1]);
    }
  }

  /** A path that goes on below `b` gets `f` in between. */
  lemma InterposeBelow(h: Heap, h': Heap, b: NodeId, f: NodeId, p: seq<NodeId>, k: nat)
    requires RootPath(h, p) && f in h && f !in p && InterposedParents(h, h', b, f)
    requires k < |p| - 1 && p[k] == b && forall i :: 0 <= i < |p| && i != k ==> p[i] != b
    ensures RootPath(h', p[..k + 1] + [f] + p[k + 1..])
  {
    var r := p[..k + 1] + [f] + p[k + 1..];
    forall i | 0 <= i < |r|
      ensures r[i] in h' && h'[r[i]].parent == if i == 0 then None else Some(r[i - 1])
    {
      if i != k + 1 {
        var j := if i <= k then i else i - 1;
        assert r[i] == p[j] && p[j] in p;
        assert j > 0 ==> h[p[j]].parent == Some(p[j - 1]);
      }
    }
  }

  lemma InterposeOld(h: Heap, b: NodeId, f: NodeId, x: NodeId)
    requires Interposable(h, b, f) && x in h && x != f
    ensures PathTo(Interpose(h, b, f), x, InterposedPath(h, b, f, x))
  {
    var h' := Interpose(h, b, f);
    InterposeShape(h, b, f);
    var p := PathOf(h, x);
    ChildlessOnPath(h, f, x);
    if x != b && b in p {
      var k := Position(p, b);
      OnceOnPath(h, x, k);
      InterposeBelow(h, h', b, f, p, k);
    } else {
      OnceOnPath(h, x, |p| - 1);
      InterposeAbove(h, h', b, f, p);
    }
  }

  lemma InterposePathTo(h: Heap, b: NodeId, f: NodeId, x: NodeId)
    requires Interposable(h, b, f) && x in h
    ensures PathTo(Interpose(h, b, f), x, InterposedPath(h, b, f, x))
  {
    if x == f {
      InterposeOld(h, b, f, b);
      ExtendPath(Interpose(h, b, f), b, f, PathOf(h, b));
    } else {
      InterposeOld(h, b, f, x);
    }
  }

  lemma ExtendPath(h: Heap, b: NodeId, f: NodeId, p: seq<NodeId>)
    requires PathTo(h, b, p) && f in h && h[f].parent == Some(b)
    ensures PathTo(h, f, p + [f])
  {
  }

  lemma InterposeShape(h: Heap, b: NodeId, f: NodeId)
    requires Interposable(h, b, f)
    ensures InterposedParents(h, Interpose(h, b, f), b, f) && LeavesBare(Interpose(h, b, f))
  {
    NotOwnParent(h, b);
  }

  lemma InterposeLinks(h: Heap, b: NodeId, f: NodeId)
    requires Interposable(h, b, f)
    ensures ChildrenLinked(Interpose(h, b, f)) && ParentsLinked(Interpose(h, b, f))
  {
    var h' := Interpose(h, b, f);
    forall n, i | n in h' && 0 <= i < |h'[n].children|
      ensures var c := h'[n].children[i]; c in h' && h'[c].parent == Some(n) && h'[c].index == i
    {
      if n == f { assert h'[n].children[i] == h[b].children[i]; NotOwnParent(h, b); }
      else if n != b { assert h'[n].children[i] == h[n].children[i]; }
    }
    forall n | n in h'
      ensures match h'[n].parent
              case None => h'[n].index == -1
              case Some(q) => q in h' && 0 <= h'[n].index < |h'[q].children| && h'[q].children[h'[n].index] == n
    {
      assert h[n].parent == h[n].parent;
      NotOwnParent(h, b);
    }
  }

  /** Interposing keeps the tree well formed and lengthens exactly the paths below `b`. */
  lemma InterposePath(h: Heap, b: NodeId, f: NodeId, x: NodeId)
    requires Interposable(h, b, f) && x in h
    ensures WellFormed(Interpose(h, b, f))
    ensures PathOf(Interpose(h, b, f), x) == InterposedPath(h, b, f, x)
  {
    InterposeWellFormed(h, b, f);
    InterposePathTo(h, b, f, x);
    PathIs(Interpose(h, b, f), x, InterposedPath(h, b, f, x));
  }

  lemma InterposeWellFormed(h: Heap, b: NodeId, f: NodeId)
    requires Interposable(h, b, f)
    ensures WellFormed(Interpose(h, b, f))
  {
    InterposeLinks(h, b, f);
    InterposeShape(h, b, f);
    forall x | x in h ensures Rooted(Interpose(h, b, f), x) { InterposePathTo(h, b, f, x); }
  }

  // ---------------------------------------------------------------------------------------
  // Renumbering, as the loops do it

  /** Give each of `kids` from position `i` on its position as index. */
  function Renumber(h: Heap, kids: seq<NodeId>, i: nat): Heap
    decreases |kids| - i
  {
    if i >= |kids| then h
    else if kids[i] !in h then Renumber(h, kids, i + 1)
    else Renumber(h[kids[i] := h[kids[i]].(index := i)], kids, i + 1)
  }

  lemma {:induction false} RenumberAt(h: Heap, kids: seq<NodeId>, i: nat, n: NodeId)
    requires Distinct(kids) && n in h
    ensures Renumber(h, kids, i).Keys == h.Keys
    ensures Renumber(h, kids, i)[n] ==
            if n in kids && i <= IndexOf(kids, n) then h[n].(index := IndexOf(kids, n)) else h[n]
    decreases |kids| - i
  {
    if i < |kids| {
      assert kids[i] in kids;
      if kids[i] in h { RenumberAt(h[kids[i] := h[kids[i]].(index := i)], kids, i + 1, n); } else { RenumberAt(h, kids, i + 1, n); }
    }
  }

  lemma KidsDistinct(h: Heap, w: NodeId)
    requires WellFormed(h) && w in h
    ensures Distinct(h[w].children)
  {
    var kids := h[w].children;
    forall i, j | 0 <= i < j < |kids| ensures kids[i] != kids[j] {
      assert h[h[w].children[i]].index == i && h[h[w].children[j]].index == j;
    }
  }

  lemma KidIndex(h: Heap, w: NodeId, n: NodeId)
    requires WellFormed(h) && w in h && n in h
    ensures n in h[w].children <==> h[n].parent == Some(w)
    ensures n in h[w].children ==> IndexOf(h[w].children, n) == h[n].index
  {
    if n in h[w].children {
      assert h[w].children[IndexOf(h[w].children, n)] == n;
    }
    assert h[n].parent == h[n].parent;
  }

  /** What `remove_from_parent` has done before its loop. */
  function Unlinked(h: Heap, v: NodeId): Heap
    requires Hangs(h, v)
  {
    var p := h[v].parent.value;
    var g := h[p := h[p].(children := RemoveAt(h[p].children, h[v].index))];
    g[v := g[v].(parent := None, index := -1)]
  }

  lemma {:induction false} RenumberDetach(h: Heap, v: NodeId)
    requires WellFormed(h) && Hangs(h, v)
    ensures var p, k := h[v].parent.value, h[v].index;
            Renumber(Unlinked(h, v), RemoveAt(h[p].children, k), k) == Detach(h, v)
  {
    var p, k := h[v].parent.value, h[v].index;
    var kids := h[p].children;
    var rest := RemoveAt(kids, k);
    var g := Unlinked(h, v);
    hide ChildrenLinked, ParentsLinked, LeavesBare, Acyclic, Renumber, IndexOf, RemoveAt, Distinct;
    RenumberDetachAt(h, v, v);
    forall n | n in h ensures Renumber(g, rest, k)[n] == Detach(h, v)[n] { RenumberDetachAt(h, v, n); }
  }

  lemma RenumberDetachAt(h: Heap, v: NodeId, n: NodeId)
    requires WellFormed(h) && Hangs(h, v) && n in h
    ensures var p, k := h[v].parent.value, h[v].index;
            var r := Renumber(Unlinked(h, v), RemoveAt(h[p].children, k), k);
            r.Keys == h.Keys && r[n] == Detach(h, v)[n]
  {
    hide ChildrenLinked, ParentsLinked, LeavesBare, Acyclic, Renumber, IndexOf, RemoveAt, Distinct;
    var p, k := h[v].parent.value, h[v].index;
    var kids := h[p].children;
    KidsDistinct(h, p);
    NotOwnParent(h, v);
    NotOwnParent(h, p);
    KidIndex(h, p, v);
    KidIndex(h, p, n);
    RemovedIndex(kids, k, n);
    RenumberAt(Unlinked(h, v), RemoveAt(kids, k), k, n);
    HangsThere(h, v);
  }

  lemma HangsThere(h: Heap, v: NodeId)
    requires WellFormed(h) && Hangs(h, v)
    ensures h[h[v].parent.value].children[h[v].index] == v
  {}

  lemma RemovedIndex(s: seq<NodeId>, k: nat, n: NodeId)
    requires Distinct(s) && k < |s|
    ensures Distinct(RemoveAt(s, k))
    ensures n in RemoveAt(s, k) <==> n in s && n != s[k]
    ensures n in RemoveAt(s, k) ==>
      IndexOf(RemoveAt(s, k), n) == if IndexOf(s, n) < k then IndexOf(s, n) else IndexOf(s, n) - 1
  {
    var r := RemoveAt(s, k);
    if n in s && n != s[k] {
      var i := IndexOf(s, n);
      assert r[if i < k then i else i - 1] == n;
    }
  }

  /** What `insert_node` has done before its loop. */
  function Linked(h: Heap, w: NodeId, v: NodeId, k: nat): Heap
    requires v in h && w in h && k <= |h[w].children|
  {
    var g := h[v := h[v].(parent := Some(w), index := k)];
    g[w := g[w].(children := InsertAt(h[w].children, k, v))]
  }

  lemma {:induction false} RenumberInsert(h: Heap, w: NodeId, v: NodeId, k: nat)
    requires Attachable(h, w, v) && v != w && k <= |h[w].children|
    ensures Renumber(Linked(h, w, v, k), InsertAt(h[w].children, k, v), k + 1) == InsertChild(h, w, v, k)
  {
    var kids := h[w].children;
    var more := InsertAt(kids, k, v);
    var g := Linked(h, w, v, k);
    hide ChildrenLinked, ParentsLinked, LeavesBare, Acyclic, Renumber, IndexOf, InsertAt, Distinct, Under;
    RenumberInsertAt(h, w, v, k, v);
    forall n | n in h ensures Renumber(g, more, k + 1)[n] == InsertChild(h, w, v, k)[n] {
      RenumberInsertAt(h, w, v, k, n);
    }
  }

  lemma RenumberInsertAt(h: Heap, w: NodeId, v: NodeId, k: nat, n: NodeId)
    requires Attachable(h, w, v) && v != w && k <= |h[w].children| && n in h
    ensures var r := Renumber(Linked(h, w, v, k), InsertAt(h[w].children, k, v), k + 1);
            r.Keys == h.Keys && r[n] == InsertChild(h, w, v, k)[n]
  {
    hide ChildrenLinked, ParentsLinked, LeavesBare, Acyclic, Renumber, IndexOf, InsertAt, Distinct, Under;
    var kids := h[w].children;
    KidsDistinct(h, w);
    NotOwnParent(h, w);
    KidIndex(h, w, v);
    KidIndex(h, w, n);
    InsertedIndex(kids, k, v, n);
    RenumberAt(Linked(h, w, v, k), InsertAt(kids, k, v), k + 1, n);
  }

  lemma InsertedIndex(s: seq<NodeId>, k: nat, v: NodeId, n: NodeId)
    requires Distinct(s) && k <= |s| && v !in s
    ensures Distinct(InsertAt(s, k, v))
    ensures n in InsertAt(s, k, v) <==> n in s || n == v
    ensures n in s ==> IndexOf(InsertAt(s, k, v), n) == if IndexOf(s, n) < k then IndexOf(s, n) else IndexOf(s, n) + 1
    ensures IndexOf(InsertAt(s, k, v), v) == k
  {
    var r := InsertAt(s, k, v);
    assert r[k] == v;
    if n in s {
      var i := IndexOf(s, n);
      assert r[if i < k then i else i + 1] == n;
    }
  }

  // ---------------------------------------------------------------------------------------
  // Moving a child vector, as the loop does it

  /** Point each of `kids` from position `i` on at the parent `f`. */
  function Reparent(h: Heap, kids: seq<NodeId>, f: NodeId, i: nat): Heap
    decreases |kids| - i
  {
    if i >= |kids| then h
    else if kids[i] !in h then Reparent(h, kids, f, i + 1)
    else Reparent(h[kids[i] := h[kids[i]].(parent := Some(f))], kids, f, i + 1)
  }

  lemma {:induction false} ReparentAt(h: Heap, kids: seq<NodeId>, f: NodeId, i: nat, n: NodeId)
    requires n in h && i <= |kids|
    ensures Reparent(h, kids, f, i).Keys == h.Keys
    ensures Reparent(h, kids, f, i)[n] == if n in kids[i..] then h[n].(parent := Some(f)) else h[n]
    decreases |kids| - i
  {
    if i < |kids| {
      assert kids[i..] == [kids[i]] + kids[i + 1..];
      if kids[i] in h { ReparentAt(h[kids[i] := h[kids[i]].(parent := Some(f))], kids, f, i + 1, n); }
      else { ReparentAt(h, kids, f, i + 1, n); }
    }
  }

  /** The swap of step 16 before its loop: `f` has the children of `b`, and `b` those of `f`. */
  function Swapped(h: Heap, b: NodeId, f: NodeId): Heap
    requires b in h && f in h
  {
    var kids := h[f].children;
    var g := h[f := h[f].(children := h[b].children)];
    g[b := g[b].(children := kids)]
  }

  lemma {:induction false} ReparentInterpose(h: Heap, b: NodeId, f: NodeId)
    requires Interposable(h, b, f)
    ensures Attach(Reparent(Swapped(h, b, f), h[b].children, f, 0), b, f) == Interpose(h, b, f)
  {
    hide Acyclic, LeavesBare;
    var g, kids := Swapped(h, b, f), h[b].children;
    var r := Reparent(g, kids, f, 0);
    assert kids[0..] == kids;
    KidIndex(h, b, b);
    KidIndex(h, b, f);
    NotOwnParent(h, b);
    ReparentAt(g, kids, f, 0, b);
    ReparentAt(g, kids, f, 0, f);
    forall n | n in h ensures Attach(r, b, f)[n] == Interpose(h, b, f)[n] {
      ReparentAt(g, kids, f, 0, n);
      KidIndex(h, b, n);
    }
  }
}
