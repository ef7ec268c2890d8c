/** What a round of the adoption agency does to the document-order sequence of text and comment nodes. */
module AdoptionLeaves {
  import opened Options
  import opened Dom
  import opened DomOps
  import opened OpenStack
  import opened DocumentOrder
  import opened LeafOrder
  import opened Sequences
  import opened Adoption

  /** `last` carries the leaves of `block`; elsewhere only `block` has been taken out. */
  ghost predicate Carried(h0: Heap, h: Heap, block: NodeId, last: NodeId) {
    && WellFormed(h0) && WellFormed(h) && block in h0 && last in h
    && Leaves(h, last) == Leaves(h0, block)
    && SameKids(Detach(h0, block), Detach(h, last))
  }

  ghost predicate SameKids(h: Heap, h': Heap) {
    forall y {:trigger h'[y]} {:trigger y in h'} :: y in h ==> y in h' && h'[y].children == h[y].children
  }

  lemma WrapKids(h: Heap, v: NodeId, c: NodeId, kind: Kind)
    requires WellFormed(h) && v in h && c !in h
    ensures SameKids(Detach(h, v), Detach(Wrap(h, v, c, kind), c))
  {
    var d := Detach(Add(h, c, kind), v);
    assert Hangs(h, v) <==> Hangs(Add(h, c, kind), v);
    assert c in d && d[c].parent == None;
    assert Wrap(h, v, c, kind)[c].parent == None;
  }

  lemma SameKidsTrans(a: Heap, b: Heap, c: Heap)
    requires SameKids(a, b) && SameKids(b, c)
    ensures SameKids(a, c)
  {
    forall y | y in a ensures y in c && c[y].children == a[y].children {
      assert y in b;
    }
  }

  lemma WrapLeaves(h: Heap, v: NodeId, c: NodeId, kind: Kind)
    requires WellFormed(h) && v in h && c !in h && kind.HasChildren()
    requires Attachable(Detach(Add(h, c, kind), v), c, v)
    ensures WellFormed(Wrap(h, v, c, kind)) && c in Wrap(h, v, c, kind)
    ensures Leaves(Wrap(h, v, c, kind), c) == Leaves(h, v)
  {
    hide ChildrenLinked, ParentsLinked, LeavesBare, Acyclic, Under;
    var g := Add(h, c, kind);
    AddWellFormed(h, c, kind);
    assert Leaves(g, v) == Leaves(h, v) by {
      forall y | y in h && Under(h, y, v) ensures SameAt(h, g, y) { }
      LeavesSame(h, g, v);
    }
    LeavesDetached(g, v);
    assert Detach(g, v)[c].children == [] && Detach(g, v)[c].kind == kind by { FreshKept(h, v, c, kind); }
    assert Leaves(Detach(g, v), c) == [];
    LeavesAttach(Detach(g, v), c, v);
  }

  lemma FreshKept(h: Heap, v: NodeId, c: NodeId, kind: Kind)
    requires WellFormed(h) && v in h && c !in h
    ensures var d := Detach(Add(h, c, kind), v); c in d && d[c].children == [] && d[c].kind == kind
  {
  }

  lemma VisitCarried(st: State, w: Walk, doc: NodeId, i: nat, pass: nat, block: NodeId)
    requires WellFormed(st.nodes) && TreeOk(st, w, doc, i + 1, block) && Carried(st.nodes, w.st.nodes, block, w.last)
    ensures Carried(st.nodes, Visit(w, i, pass, block).st.nodes, block, Visit(w, i, pass, block).last)
  {
    hide WellFormed, Ordered, Settled, Wrap, Keeps, SameKids, HeldFrom;
    var h, open, c := w.st.nodes, w.st.open, w.st.nextId;
    if IndexOf(w.st.formatting, Ref(open[i])) != -1 && pass <= 3 {
      var kind := h[open[i]].kind;
      var q := HeldAt(open, i + 1, w.last);
      WrapOrdered(h, open, i, q, c, kind);
      WrapLeaves(h, w.last, c, kind);
      WrapKids(h, w.last, c, kind);
      SameKidsTrans(Detach(st.nodes, block), Detach(h, w.last), Detach(Wrap(h, w.last, c, kind), c));
    }
  }

  lemma {:induction false} WalkDownCarried(st: State, w: Walk, doc: NodeId, k: nat, i: nat, pass: nat, block: NodeId)
    requires WellFormed(st.nodes) && TreeOk(st, w, doc, i, block) && k < i
    requires Carried(st.nodes, w.st.nodes, block, w.last)
    ensures i <= |w.st.open|
    ensures var r := WalkDown(w, k, i, pass, block); Carried(st.nodes, r.st.nodes, block, r.last)
    decreases i
  {
    hide TreeOk, Carried, WellFormed, Visit;
    TreeOkBounds(st, w, doc, k, i, block);
    if i > k + 1 {
      VisitTreeOk(st, w, doc, i - 1, pass, block);
      VisitCarried(st, w, doc, i - 1, pass, block);
      WalkDownCarried(st, Visit(w, i - 1, pass, block), doc, k, i - 1, pass + 1, block);
    }
  }

  lemma WalkedCarried(st: State, doc: NodeId, k: nat, m: nat)
    requires Valid(st, doc) && k < m < |st.open| && Ref(st.open[k]) in st.formatting
    ensures Carried(st.nodes, Walked(st, k, m).st.nodes, st.open[m], Walked(st, k, m).last)
  {
    hide ChildrenLinked, ParentsLinked, LeavesBare, Acyclic, TreeOk, BookmarkOk, WalkDown, Leaves, Detach;
    WalkStarts(st, doc, k, m);
    WalkDownCarried(st, Walk(st, st.open[m], IndexOf(st.formatting, Ref(st.open[k])) + 1), doc, k, m, 1, st.open[m]);
  }

  // ---------------------------------------------------------------------------------------
  // Step 14 puts the leaves behind the common ancestor's other ones

  lemma MovedLeaves(h0: Heap, h: Heap, block: NodeId, last: NodeId, ancestor: NodeId)
    requires Carried(h0, h, block, last) && Keeps(h0, h) && ancestor in h0
    requires Attachable(Detach(h, last), ancestor, last)
    ensures WellFormed(Moved(h, ancestor, last)) && ancestor in Moved(h, ancestor, last)
    ensures WellFormed(Detach(h0, block)) && ancestor in Detach(h0, block)
    ensures Leaves(Moved(h, ancestor, last), ancestor) == Leaves(Detach(h0, block), ancestor) + Leaves(h0, block)
  {
    hide ChildrenLinked, ParentsLinked, LeavesBare, Acyclic, Under, Detach;
    var d, g := Detach(h0, block), Detach(h, last);
    DetachWellFormed(h0, block);
    DetachKeeps(h0, block);
    DetachKeeps(h, last);
    assert Leaves(g, ancestor) == Leaves(d, ancestor) by {
      forall y | y in d && Under(d, y, ancestor) ensures SameAt(d, g, y) { assert y in h0 && y in h && y in g; }
      LeavesSame(d, g, ancestor);
    }
    LeavesDetached(h, last);
    LeavesAttach(g, ancestor, last);
  }

  /** Step 14 changes no child vector but that of the common ancestor, against the tree without the
      furthest block. */
  lemma MovedElsewhere(h0: Heap, h: Heap, block: NodeId, last: NodeId, ancestor: NodeId, y: NodeId)
    requires Carried(h0, h, block, last) && Keeps(h0, h) && y in h0 && y != ancestor
    ensures SameAt(Detach(h0, block), Moved(h, ancestor, last), y)
  {
    hide ChildrenLinked, ParentsLinked, LeavesBare, Acyclic, Detach, Attach, Leaves;
    DetachKeeps(h0, block);
    DetachKeeps(h, last);
    assert y in Detach(h, last) && y in h;
    AttachSame(Detach(h, last), ancestor, last, y);
  }

  lemma AttachSame(h: Heap, w: NodeId, v: NodeId, y: NodeId)
    requires y in h && y != w
    ensures SameAt(h, Attach(h, w, v), y)
  {
  }

  lemma InterposeSame(h: Heap, b: NodeId, c: NodeId, kind: Kind, y: NodeId)
    requires y in h && y != b && c !in h
    ensures SameAt(h, Interpose(Add(h, c, kind), b, c), y)
  {
  }

  /** Steps 15 to 17 keep the leaves of every tree that holds the furthest block. */
  lemma InterposedLeaves(h: Heap, b: NodeId, c: NodeId, kind: Kind, x: NodeId)
    requires WellFormed(h) && b in h && h[b].kind.HasChildren() && c !in h && kind.HasChildren()
    requires x in h && !Under(h, x, b)
    ensures var h' := Interpose(Add(h, c, kind), b, c);
            WellFormed(h') && x in h' && Leaves(h', x) == Leaves(h, x)
  {
    hide ChildrenLinked, ParentsLinked, LeavesBare, Acyclic, Interpose, Add;
    var g := Add(h, c, kind);
    var h' := Interpose(g, b, c);
    AddThenInterpose(h, b, c, kind);
    InterposeWellFormed(g, b, c);
    assert Leaves(g, b) == Leaves(h, b) by {
      AddWellFormed(h, c, kind);
      forall y | y in h && Under(h, y, b) ensures SameAt(h, g, y) { AddSame(h, c, kind, y); }
      LeavesSame(h, g, b);
    }
    LeavesInterpose(g, b, c);
    forall y | y in h && Under(h, y, x) && !Under(h, y, b) ensures SameAt(h, h', y) {
      if y == b { SelfUnder(h, b); }
      InterposeSame(h, b, c, kind, y);
    }
    KeepsAt(h, h', b);
    LeavesAround(h, h', x, b);
  }

  lemma AddSame(h: Heap, c: NodeId, kind: Kind, y: NodeId)
    requires y in h && c !in h
    ensures SameAt(h, Add(h, c, kind), y)
  {
  }

  lemma AncestorLeaves(st: State, doc: NodeId, k: nat, m: nat)
    requires Ready(st, doc, k, m)
    ensures var r, d, a, block := Round(st, k, m).nodes, Detach(st.nodes, st.open[m]), st.open[k - 1], st.open[m];
            && WellFormed(r) && a in r && WellFormed(st.nodes) && block in st.nodes && WellFormed(d) && a in d
            && Leaves(r, a) == Leaves(d, a) + Leaves(st.nodes, block)
  {
    hide ChildrenLinked, ParentsLinked, LeavesBare, Acyclic, Moved, Interpose, Add, Walked, Settled, Keeps, HeldFrom;
    hide Round, RemoveAt, InsertAt, Drawn, ListOk, RemoveFirst, Leaves, Carried, Ordered, Detach;
    var w := Walked(st, k, m);
    var h, a, block := w.st.nodes, st.open[k - 1], st.open[m];
    WalkedOk(st, doc, k, m);
    WalkedCarried(st, doc, k, m);
    var q, b := RoundPieces(st, doc, k, m);
    assert w.st.open[..k + 1][k - 1] == a && w.st.open[..k + 1][k] == st.open[k];
    MovedOrdered(h, w.st.open, k - 1, q);
    var moved := Moved(h, a, w.last);
    MovedLeaves(st.nodes, h, block, w.last, a);
    KeepsAt(h, moved, block);
    KeepsAt(h, moved, st.open[k]);
    OrderedAt(moved, w.st.open, k - 1, b);
    InterposedLeaves(moved, block, w.st.nextId, moved[st.open[k]].kind, a);
  }

  lemma OrderedAt(h: Heap, stack: seq<NodeId>, i: nat, j: nat)
    requires Ordered(h, stack) && i < j < |stack|
    ensures stack[i] in h && !Under(h, stack[i], stack[j])
  {
  }

  lemma RoundElsewhere(st: State, doc: NodeId, k: nat, m: nat, y: NodeId)
    requires Ready(st, doc, k, m) && y in st.nodes && y != st.open[k - 1] && y != st.open[m]
    ensures SameAt(Detach(st.nodes, st.open[m]), Round(st, k, m).nodes, y)
  {
    hide ChildrenLinked, ParentsLinked, LeavesBare, Acyclic, Moved, Interpose, Add, Walked, Settled, HeldFrom, Under;
    hide Round, RemoveAt, InsertAt, Drawn, ListOk, RemoveFirst, Leaves, Carried, Ordered, Detach;
    var w := Walked(st, k, m);
    WalkedOk(st, doc, k, m);
    WalkedCarried(st, doc, k, m);
    var q, b := RoundPieces(st, doc, k, m);
    var moved := Moved(w.st.nodes, st.open[k - 1], w.last);
    MovedElsewhere(st.nodes, w.st.nodes, st.open[m], w.last, st.open[k - 1], y);
    assert w.st.open[..k + 1][k - 1] == st.open[k - 1];
    MovedOrdered(w.st.nodes, w.st.open, k - 1, q);
    InterposeSame(moved, st.open[m], w.st.nextId, KindOf(moved, st.open[k]), y);
  }

  /** The document, the common ancestor and the furthest block, with and without the block. */
  lemma RoundPlaces(st: State, doc: NodeId, k: nat, m: nat)
    requires Ready(st, doc, k, m)
    ensures var h, a, block := st.nodes, st.open[k - 1], st.open[m];
            var d := Detach(h, block);
            && WellFormed(h) && doc in h && a in h && block in h && a != block && block != doc
            && Under(h, block, doc) && Under(h, a, doc)
            && WellFormed(d) && doc in d && a in d && Under(d, a, doc) && !Under(d, block, doc)
  {
    hide ChildrenLinked, ParentsLinked, LeavesBare, Acyclic, Ordered, ListOk, Detach, AllTags, Under, RootOf, FreshFrom;
    var h, a, block := st.nodes, st.open[k - 1], st.open[m];
    TagNotDocument(st, doc, m);
    OrderedAt(h, st.open, k - 1, m);
    assert block in h;
    SelfIn(h, block);
    UnderRoot(h, block);
    UnderRoot(h, a);
    DetachHeap(h, block);
    StaysUnder(h, block, a, doc);
    AloneThen(h, block, doc);
  }

  lemma StaysUnder(h: Heap, v: NodeId, x: NodeId, y: NodeId)
    requires WellFormed(h) && v in h && x in h && !Under(h, x, v) && Under(h, x, y)
    ensures WellFormed(Detach(h, v)) && x in Detach(h, v) && Under(Detach(h, v), x, y)
  {
    hide ChildrenLinked, ParentsLinked, LeavesBare, Acyclic, Detach;
    DetachHeap(h, v);
    DetachPath(h, v, x);
  }

  lemma AloneThen(h: Heap, v: NodeId, y: NodeId)
    requires WellFormed(h) && v in h && y != v
    ensures WellFormed(Detach(h, v)) && v in Detach(h, v) && !Under(Detach(h, v), v, y)
  {
    hide ChildrenLinked, ParentsLinked, LeavesBare, Acyclic, Detach;
    DetachWellFormed(h, v);
    DetachHeap(h, v);
    DetachedRoot(h, v);
    RootPathOf(Detach(h, v), v);
  }

  lemma TagNotDocument(st: State, doc: NodeId, i: nat)
    requires Valid(st, doc) && i < |st.open|
    ensures st.open[i] != doc
  {
    hide WellFormed, Ordered, ListOk, AllAttached;
  }

  /** The exact law: a round takes the leaves of the furthest block out of the document and puts them
      behind all other leaves of the common ancestor. */
  lemma RoundLeaves(st: State, doc: NodeId, k: nat, m: nat)
    requires Ready(st, doc, k, m)
    ensures var r, a, block := Round(st, k, m).nodes, st.open[k - 1], st.open[m];
            var d := Detach(st.nodes, block);
            && WellFormed(r) && doc in r && WellFormed(st.nodes) && block in st.nodes
            && WellFormed(d) && doc in d && a in d && Under(d, a, doc)
            && Leaves(r, doc)
               == LeavesBefore(d, doc, a) + (Leaves(d, a) + Leaves(st.nodes, block)) + LeavesAfter(d, doc, a)
  {
    hide ChildrenLinked, ParentsLinked, LeavesBare, Acyclic, Round, Leaves, Valid, SameAt, Detach, LeavesBefore, LeavesAfter;
    var r, a, block := Round(st, k, m).nodes, st.open[k - 1], st.open[m];
    var d := Detach(st.nodes, block);
    RoundPlaces(st, doc, k, m);
    AncestorLeaves(st, doc, k, m);
    DetachHeap(st.nodes, block);
    SelfIn(d, a);
    forall y | y in d && Under(d, y, doc) && !Under(d, y, a) ensures SameAt(d, r, y) {
      RoundElsewhere(st, doc, k, m, y);
    }
    LeavesSplit(d, r, doc, a);
  }

  /** Exactly when a round keeps the order: the furthest block has no leaves, or as many leaves come
      before it in the document as there are, without it, before and inside the common ancestor. */
  lemma RoundKeepsLeavesExactly(st: State, doc: NodeId, k: nat, m: nat)
    requires Ready(st, doc, k, m)
    ensures var h, r, a, block := st.nodes, Round(st, k, m).nodes, st.open[k - 1], st.open[m];
            var d := Detach(h, block);
            && WellFormed(h) && doc in h && block in h && Under(h, block, doc) && WellFormed(r) && doc in r
            && WellFormed(d) && doc in d && a in d && Under(d, a, doc)
            && (Leaves(r, doc) == Leaves(h, doc) <==>
                (Leaves(h, block) == [] || |LeavesBefore(h, doc, block)| == |LeavesBefore(d, doc, a)| + |Leaves(d, a)|))
  {
    hide ChildrenLinked, ParentsLinked, LeavesBare, Acyclic, Round, Leaves, Valid, Detach, LeavesBefore, LeavesAfter;
    var h, a, block := st.nodes, st.open[k - 1], st.open[m];
    var d := Detach(h, block);
    RoundPlaces(st, doc, k, m);
    RoundLeaves(st, doc, k, m);
    LeavesParts(h, doc, block);
    LeavesDetach(h, doc, block);
    LeavesParts(d, doc, a);
    var b, x, y := Leaves(h, block), LeavesBefore(h, doc, block), LeavesAfter(h, doc, block);
    BlockApart(h, doc, block);
    var p, s := LeavesBefore(d, doc, a), LeavesAfter(d, doc, a);
    assert p + (Leaves(d, a) + b) + s == (p + Leaves(d, a)) + b + s;
    MoveIsSame(b, x, y, p + Leaves(d, a), s);
  }

  /** The leaves of a subtree are not among those around it. */
  lemma BlockApart(h: Heap, u: NodeId, v: NodeId)
    requires WellFormed(h) && u in h && v in h && Under(h, v, u)
    ensures forall e :: e in Leaves(h, v) ==> e !in LeavesBefore(h, u, v) + LeavesAfter(h, u, v)
  {
    hide ChildrenLinked, ParentsLinked, LeavesBare, Acyclic, Leaves, LeavesBefore, LeavesAfter;
    forall e | e in Leaves(h, v) ensures e !in LeavesBefore(h, u, v) + LeavesAfter(h, u, v) {
      LeavesUnder(h, v, e);
      if e in LeavesBefore(h, u, v) || e in LeavesAfter(h, u, v) { LeavesOutside(h, u, v, e); }
    }
  }

  /** With the furthest block inside the common ancestor, as nesting has it: its leaves go behind those
      that followed it there, so the order is kept exactly when one of the two is empty. */
  lemma RoundLeavesInside(st: State, doc: NodeId, k: nat, m: nat)
    requires Ready(st, doc, k, m) && Under(st.nodes, st.open[m], st.open[k - 1])
    ensures var h, r, a, block := st.nodes, Round(st, k, m).nodes, st.open[k - 1], st.open[m];
            && WellFormed(h) && doc in h && a in h && block in h && WellFormed(r) && doc in r && Under(h, a, doc)
            && var b, x, y := Leaves(h, block), LeavesBefore(h, a, block), LeavesAfter(h, a, block);
               && Leaves(h, doc) == LeavesBefore(h, doc, a) + (x + b + y) + LeavesAfter(h, doc, a)
               && Leaves(r, doc) == LeavesBefore(h, doc, a) + (x + y + b) + LeavesAfter(h, doc, a)
               && (Leaves(r, doc) == Leaves(h, doc) <==> b == [] || y == [])
  {
    hide ChildrenLinked, ParentsLinked, LeavesBare, Acyclic, Round, Leaves, Valid, Detach, LeavesBefore, LeavesAfter, SameAt;
    var h, r, a, block := st.nodes, Round(st, k, m).nodes, st.open[k - 1], st.open[m];
    RoundPlaces(st, doc, k, m);
    AncestorLeaves(st, doc, k, m);
    LeavesDetach(h, a, block);
    LeavesParts(h, a, block);
    LeavesParts(h, doc, a);
    SelfIn(h, a);
    forall y | y in h && Under(h, y, doc) && !Under(h, y, a) ensures SameAt(h, r, y) {
      RoundOutside(st, doc, k, m, y);
    }
    LeavesSplit(h, r, doc, a);
    var b, x, y := Leaves(h, block), LeavesBefore(h, a, block), LeavesAfter(h, a, block);
    BlockApart(h, a, block);
    assert x + y + [] == x + y && x + y + b + [] == x + y + b;
    MoveIsSame(b, x, y, x + y, []);
    Wrapped(LeavesBefore(h, doc, a), x + y + b, x + b + y, LeavesAfter(h, doc, a));
  }

  lemma RoundOutside(st: State, doc: NodeId, k: nat, m: nat, y: NodeId)
    requires Ready(st, doc, k, m) && Under(st.nodes, st.open[m], st.open[k - 1])
    requires y in st.nodes && !Under(st.nodes, y, st.open[k - 1])
    ensures SameAt(st.nodes, Round(st, k, m).nodes, y)
  {
    hide ChildrenLinked, ParentsLinked, LeavesBare, Acyclic, Round, Detach, Valid;
    var h, a, block := st.nodes, st.open[k - 1], st.open[m];
    RoundPlaces(st, doc, k, m);
    SelfIn(h, a);
    ParentUnder(h, a, block);
    DetachSame(h, block, y);
    RoundElsewhere(st, doc, k, m, y);
  }

  lemma Wrapped(p: seq<NodeId>, u: seq<NodeId>, v: seq<NodeId>, s: seq<NodeId>)
    ensures p + u + s == p + v + s <==> u == v
  {
    if p + u + s == p + v + s {
      assert |u| == |v|;
      assert (p + u + s)[|p|..|p| + |u|] == u && (p + v + s)[|p|..|p| + |u|] == v;
    }
  }

  /** If the furthest block ends the last-child path below the common ancestor, a round leaves
      the document-order sequence of text and comment nodes as it was. */
  lemma RoundKeepsLeaves(st: State, doc: NodeId, k: nat, m: nat)
    requires Ready(st, doc, k, m) && OnLastPath(st.nodes, st.open[k - 1], st.open[m])
    ensures WellFormed(Round(st, k, m).nodes) && doc in Round(st, k, m).nodes
    ensures Leaves(Round(st, k, m).nodes, doc) == Leaves(st.nodes, doc)
  {
    hide ChildrenLinked, ParentsLinked, LeavesBare, Acyclic, Round, Leaves, Valid, LeavesBefore, LeavesAfter, OnLastPath;
    RoundPlaces(st, doc, k, m);
    LastPathNothingAfter(st.nodes, st.open[k - 1], st.open[m]);
    RoundLeavesInside(st, doc, k, m);
  }
}
