/** The adoption agency algorithm on values: what one round does to the heap, the stack of open
    elements and the list of active formatting elements, and what every round keeps. */
module Adoption {
  import opened Options
  import opened Dom
  import opened DomOps
  import opened OpenStack
  import opened Sequences

  /** An entry of the list of active formatting elements. */
  datatype Entry = Marker | Ref(id: NodeId)

  /** The position `i` lies behind the last marker. */
  ghost predicate Unmarked(list: seq<Entry>, i: nat) {
    i < |list| && forall j :: i <= j < |list| ==> list[j].Ref?
  }

  datatype State = State(
    nodes: Heap,
    nextId: NodeId,             // identifiers from here on are unused
    open: seq<NodeId>,          // the stack of open elements, current node last
    formatting: seq<Entry>)     // the list of active formatting elements

  function KindOf(h: Heap, n: NodeId): Kind {
    if n in h then h[n].kind else Document
  }

  /** Steps 13.7 and 13.9: clone into `c` and move `v` below the clone. */
  function Wrap(h: Heap, v: NodeId, c: NodeId, kind: Kind): Heap {
    Attach(Detach(Add(h, c, kind), v), c, v)
  }

  datatype Walk = Walk(st: State, last: NodeId, bookmark: int)

  /** One pass of step 13 over the open element at `i`. */
  function Visit(w: Walk, i: nat, pass: nat, block: NodeId): (r: Walk)
    requires i < |w.st.open|
    ensures |w.st.open| - 1 <= |r.st.open| <= |w.st.open|
  {
    var n := w.st.open[i];
    var f := IndexOf(w.st.formatting, Ref(n));
    if pass > 3 && f != -1 then
      w.(st := w.st.(formatting := RemoveAt(w.st.formatting, f)),
         bookmark := if f < w.bookmark then w.bookmark - 1 else w.bookmark)
    else if f == -1 then
      w.(st := w.st.(open := RemoveAt(w.st.open, i)))
    else
      var c := w.st.nextId;
      Walk(State(Wrap(w.st.nodes, w.last, c, KindOf(w.st.nodes, n)), c + 1,
                 w.st.open[i := c], w.st.formatting[f := Ref(c)]),
           c,
           if w.last == block then f + 1 else w.bookmark)
  }

  /** Step 13: visit the open elements from just below `i` down to just above `k`. */
  function WalkDown(w: Walk, k: nat, i: nat, pass: nat, block: NodeId): (r: Walk)
    requires i <= |w.st.open|
    decreases i
  {
    if i <= k + 1 then w else WalkDown(Visit(w, i - 1, pass, block), k, i - 1, pass + 1, block)
  }

  function InsertWithin<T>(s: seq<T>, i: int, x: T): (r: seq<T>) {
    if 0 <= i <= |s| then InsertAt(s, i, x) else s
  }

  /** Steps 11 to 13. */
  function Walked(st: State, k: nat, m: nat): (w: Walk)
    requires k < m < |st.open|
  {
    var block := st.open[m];
    WalkDown(Walk(st, block, IndexOf(st.formatting, Ref(st.open[k])) + 1), k, m, 1, block)
  }

  /** Step 14: hang the walked chain below the common ancestor. */
  function Moved(h: Heap, ancestor: NodeId, last: NodeId): Heap {
    Attach(Detach(h, last), ancestor, last)
  }

  /** Steps 11 to 19, for the formatting element at `k` and the furthest block at `m`. */
  function Round(st: State, k: nat, m: nat): (r: State)
    requires 0 < k < m < |st.open|
  {
    var fe, block, w := st.open[k], st.open[m], Walked(st, k, m);
    var c := w.st.nextId;
    var moved := Moved(w.st.nodes, st.open[k - 1], w.last);
    var open := RemoveFirst(w.st.open, fe);
    State(Interpose(Add(moved, c, KindOf(moved, fe)), block, c), c + 1,
          InsertWithin(open, IndexOf(open, block) + 1, c),
          InsertWithin(RemoveFirst(w.st.formatting, Ref(fe)), FinalBookmark(w, fe), Ref(c)))
  }

  /** Step 18: removing the formatting element moves a bookmark behind it. */
  function FinalBookmark(w: Walk, fe: NodeId): int {
    if IndexOf(w.st.formatting, Ref(fe)) < w.bookmark then w.bookmark - 1 else w.bookmark
  }

  // ---------------------------------------------------------------------------------------
  // What a state must satisfy

  ghost predicate FreshFrom(h: Heap, n: NodeId) {
    forall x :: x in h ==> x < n
  }

  ghost predicate AllTags(h: Heap, stack: seq<NodeId>) {
    forall i :: 0 <= i < |stack| ==> stack[i] in h && h[stack[i]].kind.IsTag()
  }

  /** Every open element hangs below the document. */
  ghost predicate AllAttached(h: Heap, stack: seq<NodeId>, doc: NodeId)
    requires Acyclic(h)
  {
    forall i :: 0 <= i < |stack| ==> stack[i] in h && RootOf(h, stack[i]) == doc
  }

  ghost predicate ListOk(h: Heap, list: seq<Entry>) {
    forall i :: 0 <= i < |list| && list[i].Ref? ==> list[i].id in h && h[list[i].id].kind.IsTag()
  }

  ghost predicate Valid(st: State, doc: NodeId) {
    && WellFormed(st.nodes) && FreshFrom(st.nodes, st.nextId)
    && doc in st.nodes && st.nodes[doc].kind.Document? && st.nodes[doc].parent == None
    && Ordered(st.nodes, st.open) && AllTags(st.nodes, st.open) && AllAttached(st.nodes, st.open, doc)
    && ListOk(st.nodes, st.formatting)
  }

  /** A round can run: the formatting element at `k` is listed, and the furthest block is at `m`. */
  ghost predicate Ready(st: State, doc: NodeId, k: nat, m: nat) {
    Valid(st, doc) && 0 < k < m < |st.open| && Ref(st.open[k]) in st.formatting
  }

  /** Nodes stay, with their kind. */
  ghost predicate Keeps(h: Heap, h': Heap) {
    forall x {:trigger x in h'} {:trigger h'[x]} :: x in h ==> x in h' && h'[x].kind == h[x].kind
  }

  /** What hung below the document, and what is new, hangs below it still or below `last`. */
  ghost predicate Settled(h: Heap, h': Heap, doc: NodeId, last: NodeId)
    requires Acyclic(h) && Acyclic(h')
  {
    forall x :: x in h' && (x in h ==> RootOf(h, x) == doc) ==> RootOf(h', x) == doc || RootOf(h', x) == last
  }

  // ---------------------------------------------------------------------------------------
  // Roots

  lemma RootDetach(h: Heap, v: NodeId, x: NodeId)
    requires WellFormed(h) && v in h && x in h
    ensures WellFormed(Detach(h, v)) && x in Detach(h, v)
    ensures RootOf(Detach(h, v), x) == if Under(h, x, v) then v else RootOf(h, x)
  {
    DetachPath(h, v, x);
  }

  lemma RootAttach(h: Heap, w: NodeId, v: NodeId, x: NodeId)
    requires Attachable(h, w, v) && x in h
    ensures WellFormed(Attach(h, w, v)) && x in Attach(h, w, v)
    ensures RootOf(Attach(h, w, v), x) == if RootOf(h, x) == v then RootOf(h, w) else RootOf(h, x)
  {
    AttachPath(h, w, v, x);
  }

  // ---------------------------------------------------------------------------------------
  // One clone

  /** Cloning `stack[i]` and moving a later `stack[q]` below the clone. */
  lemma WrapOrdered(h: Heap, stack: seq<NodeId>, i: nat, q: nat, c: NodeId, kind: Kind)
    requires WellFormed(h) && Ordered(h, stack) && i < q < |stack| && c !in h && kind.HasChildren()
    ensures WellFormed(Wrap(h, stack[q], c, kind)) && Ordered(Wrap(h, stack[q], c, kind), stack[i := c])
    ensures Attachable(Detach(Add(h, c, kind), stack[q]), c, stack[q])
  {
    hide WellFormed;
    var v := stack[q];
    OrderedReplace(h, stack, i, c, kind);
    OrderedDetach(Add(h, c, kind), v, stack[i := c]);
    DetachedRoot(Add(h, c, kind), v);
    DetachKeeps(Add(h, c, kind), v);
    OrderedAttach(Detach(Add(h, c, kind), v), stack[i := c], i, q);
  }

  lemma DetachedRoot(h: Heap, v: NodeId)
    requires WellFormed(h) && v in h
    ensures v in Detach(h, v) && Detach(h, v)[v].parent == None
  {
  }

  lemma DetachKeeps(h: Heap, v: NodeId)
    ensures Keeps(h, Detach(h, v)) && Detach(h, v).Keys == h.Keys
  {
  }

  lemma WrapKeeps(h: Heap, v: NodeId, c: NodeId, kind: Kind)
    requires v in h && c !in h
    ensures Keeps(h, Wrap(h, v, c, kind)) && Wrap(h, v, c, kind).Keys == h.Keys + {c}
    ensures Wrap(h, v, c, kind)[c].kind == kind
  {
    DetachKeeps(Add(h, c, kind), v);
  }

  lemma WrapRoot(h: Heap, v: NodeId, c: NodeId, kind: Kind, x: NodeId)
    requires WellFormed(h) && v in h && c !in h && (x in h || x == c)
    requires WellFormed(Wrap(h, v, c, kind)) && Attachable(Detach(Add(h, c, kind), v), c, v)
    ensures x in Wrap(h, v, c, kind)
    ensures RootOf(Wrap(h, v, c, kind), x) == if x == c || Under(h, x, v) then c else RootOf(h, x)
  {
    hide ChildrenLinked, ParentsLinked, LeavesBare, Acyclic, Attach;
    var h1 := Add(h, c, kind);
    AddPaths(h, c, kind);
    RootDetach(h1, v, x);
    RootDetach(h1, v, c);
    RootAttach(Detach(h1, v), c, v, x);
    if x in h && RootOf(h, x) == v { UnderRoot(h, x); }
  }

  lemma WrapSettled(h0: Heap, h: Heap, doc: NodeId, v: NodeId, c: NodeId, kind: Kind)
    requires WellFormed(h0) && WellFormed(h) && Settled(h0, h, doc, v) && v in h && c !in h
    requires WellFormed(Wrap(h, v, c, kind)) && Attachable(Detach(Add(h, c, kind), v), c, v)
    ensures Settled(h0, Wrap(h, v, c, kind), doc, c)
  {
    hide ChildrenLinked, ParentsLinked, LeavesBare, Acyclic, Attach, Detach;
    WrapKeeps(h, v, c, kind);
    var h' := Wrap(h, v, c, kind);
    forall x | x in h' && (x in h0 ==> RootOf(h0, x) == doc)
      ensures RootOf(h', x) == doc || RootOf(h', x) == c
    {
      WrapRoot(h, v, c, kind, x);
      if x in h && RootOf(h, x) == v { UnderRoot(h, x); }
    }
  }

  lemma UnderRoot(h: Heap, x: NodeId)
    requires Acyclic(h) && x in h
    ensures Under(h, x, RootOf(h, x))
  {
  }

  // ---------------------------------------------------------------------------------------
  // The walk

  ghost predicate HeldFrom(stack: seq<NodeId>, i: nat, n: NodeId) {
    exists q :: i <= q < |stack| && stack[q] == n
  }

  /** The stack holds elements of the original stack and new ones. */
  ghost predicate Drawn(st0: State, stack: seq<NodeId>) {
    forall i :: 0 <= i < |stack| ==> stack[i] in st0.open || stack[i] !in st0.nodes
  }

  /** The tree and the stack while step 13 has still to visit the positions below `i`. */
  ghost predicate TreeOk(st0: State, w: Walk, doc: NodeId, i: nat, block: NodeId)
    requires Acyclic(st0.nodes)
  {
    && WellFormed(w.st.nodes) && FreshFrom(w.st.nodes, w.st.nextId)
    && Ordered(w.st.nodes, w.st.open) && AllTags(w.st.nodes, w.st.open)
    && i <= |w.st.open| && i <= |st0.open| && w.st.open[..i] == st0.open[..i]
    && HeldFrom(w.st.open, i, w.last) && HeldFrom(w.st.open, i, block) && Drawn(st0, w.st.open)
    && Keeps(st0.nodes, w.st.nodes) && Settled(st0.nodes, w.st.nodes, doc, w.last)
  }

  /** The bookmark points into the list, which still holds the formatting element. */
  ghost predicate BookmarkOk(w: Walk, fe: NodeId) {
    && ListOk(w.st.nodes, w.st.formatting)
    && 0 <= w.bookmark <= |w.st.formatting| && Ref(fe) in w.st.formatting
  }

  lemma HeldRemove(stack: seq<NodeId>, i: nat, n: NodeId)
    requires i < |stack| && HeldFrom(stack, i + 1, n)
    ensures HeldFrom(RemoveAt(stack, i), i, n)
  {
    var q :| i + 1 <= q < |stack| && stack[q] == n;
    assert RemoveAt(stack, i)[q - 1] == n;
  }

  lemma HeldReplace(stack: seq<NodeId>, i: nat, n: NodeId, c: NodeId)
    requires i < |stack| && HeldFrom(stack, i + 1, n)
    ensures HeldFrom(stack[i := c], i, n) && HeldFrom(stack[i := c], i, c)
  {
    var q :| i + 1 <= q < |stack| && stack[q] == n;
    assert stack[i := c][q] == n && stack[i := c][i] == c;
  }

  lemma VisitRemoves(st0: State, w: Walk, doc: NodeId, i: nat, pass: nat, block: NodeId)
    requires WellFormed(st0.nodes) && TreeOk(st0, w, doc, i + 1, block)
    requires IndexOf(w.st.formatting, Ref(w.st.open[i])) == -1
    ensures TreeOk(st0, Visit(w, i, pass, block), doc, i, block)
  {
    hide WellFormed, Settled;
    var open := RemoveAt(w.st.open, i);
    OrderedRemoveAt(w.st.nodes, w.st.open, i);
    HeldRemove(w.st.open, i, w.last);
    HeldRemove(w.st.open, i, block);
    assert open[..i] == w.st.open[..i + 1][..i];
    assert st0.open[..i] == st0.open[..i + 1][..i];
  }

  lemma CloneTags(h: Heap, h': Heap, stack: seq<NodeId>, i: nat, c: NodeId)
    requires AllTags(h, stack) && Keeps(h, h') && i < |stack| && c in h' && h'[c].kind.IsTag()
    ensures AllTags(h', stack[i := c])
  {
  }

  lemma KeepsTrans(h: Heap, h': Heap, h'': Heap)
    requires Keeps(h, h') && Keeps(h', h'')
    ensures Keeps(h, h'')
  {
    forall x | x in h ensures x in h'' && h''[x].kind == h[x].kind { assert x in h'; }
  }

  lemma VisitClones(st0: State, w: Walk, doc: NodeId, i: nat, pass: nat, block: NodeId)
    requires WellFormed(st0.nodes) && TreeOk(st0, w, doc, i + 1, block)
    requires IndexOf(w.st.formatting, Ref(w.st.open[i])) != -1 && pass <= 3
    ensures TreeOk(st0, Visit(w, i, pass, block), doc, i, block)
  {
    hide WellFormed, Wrap, Ordered, Settled, Keeps, HeldFrom;
    var h, open, c := w.st.nodes, w.st.open, w.st.nextId;
    var kind := h[open[i]].kind;
    var q := HeldAt(open, i + 1, w.last);
    WrapOrdered(h, open, i, q, c, kind);
    WrapKeeps(h, w.last, c, kind);
    KeepsTrans(st0.nodes, h, Wrap(h, w.last, c, kind));
    CloneTags(h, Wrap(h, w.last, c, kind), open, i, c);
    WrapSettled(st0.nodes, h, doc, w.last, c, kind);
    KeepsNot(st0.nodes, h, c);
    HeldReplace(open, i, block, c);
    HeldReplace(open, i, w.last, c);
    assert open[i := c][..i] == open[..i + 1][..i];
    assert st0.open[..i] == st0.open[..i + 1][..i];
  }

  lemma HeldAt(stack: seq<NodeId>, i: nat, n: NodeId) returns (q: nat)
    requires HeldFrom(stack, i, n)
    ensures i <= q < |stack| && stack[q] == n
  {
    q :| i <= q < |stack| && stack[q] == n;
  }

  lemma VisitTreeOk(st0: State, w: Walk, doc: NodeId, i: nat, pass: nat, block: NodeId)
    requires WellFormed(st0.nodes) && TreeOk(st0, w, doc, i + 1, block)
    ensures TreeOk(st0, Visit(w, i, pass, block), doc, i, block)
  {
    var f := IndexOf(w.st.formatting, Ref(w.st.open[i]));
    if f == -1 {
      VisitRemoves(st0, w, doc, i, pass, block);
    } else if pass <= 3 {
      VisitClones(st0, w, doc, i, pass, block);
    } else {
      hide WellFormed, Ordered, AllTags, Keeps, Settled;
      assert w.st.open[..i] == w.st.open[..i + 1][..i] && st0.open[..i] == st0.open[..i + 1][..i];
    }
  }

  lemma LastKnown(st0: State, w: Walk, doc: NodeId, i: nat, block: NodeId)
    requires WellFormed(st0.nodes) && TreeOk(st0, w, doc, i + 1, block)
    ensures w.last in w.st.nodes && w.st.nextId !in w.st.nodes
    ensures i < |w.st.open| && w.st.open[i] in w.st.nodes && w.st.nodes[w.st.open[i]].kind.IsTag()
  {
    hide WellFormed, Ordered, Settled, Drawn;
    var q := HeldAt(w.st.open, i + 1, w.last);
  }

  /** `assert(node->parent)`: every element the walk meets still has a parent. */
  lemma VisitedHasParent(st0: State, w: Walk, doc: NodeId, i: nat, block: NodeId)
    requires Valid(st0, doc) && TreeOk(st0, w, doc, i + 1, block)
    ensures w.st.open[i] in w.st.nodes && w.st.nodes[w.st.open[i]].parent.Some?
  {
    hide ChildrenLinked, LeavesBare, Drawn, ListOk;
    var n := w.st.open[i];
    var q := HeldAt(w.st.open, i + 1, w.last);
    OrderedDistinct(w.st.nodes, w.st.open);
    assert n == st0.open[i] by { assert w.st.open[..i + 1][i] == st0.open[..i + 1][i]; }
    if w.st.nodes[n].parent == None { RootPathOf(w.st.nodes, n); }
  }

  lemma VisitBookmarkOk(st0: State, w: Walk, doc: NodeId, i: nat, pass: nat, block: NodeId, fe: NodeId)
    requires WellFormed(st0.nodes) && TreeOk(st0, w, doc, i + 1, block) && BookmarkOk(w, fe) && fe != w.st.open[i]
    ensures BookmarkOk(Visit(w, i, pass, block), fe)
  {
    hide WellFormed, TreeOk, Wrap, ListOk, IndexOf, RemoveAt, KindOf;
    LastKnown(st0, w, doc, i, block);
    var h, list, n := w.st.nodes, w.st.formatting, w.st.open[i];
    var f := IndexOf(list, Ref(n));
    if f != -1 && pass > 3 {
      ListRemoved(h, list, f, fe);
    } else if f != -1 {
      WrapKeeps(h, w.last, w.st.nextId, KindOf(h, n));
      ListCloned(h, Wrap(h, w.last, w.st.nextId, KindOf(h, n)), list, f, w.st.nextId, n, fe);
    }
  }

  lemma ListRemoved(h: Heap, list: seq<Entry>, f: nat, fe: NodeId)
    requires ListOk(h, list) && f < |list| && list[f] != Ref(fe) && Ref(fe) in list
    ensures ListOk(h, RemoveAt(list, f)) && Ref(fe) in RemoveAt(list, f)
  {
    var t :| 0 <= t < |list| && list[t] == Ref(fe);
    assert RemoveAt(list, f)[if t < f then t else t - 1] == Ref(fe);
  }

  lemma ListCloned(h: Heap, h': Heap, list: seq<Entry>, f: nat, c: NodeId, n: NodeId, fe: NodeId)
    requires ListOk(h, list) && f < |list| && list[f] != Ref(fe) && Ref(fe) in list
    requires Keeps(h, h') && c in h' && n in h && h'[c].kind == KindOf(h, n) && h[n].kind.IsTag()
    ensures ListOk(h', list[f := Ref(c)]) && Ref(fe) in list[f := Ref(c)]
  {
    var t :| 0 <= t < |list| && list[t] == Ref(fe);
    assert list[f := Ref(c)][t] == Ref(fe);
  }

  /** The walk reaches the formatting element with everything in order: each pass lowers the
      position by exactly one, however the stack shrinks or changes behind it. */
  lemma {:induction false} WalkDownOk(st0: State, w: Walk, doc: NodeId, k: nat, i: nat, pass: nat, block: NodeId)
    requires WellFormed(st0.nodes) && TreeOk(st0, w, doc, i, block) && k < i
    requires BookmarkOk(w, st0.open[k])
    ensures TreeOk(st0, WalkDown(w, k, i, pass, block), doc, k + 1, block)
    ensures BookmarkOk(WalkDown(w, k, i, pass, block), st0.open[k])
    decreases i
  {
    hide TreeOk, BookmarkOk, WellFormed, Visit;
    assert i <= |w.st.open| by { TreeOkBounds(st0, w, doc, k, i, block); }
    if i > k + 1 {
      TreeOkBounds(st0, w, doc, k, i, block);
      VisitTreeOk(st0, w, doc, i - 1, pass, block);
      VisitBookmarkOk(st0, w, doc, i - 1, pass, block, st0.open[k]);
      WalkDownOk(st0, Visit(w, i - 1, pass, block), doc, k, i - 1, pass + 1, block);
    }
  }

  lemma TreeOkBounds(st0: State, w: Walk, doc: NodeId, k: nat, i: nat, block: NodeId)
    requires WellFormed(st0.nodes) && TreeOk(st0, w, doc, i, block) && k < i
    ensures i <= |w.st.open| && i <= |st0.open| && w.st.open[k] == st0.open[k]
    ensures k < i - 1 ==> st0.open[k] != w.st.open[i - 1]
  {
    OrderedDistinct(w.st.nodes, w.st.open);
    assert w.st.open[..i][k] == st0.open[..i][k];
  }

  // ---------------------------------------------------------------------------------------
  // Steps 14 to 19

  lemma AttachKeeps(h: Heap, w: NodeId, v: NodeId)
    ensures Keeps(h, Attach(h, w, v)) && Attach(h, w, v).Keys == h.Keys
  {
  }

  lemma MovedOrdered(h: Heap, stack: seq<NodeId>, a: nat, q: nat)
    requires WellFormed(h) && Ordered(h, stack) && AllTags(h, stack) && a < q < |stack|
    ensures Attachable(Detach(h, stack[q]), stack[a], stack[q])
    ensures WellFormed(Moved(h, stack[a], stack[q])) && Ordered(Moved(h, stack[a], stack[q]), stack)
    ensures Keeps(h, Moved(h, stack[a], stack[q])) && Moved(h, stack[a], stack[q]).Keys == h.Keys
  {
    hide WellFormed, Ordered, Detach, Attach;
    var v := stack[q];
    OrderedDetach(h, v, stack);
    DetachedRoot(h, v);
    DetachKeeps(h, v);
    OrderedAttach(Detach(h, v), stack, a, q);
    AttachKeeps(Detach(h, v), stack[a], v);
  }

  lemma MovedRoot(h: Heap, stack: seq<NodeId>, a: nat, q: nat, x: NodeId)
    requires WellFormed(h) && Ordered(h, stack) && AllTags(h, stack) && a < q < |stack| && x in h
    ensures WellFormed(Moved(h, stack[a], stack[q])) && x in Moved(h, stack[a], stack[q])
    ensures RootOf(Moved(h, stack[a], stack[q]), x) ==
            if Under(h, x, stack[q]) then RootOf(h, stack[a]) else RootOf(h, x)
    ensures RootOf(h, stack[a]) != stack[q]
  {
    hide ChildrenLinked, ParentsLinked, LeavesBare, Acyclic, Attach, Detach, Attachable;
    MovedOrdered(h, stack, a, q);
    RootDetach(h, stack[q], x);
    RootDetach(h, stack[q], stack[a]);
    assert !Under(h, stack[a], stack[q]);
    UnderRoot(h, stack[a]);
    UnderRoot(h, x);
    RootAttach(Detach(h, stack[q]), stack[a], stack[q], x);
  }

  lemma MovedSettled(h0: Heap, h: Heap, doc: NodeId, stack: seq<NodeId>, a: nat, q: nat)
    requires WellFormed(h0) && WellFormed(h) && Ordered(h, stack) && AllTags(h, stack) && a < q < |stack|
    requires Settled(h0, h, doc, stack[q]) && stack[a] in h0 && RootOf(h0, stack[a]) == doc
    ensures WellFormed(Moved(h, stack[a], stack[q]))
    ensures Settled(h0, Moved(h, stack[a], stack[q]), doc, doc)
  {
    hide ChildrenLinked, ParentsLinked, LeavesBare, Acyclic, Moved, Ordered;
    var h' := Moved(h, stack[a], stack[q]);
    MovedOrdered(h, stack, a, q);
    forall x | x in h' && (x in h0 ==> RootOf(h0, x) == doc) ensures RootOf(h', x) == doc {
      MovedRoot(h, stack, a, q, x);
      if RootOf(h, x) == stack[q] { UnderRoot(h, x); }
    }
  }

  lemma RootInterpose(h: Heap, b: NodeId, f: NodeId, x: NodeId)
    requires Interposable(h, b, f) && x in h
    ensures WellFormed(Interpose(h, b, f)) && x in Interpose(h, b, f)
    ensures RootOf(Interpose(h, b, f), x) == if x == f then RootOf(h, b) else RootOf(h, x)
  {
    InterposePath(h, b, f, x);
  }

  lemma AddThenInterpose(h: Heap, b: NodeId, c: NodeId, kind: Kind)
    requires WellFormed(h) && b in h && h[b].kind.HasChildren() && c !in h && kind.HasChildren()
    ensures Interposable(Add(h, c, kind), b, c)
    ensures var h' := Interpose(Add(h, c, kind), b, c); Keeps(h, h') && h'.Keys == h.Keys + {c} && h'[c].kind == kind
  {
    hide WellFormed;
    AddWellFormed(h, c, kind);
  }

  lemma AddInterposeRoot(h: Heap, b: NodeId, c: NodeId, kind: Kind, x: NodeId)
    requires WellFormed(h) && b in h && h[b].kind.HasChildren() && c !in h && kind.HasChildren() && (x in h || x == c)
    ensures WellFormed(Interpose(Add(h, c, kind), b, c)) && x in Interpose(Add(h, c, kind), b, c)
    ensures RootOf(Interpose(Add(h, c, kind), b, c), x) == RootOf(h, if x == c then b else x)
  {
    hide ChildrenLinked, ParentsLinked, LeavesBare, Acyclic, Interpose;
    AddThenInterpose(h, b, c, kind);
    AddPaths(h, c, kind);
    RootInterpose(Add(h, c, kind), b, c, x);
  }

  lemma AddInterposeSettled(h0: Heap, h: Heap, doc: NodeId, b: NodeId, c: NodeId, kind: Kind)
    requires WellFormed(h0) && WellFormed(h) && b in h && h[b].kind.HasChildren() && c !in h && kind.HasChildren()
    requires Settled(h0, h, doc, doc) && RootOf(h, b) == doc
    ensures WellFormed(Interpose(Add(h, c, kind), b, c))
    ensures Settled(h0, Interpose(Add(h, c, kind), b, c), doc, doc)
  {
    hide ChildrenLinked, ParentsLinked, LeavesBare, Acyclic, Interpose, Add;
    var h' := Interpose(Add(h, c, kind), b, c);
    AddThenInterpose(h, b, c, kind);
    InterposeWellFormed(Add(h, c, kind), b, c);
    forall x | x in h' && (x in h0 ==> RootOf(h0, x) == doc) ensures RootOf(h', x) == doc {
      AddInterposeRoot(h, b, c, kind, x);
    }
  }

  /** Steps 15 to 17, 19: the clone `c` of the formatting element goes between the furthest
      block and its children, and next to the furthest block on the stack. */
  lemma InterposedOrdered(h: Heap, stack: seq<NodeId>, m: nat, c: NodeId, kind: Kind)
    requires WellFormed(h) && Ordered(h, stack) && AllTags(h, stack) && m < |stack|
    requires c !in h && kind.HasChildren()
    ensures var h' := Interpose(Add(h, c, kind), stack[m], c);
            WellFormed(h') && Ordered(h', InsertAt(stack, m + 1, c))
  {
    hide WellFormed, Ordered, Interposable, Interpose, Add, InsertAt;
    AllTagsAt(h, stack, m);
    NotOnStack(h, stack, c);
    OrderedAdd(h, stack, c, kind);
    AddThenInterpose(h, stack[m], c, kind);
    OrderedInterpose(Add(h, c, kind), stack, m, c);
  }

  lemma AllTagsAt(h: Heap, stack: seq<NodeId>, m: nat)
    requires AllTags(h, stack) && m < |stack|
    ensures stack[m] in h && h[stack[m]].kind.HasChildren()
  {
  }

  lemma NotOnStack(h: Heap, stack: seq<NodeId>, c: NodeId)
    requires AllTags(h, stack) && c !in h
    ensures c !in stack
  {
  }

  // ---------------------------------------------------------------------------------------
  // A whole round

  lemma WalkStarts(st: State, doc: NodeId, k: nat, m: nat)
    requires Valid(st, doc) && k < m < |st.open| && Ref(st.open[k]) in st.formatting
    ensures var w := Walk(st, st.open[m], IndexOf(st.formatting, Ref(st.open[k])) + 1);
            WellFormed(st.nodes) && TreeOk(st, w, doc, m, st.open[m]) && BookmarkOk(w, st.open[k])
  {
    hide ChildrenLinked, ParentsLinked, LeavesBare, Ordered;
    assert HeldFrom(st.open, m, st.open[m]);
  }

  lemma WalkedOk(st: State, doc: NodeId, k: nat, m: nat)
    requires Valid(st, doc) && k < m < |st.open| && Ref(st.open[k]) in st.formatting
    ensures WellFormed(st.nodes) && TreeOk(st, Walked(st, k, m), doc, k + 1, st.open[m])
    ensures BookmarkOk(Walked(st, k, m), st.open[k])
  {
    hide ChildrenLinked, ParentsLinked, LeavesBare, Acyclic, TreeOk, BookmarkOk, WalkDown, Valid;
    WalkStarts(st, doc, k, m);
    WalkDownOk(st, Walk(st, st.open[m], IndexOf(st.formatting, Ref(st.open[k])) + 1), doc, k, m, 1, st.open[m]);
  }

  /** At step 18 the formatting element is still listed and the bookmark still points into the
      list, so step 18 puts the new element into the list in the old one's stead. */
  lemma BookmarkHolds(st: State, doc: NodeId, k: nat, m: nat)
    requires Valid(st, doc) && k < m < |st.open| && Ref(st.open[k]) in st.formatting
    ensures var w, fe := Walked(st, k, m), st.open[k];
            Ref(fe) in w.st.formatting && 0 <= FinalBookmark(w, fe) < |w.st.formatting|
  {
    WalkedOk(st, doc, k, m);
  }

  /** Where the walk leaves the formatting element, the chain's top and the furthest block. */
  lemma WalkedOpen(st: State, doc: NodeId, k: nat, m: nat) returns (q: nat, b: nat)
    requires Valid(st, doc) && 0 < k < m < |st.open| && Ref(st.open[k]) in st.formatting
    ensures var open := Walked(st, k, m).st.open;
            && k < q < |open| && open[q] == Walked(st, k, m).last
            && k < b < |open| && open[b] == st.open[m]
            && open[..k + 1] == st.open[..k + 1]
            && IndexOf(open, st.open[k]) == k
            && IndexOf(RemoveAt(open, k), st.open[m]) == b - 1
  {
    hide WellFormed, Settled, Keeps, AllTags, Walked, Valid, Ordered;
    WalkedOk(st, doc, k, m);
    q, b := OpenPlaces(st, Walked(st, k, m), doc, k, st.open[m]);
  }

  lemma OpenPlaces(st: State, w: Walk, doc: NodeId, k: nat, block: NodeId) returns (q: nat, b: nat)
    requires WellFormed(st.nodes) && TreeOk(st, w, doc, k + 1, block)
    ensures var open := w.st.open;
            && k < q < |open| && open[q] == w.last && k < b < |open| && open[b] == block
            && open[..k + 1] == st.open[..k + 1]
            && IndexOf(open, st.open[k]) == k && IndexOf(RemoveAt(open, k), block) == b - 1
  {
    hide WellFormed, Settled, Keeps, AllTags, Ordered, IndexOf, RemoveAt, Distinct, Drawn, FreshFrom, HeldFrom;
    var open := w.st.open;
    q := HeldAt(open, k + 1, w.last);
    b := HeldAt(open, k + 1, block);
    OrderedDistinct(w.st.nodes, open);
    assert open[..k + 1][k] == open[k] && st.open[..k + 1][k] == st.open[k];
    DistinctIndex(open, k);
    OrderedRemoveAt(w.st.nodes, open, k);
    OrderedDistinct(w.st.nodes, RemoveAt(open, k));
    BehindRemoved(open, k, b);
    DistinctIndex(RemoveAt(open, k), b - 1);
  }

  lemma TagsRemoved(h: Heap, stack: seq<NodeId>, k: nat)
    requires AllTags(h, stack) && k < |stack|
    ensures AllTags(h, RemoveAt(stack, k))
  {}

  lemma BehindRemoved(s: seq<NodeId>, k: nat, b: nat)
    requires k < b < |s|
    ensures RemoveAt(s, k)[b - 1] == s[b]
  {}

  lemma DistinctIndex(s: seq<NodeId>, k: nat)
    requires Distinct(s) && k < |s|
    ensures IndexOf(s, s[k]) == k
  {
  }

  /** Steps 14 to 17 and 19 on the tree and the stack the walk left. */
  lemma FinishTree(st: State, w: Walk, doc: NodeId, k: nat, q: nat, b: nat)
    requires WellFormed(st.nodes) && 0 < k < q < |w.st.open| && k < b < |w.st.open|
    requires TreeOk(st, w, doc, k + 1, w.st.open[b]) && w.st.open[q] == w.last
    requires AllTags(st.nodes, st.open) && AllAttached(st.nodes, st.open, doc)
    requires w.st.open[b] in st.nodes && RootOf(st.nodes, w.st.open[b]) == doc
    ensures var open, c, moved := RemoveAt(w.st.open, k), w.st.nextId, Moved(w.st.nodes, st.open[k - 1], w.last);
            var kind := KindOf(moved, st.open[k]);
            var h' := Interpose(Add(moved, c, kind), w.st.open[b], c);
            && WellFormed(h') && Ordered(h', InsertAt(open, b, c)) && AllTags(h', InsertAt(open, b, c))
            && Keeps(st.nodes, h') && Keeps(w.st.nodes, h') && Settled(st.nodes, h', doc, doc)
            && h'.Keys == w.st.nodes.Keys + {c} && h'[c].kind == KindOf(st.nodes, st.open[k])
  {
    hide ChildrenLinked, ParentsLinked, LeavesBare, Acyclic, Ordered, Moved, Interpose, Add, Settled, Keeps, HeldFrom;
    hide AllTags, RemoveAt, InsertAt, Drawn;
    var h, stack, block := w.st.nodes, w.st.open, w.st.open[b];
    AllTagsAt(st.nodes, st.open, k);
    AllTagsAt(h, stack, b);
    assert stack[..k + 1][k] == st.open[k] && stack[..k + 1][k - 1] == st.open[k - 1];
    var moved, c := Moved(h, stack[k - 1], stack[q]), w.st.nextId;
    MovedOrdered(h, stack, k - 1, q);
    MovedSettled(st.nodes, h, doc, stack, k - 1, q);
    KeepsTrans(st.nodes, h, moved);
    KeepsTags(h, moved, stack);
    KeepsAt(st.nodes, moved, st.open[k]);
    KeepsAt(h, moved, block);
    var kind := moved[st.open[k]].kind;
    var open := RemoveAt(stack, k);
    OrderedRemoveAt(moved, stack, k);
    TagsRemoved(moved, stack, k);
    BehindRemoved(stack, k, b);
    InterposedOrdered(moved, open, b - 1, c, kind);
    AddThenInterpose(moved, block, c, kind);
    SettledAt(st.nodes, moved, doc, block);
    AddInterposeSettled(st.nodes, moved, doc, block, c, kind);
    var h' := Interpose(Add(moved, c, kind), block, c);
    KeepsTrans(st.nodes, moved, h');
    KeepsTrans(h, moved, h');
    InsertTags(moved, h', open, b, c);
  }

  lemma KeepsTags(h: Heap, h': Heap, stack: seq<NodeId>)
    requires AllTags(h, stack) && Keeps(h, h')
    ensures AllTags(h', stack)
  {
  }

  lemma KeepsAt(h: Heap, h': Heap, x: NodeId)
    requires Keeps(h, h') && x in h
    ensures x in h' && h'[x].kind == h[x].kind
  {
  }

  lemma InsertTags(h: Heap, h': Heap, stack: seq<NodeId>, i: nat, c: NodeId)
    requires AllTags(h, stack) && Keeps(h, h') && i <= |stack| && c in h' && h'[c].kind.IsTag()
    ensures AllTags(h', InsertAt(stack, i, c))
  {
  }

  lemma SettledAt(h0: Heap, h: Heap, doc: NodeId, x: NodeId)
    requires Acyclic(h0) && Acyclic(h) && Settled(h0, h, doc, doc) && x in h0 && x in h && RootOf(h0, x) == doc
    ensures RootOf(h, x) == doc
  {
  }

  /** The round's pieces, with every search resolved. */
  lemma RoundPieces(st: State, doc: NodeId, k: nat, m: nat) returns (q: nat, b: nat)
    requires Valid(st, doc) && 0 < k < m < |st.open| && Ref(st.open[k]) in st.formatting
    ensures var w, r := Walked(st, k, m), Round(st, k, m);
            var moved, c := Moved(w.st.nodes, st.open[k - 1], w.last), w.st.nextId;
            && k < q < |w.st.open| && w.st.open[q] == w.last
            && k < b < |w.st.open| && w.st.open[b] == st.open[m]
            && r.nodes == Interpose(Add(moved, c, KindOf(moved, st.open[k])), st.open[m], c)
            && r.nextId == c + 1 && r.open == InsertAt(RemoveAt(w.st.open, k), b, c)
            && 0 <= FinalBookmark(w, st.open[k]) <= |RemoveFirst(w.st.formatting, Ref(st.open[k]))|
            && r.formatting ==
               InsertAt(RemoveFirst(w.st.formatting, Ref(st.open[k])), FinalBookmark(w, st.open[k]), Ref(c))
  {
    hide Moved, Interpose, Add, Walked, Valid, RemoveAt, InsertAt;
    q, b := WalkedOpen(st, doc, k, m);
    BookmarkHolds(st, doc, k, m);
  }

  lemma DrawnInsert(st: State, stack: seq<NodeId>, k: nat, b: nat, c: NodeId)
    requires Drawn(st, stack) && c !in st.nodes && k < |stack| && b < |stack|
    ensures Drawn(st, InsertAt(RemoveAt(stack, k), b, c))
  {
  }

  lemma RoundTree(st: State, doc: NodeId, k: nat, m: nat)
    requires Valid(st, doc) && 0 < k < m < |st.open| && Ref(st.open[k]) in st.formatting
    ensures var r := Round(st, k, m);
            && WellFormed(st.nodes) && WellFormed(r.nodes) && Ordered(r.nodes, r.open) && AllTags(r.nodes, r.open)
            && Drawn(st, r.open) && Keeps(st.nodes, r.nodes) && Settled(st.nodes, r.nodes, doc, doc)
            && Keeps(Walked(st, k, m).st.nodes, r.nodes)
            && FreshFrom(r.nodes, r.nextId) && r.nextId == Walked(st, k, m).st.nextId + 1
            && r.nextId - 1 in r.nodes && r.nodes[r.nextId - 1].kind == KindOf(st.nodes, st.open[k])
  {
    hide ChildrenLinked, ParentsLinked, LeavesBare, Acyclic, Ordered, Moved, Interpose, Add, Walked, Settled, Keeps,
      HeldFrom, AllTags;
    hide Round, RemoveAt, InsertAt, Drawn, ListOk, KindOf, RemoveFirst;
    var w := Walked(st, k, m);
    WalkedOk(st, doc, k, m);
    var q, b := RoundPieces(st, doc, k, m);
    FinishTree(st, w, doc, k, q, b);
    KeepsNot(st.nodes, w.st.nodes, w.st.nextId);
    DrawnInsert(st, w.st.open, k, b, w.st.nextId);
  }

  lemma KeepsNot(h: Heap, h': Heap, x: NodeId)
    requires Keeps(h, h') && x !in h'
    ensures x !in h
  {
  }

  lemma ListInsert(h: Heap, h': Heap, list: seq<Entry>, e: Entry, i: nat, c: NodeId)
    requires ListOk(h, list) && Keeps(h, h') && i <= |RemoveFirst(list, e)| && c in h' && h'[c].kind.IsTag()
    ensures ListOk(h', InsertAt(RemoveFirst(list, e), i, Ref(c)))
  {
    var r := RemoveFirst(list, e);
    var s := InsertAt(r, i, Ref(c));
    assert ListOk(h, r) by { ListWithout(h, list, e); }
    forall j | 0 <= j < |s| && s[j].Ref? ensures s[j].id in h' && h'[s[j].id].kind.IsTag() {
      hide RemoveFirst;
      if j != i {
        var t := if j < i then j else j - 1;
        assert s[j] == r[t];
      }
    }
  }

  lemma ListWithout(h: Heap, list: seq<Entry>, e: Entry)
    requires ListOk(h, list)
    ensures ListOk(h, RemoveFirst(list, e))
  {
    var f := IndexOf(list, e);
    if f != -1 {
      var r := RemoveAt(list, f);
      forall j | 0 <= j < |r| && r[j].Ref? ensures r[j].id in h && h[r[j].id].kind.IsTag() {
        assert r[j] == list[if j < f then j else j + 1];
      }
    }
  }

  lemma RoundList(st: State, doc: NodeId, k: nat, m: nat)
    requires Valid(st, doc) && 0 < k < m < |st.open| && Ref(st.open[k]) in st.formatting
    ensures ListOk(Round(st, k, m).nodes, Round(st, k, m).formatting)
  {
    hide WellFormed, Ordered, Moved, Interpose, Add, Walked, Settled, Round, RemoveAt, InsertAt, RemoveFirst, ListOk, Keeps;
    var w := Walked(st, k, m);
    WalkedOk(st, doc, k, m);
    RoundTree(st, doc, k, m);
    var q, b := RoundPieces(st, doc, k, m);
    ListInsert(w.st.nodes, Round(st, k, m).nodes, w.st.formatting, Ref(st.open[k]), FinalBookmark(w, st.open[k]), w.st.nextId);
  }

  lemma RootIsParentless(h: Heap, doc: NodeId)
    requires Acyclic(h) && doc in h && RootOf(h, doc) == doc
    ensures h[doc].parent == None
  {
  }

  lemma DrawnAttached(st: State, h: Heap, stack: seq<NodeId>, doc: NodeId)
    requires Acyclic(st.nodes) && Acyclic(h) && AllAttached(st.nodes, st.open, doc)
    requires Drawn(st, stack) && AllTags(h, stack) && Settled(st.nodes, h, doc, doc)
    ensures AllAttached(h, stack, doc)
  {
  }

  /** One round of the adoption agency keeps the tree well formed and the stack in order, keeps
      every node, leaves nothing that hung below the document hanging elsewhere, and attaches
      every node it creates. */
  lemma RoundKeepsValid(st: State, doc: NodeId, k: nat, m: nat)
    requires Valid(st, doc) && 0 < k < m < |st.open| && Ref(st.open[k]) in st.formatting
    ensures var r := Round(st, k, m);
            && Valid(r, doc) && Keeps(st.nodes, r.nodes)
            && (forall x :: x in st.nodes && RootOf(st.nodes, x) == doc ==> RootOf(r.nodes, x) == doc)
            && (forall x :: x in r.nodes && x !in st.nodes ==> RootOf(r.nodes, x) == doc)
  {
    hide ChildrenLinked, ParentsLinked, LeavesBare, Acyclic, Ordered, Round, ListOk, AllTags;
    RoundTree(st, doc, k, m);
    RoundList(st, doc, k, m);
    var r := Round(st, k, m);
    RootPathOf(st.nodes, doc);
    RootIsParentless(r.nodes, doc);
    DrawnAttached(st, r.nodes, r.open, doc);
  }
}
