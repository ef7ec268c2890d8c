/** The stack of open elements along the last-child path of the document: when the elements that take
    new content are the ones at its end. */
module Spine {
  import opened Options
  import opened Sequences
  import opened Dom
  import opened DomOps
  import opened OpenStack
  import opened DocumentOrder
  import opened LeafOrder
  import opened Adoption
  import opened AdoptionLeaves

  // ---------------------------------------------------------------------------------------
  // Last-child paths

  lemma {:induction false} LastPathUnder(h: Heap, u: NodeId, v: NodeId)
    requires WellFormed(h) && v in h && OnLastPath(h, u, v)
    ensures u in h && Under(h, v, u) && v != u
    decreases |PathOf(h, v)|
  {
    var p := h[v].parent.value;
    ChildPath(h, p, v);
    if p != u { LastPathUnder(h, u, p); }
    LastPathNothingAfter(h, u, v);
  }

  lemma {:induction false} LastPathTrans(h: Heap, u: NodeId, v: NodeId, w: NodeId)
    requires WellFormed(h) && v in h && w in h && OnLastPath(h, u, v) && OnLastPath(h, v, w)
    ensures OnLastPath(h, u, w)
    decreases |PathOf(h, w)|
  {
    hide LeavesBare, Acyclic;
    var p := h[w].parent.value;
    ChildPath(h, p, w);
    if p != v { LastPathTrans(h, u, v, p); }
  }

  ghost predicate KidsKept(h: Heap, h': Heap, y: NodeId) {
    y in h && y in h' && h'[y].children == h[y].children
  }

  /** `y` is strictly between `u` and `v`. */
  ghost predicate Inside(h: Heap, u: NodeId, v: NodeId, y: NodeId)
    requires Acyclic(h) && v in h
  {
    y in h && y != u && y != v && Under(h, v, y) && Under(h, y, u)
  }

  /** A last-child path stays one where the child vectors along it stay, also below another top that has
      taken over the children. */
  lemma {:induction false} LastPathKept(h: Heap, h': Heap, u: NodeId, u': NodeId, v: NodeId)
    requires WellFormed(h) && WellFormed(h') && v in h && OnLastPath(h, u, v)
    requires u in h && u' in h' && h'[u'].children == h[u].children
    requires forall y {:trigger KidsKept(h, h', y)} :: Inside(h, u, v, y) ==> KidsKept(h, h', y)
    ensures v in h' && OnLastPath(h', u', v)
    decreases |PathOf(h, v)|
  {
    hide LeavesBare, Acyclic;
    var p := h[v].parent.value;
    ChildPath(h, p, v);
    KidAt(h, p, v);
    if p == u {
      LastChild(h', u', v);
    } else {
      LastPathUnder(h, u, p);
      SelfIn(h, p);
      AncestorNotBelow(h, p, v);
      NotOwnParent(h, v);
      assert Inside(h, u, v, p);
      forall y | Inside(h, u, p, y) ensures KidsKept(h, h', y) {
        assert Inside(h, u, v, y);
      }
      LastPathKept(h, h', u, u', p);
      assert KidsKept(h, h', p);
      LastChild(h', p, v);
    }
  }

  lemma LastChild(h: Heap, p: NodeId, v: NodeId)
    requires WellFormed(h) && p in h && h[p].children != [] && h[p].children[|h[p].children| - 1] == v
    ensures v in h && h[v].parent == Some(p) && h[v].index == |h[p].children| - 1 && OnLastPath(h, p, v)
  {
  }

  // ---------------------------------------------------------------------------------------
  // The spine

  /** What an open element stands on: the one before it on the stack, or the document. */
  function Beneath(stack: seq<NodeId>, doc: NodeId, i: nat): NodeId
    requires i < |stack|
  {
    if i == 0 then doc else stack[i - 1]
  }

  ghost predicate Stands(h: Heap, stack: seq<NodeId>, doc: NodeId, i: nat)
    requires WellFormed(h)
  {
    i < |stack| && stack[i] in h && OnLastPath(h, Beneath(stack, doc, i), stack[i])
  }

  /** Every open element ends a last-child path from the one before it. */
  ghost predicate OnSpine(h: Heap, stack: seq<NodeId>, doc: NodeId) {
    WellFormed(h) && forall i: nat :: i < |stack| ==> Stands(h, stack, doc, i)
  }

  lemma {:induction false} SpineBetween(h: Heap, stack: seq<NodeId>, doc: NodeId, i: nat, j: nat)
    requires OnSpine(h, stack, doc) && i <= j < |stack|
    ensures stack[j] in h && OnLastPath(h, Beneath(stack, doc, i), stack[j])
  {
    hide WellFormed, OnLastPath;
    assert Stands(h, stack, doc, j);
    if i < j {
      SpineBetween(h, stack, doc, i, j - 1);
      LastPathTrans(h, Beneath(stack, doc, i), stack[j - 1], stack[j]);
    }
  }

  lemma SpineRemoveAt(h: Heap, stack: seq<NodeId>, doc: NodeId, k: nat)
    requires OnSpine(h, stack, doc) && k < |stack|
    ensures OnSpine(h, RemoveAt(stack, k), doc)
  {
    hide WellFormed, OnLastPath;
    var s := RemoveAt(stack, k);
    forall i: nat | i < |s| ensures Stands(h, s, doc, i) {
      var j := if i < k then i else i + 1;
      assert s[i] == stack[j];
      assert Stands(h, stack, doc, j);
      if i == k { SpineBetween(h, stack, doc, k, k + 1); }
    }
  }

  lemma SpinePrefix(h: Heap, stack: seq<NodeId>, doc: NodeId, k: nat)
    requires OnSpine(h, stack, doc) && k <= |stack|
    ensures OnSpine(h, stack[..k], doc)
  {
    hide WellFormed, OnLastPath;
    forall i: nat | i < k ensures Stands(h, stack[..k], doc, i) { assert Stands(h, stack, doc, i); }
  }

  lemma SpinePush(h: Heap, stack: seq<NodeId>, doc: NodeId, c: NodeId)
    requires OnSpine(h, stack, doc) && c in h
    requires OnLastPath(h, if stack == [] then doc else stack[|stack| - 1], c)
    ensures OnSpine(h, stack + [c], doc)
  {
    hide WellFormed, OnLastPath;
    var s := stack + [c];
    forall i: nat | i < |s| ensures Stands(h, s, doc, i) {
      if i < |stack| { assert Stands(h, stack, doc, i); }
    }
  }

  /** A step that changes no children but those of the current node. */
  lemma SpineKept(h: Heap, h': Heap, stack: seq<NodeId>, doc: NodeId)
    requires OnSpine(h, stack, doc) && Ordered(h, stack) && WellFormed(h') && doc in h && doc !in stack
    requires forall y {:trigger KidsKept(h, h', y)} ::
      y in h && (stack != [] ==> y != stack[|stack| - 1]) ==> KidsKept(h, h', y)
    ensures OnSpine(h', stack, doc)
  {
    hide ChildrenLinked, ParentsLinked, LeavesBare, Acyclic, OnLastPath;
    forall i: nat | i < |stack| ensures Stands(h', stack, doc, i) {
      assert Stands(h, stack, doc, i);
      var u, v, top := Beneath(stack, doc, i), stack[i], stack[|stack| - 1];
      OrderedDistinct(h, stack);
      assert KidsKept(h, h', u);
      assert v == top || !Under(h, v, top);
      forall y | Inside(h, u, v, y) ensures KidsKept(h, h', y) { }
      LastPathKept(h, h', u, u, v);
    }
  }

  // ---------------------------------------------------------------------------------------
  // The walk of step 13

  /** An open element from `i` on will still be listed when the walk from `m` meets it at pass 4 or later;
      step 13.5 takes it off the list only. */
  predicate Lingers(st: State, i: nat, m: nat)
    requires m <= |st.open|
  {
    exists j :: i <= j < m - 3 && Ref(st.open[j]) in st.formatting
  }

  /** From the chain's top at `q` to the block at `b`, each element is the only child of the one before. */
  ghost predicate Chain(w: Walk, q: nat, b: nat) {
    && q <= b < |w.st.open| && w.st.open[q] == w.last
    && forall j {:trigger w.st.open[j]} :: q < j <= b ==> OnlyChild(w.st.nodes, w.st.open[j - 1], w.st.open[j])
  }

  ghost predicate OnlyChild(h: Heap, p: NodeId, v: NodeId) {
    p in h && h[p].children == [v]
  }

  ghost predicate ListedAlike(st: State, list: seq<Entry>, i: nat) {
    i <= |st.open| && forall j :: 0 <= j < i ==> (Ref(st.open[j]) in list <==> Ref(st.open[j]) in st.formatting)
  }

  /** While step 13 has still to visit the positions below `i`: nothing but lingering elements stands
      between them and the chain. */
  ghost predicate Climbs(st: State, w: Walk, i: nat, m: nat, q: nat, b: nat) {
    && i <= m < |st.open| && i <= q && Chain(w, q, b) && w.st.open[b..] == st.open[m..]
    && ListedAlike(st, w.st.formatting, i) && (i < q <==> Lingers(st, i, m))
  }

  lemma ClimbsDrop(st: State, w: Walk, doc: NodeId, i: nat, m: nat, q: nat, b: nat, block: NodeId)
    requires WellFormed(st.nodes) && TreeOk(st, w, doc, i + 1, block) && Climbs(st, w, i + 1, m, q, b)
    requires m - i > 3 && Ref(w.st.open[i]) in w.st.formatting
    ensures Climbs(st, Visit(w, i, m - i, block), i, m, q, b)
  {
    hide WellFormed, Ordered, Settled, Keeps, AllTags, HeldFrom, Drawn, OnlyChild;
    var n, f := w.st.open[i], IndexOf(w.st.formatting, Ref(w.st.open[i]));
    assert n == st.open[i] by { assert w.st.open[..i + 1][i] == st.open[..i + 1][i]; }
    OriginalsDiffer(st, w, doc, i, block);
    forall j | 0 <= j < i
      ensures Ref(st.open[j]) in RemoveAt(w.st.formatting, f) <==> Ref(st.open[j]) in w.st.formatting
    {
      RemovedOther(w.st.formatting, f, Ref(st.open[j]));
    }
  }

  /** The open elements still to be visited differ from each other. */
  lemma OriginalsDiffer(st: State, w: Walk, doc: NodeId, i: nat, block: NodeId)
    requires WellFormed(st.nodes) && TreeOk(st, w, doc, i + 1, block)
    ensures forall j :: 0 <= j < i ==> st.open[j] != st.open[i]
  {
    hide WellFormed, Settled, Keeps, AllTags, HeldFrom, Drawn, Ordered;
    OrderedDistinct(w.st.nodes, w.st.open);
    forall j | 0 <= j < i ensures st.open[j] != st.open[i] {
      assert w.st.open[..i + 1][j] == st.open[..i + 1][j] && w.st.open[..i + 1][i] == st.open[..i + 1][i];
    }
  }

  lemma RemovedOther<T>(s: seq<T>, f: nat, x: T)
    requires f < |s| && s[f] != x
    ensures x in RemoveAt(s, f) <==> x in s
  {
    var r := RemoveAt(s, f);
    if x in s {
      var t :| 0 <= t < |s| && s[t] == x;
      assert r[if t < f then t else t - 1] == x;
    }
    if x in r {
      var t :| 0 <= t < |r| && r[t] == x;
      assert s[if t < f then t else t + 1] == x;
    }
  }

  lemma ClimbsSkip(st: State, w: Walk, doc: NodeId, i: nat, m: nat, q: nat, b: nat, block: NodeId)
    requires WellFormed(st.nodes) && TreeOk(st, w, doc, i + 1, block) && Climbs(st, w, i + 1, m, q, b)
    requires Ref(w.st.open[i]) !in w.st.formatting
    ensures Climbs(st, Visit(w, i, m - i, block), i, m, q - 1, b - 1)
  {
    hide WellFormed, Ordered, Settled, Keeps, AllTags, HeldFrom, Drawn, OnlyChild, RemoveAt;
    assert w.st.open[i] == st.open[i] by { assert w.st.open[..i + 1][i] == st.open[..i + 1][i]; }
    var open := RemoveAt(w.st.open, i);
    RemovedBehind(w.st.open, i);
    assert open[b - 1..] == w.st.open[b..];
    forall j | q - 1 < j <= b - 1 ensures OnlyChild(w.st.nodes, open[j - 1], open[j]) {
      assert OnlyChild(w.st.nodes, w.st.open[j], w.st.open[j + 1]);
    }
  }

  lemma RemovedBehind<T>(s: seq<T>, i: nat)
    requires i < |s|
    ensures forall j :: i <= j < |s| - 1 ==> RemoveAt(s, i)[j] == s[j + 1]
  {
  }

  lemma ClimbsClone(st: State, w: Walk, doc: NodeId, i: nat, m: nat, q: nat, b: nat, block: NodeId)
    requires WellFormed(st.nodes) && TreeOk(st, w, doc, i + 1, block) && Climbs(st, w, i + 1, m, q, b)
    requires m - i <= 3 && Ref(w.st.open[i]) in w.st.formatting
    ensures Climbs(st, Visit(w, i, m - i, block), i, m, i, b)
  {
    hide WellFormed, Ordered, Settled, Keeps, AllTags, HeldFrom, Drawn, OnlyChild, Wrap;
    assert q == i + 1;
    var open, c, f := w.st.open, w.st.nextId, IndexOf(w.st.formatting, Ref(w.st.open[i]));
    assert open[i] == st.open[i] by { assert open[..i + 1][i] == st.open[..i + 1][i]; }
    OriginalsDiffer(st, w, doc, i, block);
    LastKnown(st, w, doc, i, block);
    var h' := Wrap(w.st.nodes, w.last, c, KindOf(w.st.nodes, open[i]));
    var s := open[i := c];
    forall j | i < j <= b ensures OnlyChild(h', s[j - 1], s[j]) {
      if j == i + 1 {
        WrapsOnly(w.st.nodes, w.last, c, KindOf(w.st.nodes, open[i]));
      } else {
        ChainWrapped(st, w, doc, i, q, b, block, j);
      }
    }
    assert s[b..] == open[b..];
    forall j | 0 <= j < i
      ensures Ref(st.open[j]) in w.st.formatting[f := Ref(c)] <==> Ref(st.open[j]) in w.st.formatting
    {
      OriginalKnown(st, w, doc, i, block, j);
      ReplacedOther(w.st.formatting, f, Ref(c), Ref(st.open[j]));
    }
  }

  lemma OriginalKnown(st: State, w: Walk, doc: NodeId, i: nat, block: NodeId, j: nat)
    requires WellFormed(st.nodes) && TreeOk(st, w, doc, i + 1, block) && j <= i
    ensures st.open[j] == w.st.open[j] && st.open[j] in w.st.nodes
  {
    hide WellFormed, Ordered, Settled, Keeps, HeldFrom, Drawn;
    assert w.st.open[..i + 1][j] == st.open[..i + 1][j];
  }

  lemma ReplacedOther<T>(s: seq<T>, f: nat, y: T, x: T)
    requires f < |s| && s[f] != x && y != x
    ensures x in s[f := y] <==> x in s
  {
    if x in s {
      var t :| 0 <= t < |s| && s[t] == x;
      assert s[f := y][t] == x;
    }
  }

  lemma WrapsOnly(h: Heap, v: NodeId, c: NodeId, kind: Kind)
    requires WellFormed(h) && v in h && c !in h
    ensures OnlyChild(Wrap(h, v, c, kind), c, v)
  {
    FreshKept(h, v, c, kind);
  }

  /** Wrapping the chain's top leaves the chain alone. */
  lemma ChainWrapped(st: State, w: Walk, doc: NodeId, i: nat, q: nat, b: nat, block: NodeId, j: nat)
    requires WellFormed(st.nodes) && TreeOk(st, w, doc, i + 1, block) && Chain(w, q, b) && q == i + 1 && q < j <= b
    ensures OnlyChild(Wrap(w.st.nodes, w.last, w.st.nextId, KindOf(w.st.nodes, w.st.open[i])), w.st.open[j - 1], w.st.open[j])
  {
    hide Settled, Keeps, AllTags, HeldFrom, Drawn, Ordered, Detach, Attach, LeavesBare, Acyclic;
    var h, p, c := w.st.nodes, w.st.open[j - 1], w.st.nextId;
    var kind := KindOf(h, w.st.open[i]);
    LastKnown(st, w, doc, i, block);
    OrderedDistinct(h, w.st.open);
    assert OnlyChild(h, p, w.st.open[j]);
    if h[w.last].parent == Some(p) { KidAt(h, p, w.last); }
    AddWellFormed(h, c, kind);
    AddSame(h, c, kind, p);
    DetachSame(Add(h, c, kind), w.last, p);
    AttachSame(Detach(Add(h, c, kind), w.last), c, w.last, p);
  }

  lemma VisitClimbs(st: State, w: Walk, doc: NodeId, i: nat, m: nat, q: nat, b: nat, block: NodeId) returns (q': nat, b': nat)
    requires WellFormed(st.nodes) && TreeOk(st, w, doc, i + 1, block) && Climbs(st, w, i + 1, m, q, b)
    ensures Climbs(st, Visit(w, i, m - i, block), i, m, q', b')
  {
    hide TreeOk, WellFormed, Climbs, Visit;
    assert i < |w.st.open| && i < m && 0 < q && 0 < b by { ClimbBounds(st, w, doc, i, m, q, b, block); }
    if Ref(w.st.open[i]) !in w.st.formatting {
      ClimbsSkip(st, w, doc, i, m, q, b, block);
      q', b' := q - 1, b - 1;
    } else if m - i > 3 {
      ClimbsDrop(st, w, doc, i, m, q, b, block);
      q', b' := q, b;
    } else {
      ClimbsClone(st, w, doc, i, m, q, b, block);
      q', b' := i, b;
    }
  }

  lemma ClimbBounds(st: State, w: Walk, doc: NodeId, i: nat, m: nat, q: nat, b: nat, block: NodeId)
    requires WellFormed(st.nodes) && TreeOk(st, w, doc, i + 1, block) && Climbs(st, w, i + 1, m, q, b)
    ensures i < |w.st.open| && i < m && 0 < q && 0 < b
  {
  }

  lemma {:induction false} WalkDownClimbs(st: State, w: Walk, doc: NodeId, k: nat, i: nat, m: nat, q: nat, b: nat, block: NodeId)
    returns (q': nat, b': nat)
    requires WellFormed(st.nodes) && TreeOk(st, w, doc, i, block) && k < i && Climbs(st, w, i, m, q, b)
    ensures i <= |w.st.open| && Climbs(st, WalkDown(w, k, i, m - i + 1, block), k + 1, m, q', b')
    decreases i
  {
    hide TreeOk, Climbs, WellFormed, Visit;
    TreeOkBounds(st, w, doc, k, i, block);
    q', b' := q, b;
    if i > k + 1 {
      ClimbBounds(st, w, doc, i - 1, m, q, b, block);
      q', b' := VisitClimbs(st, w, doc, i - 1, m, q, b, block);
      VisitTreeOk(st, w, doc, i - 1, m - (i - 1), block);
      q', b' := WalkDownClimbs(st, Visit(w, i - 1, m - (i - 1), block), doc, k, i - 1, m, q', b', block);
    }
  }

  /** What the walk leaves: the chain of clones down to the block, right above the formatting element
      exactly when nothing lingers. */
  lemma WalkedClimbs(st: State, doc: NodeId, k: nat, m: nat) returns (q: nat, b: nat)
    requires Valid(st, doc) && k < m < |st.open| && Ref(st.open[k]) in st.formatting
    ensures Climbs(st, Walked(st, k, m), k + 1, m, q, b)
  {
    hide ChildrenLinked, ParentsLinked, LeavesBare, Acyclic, TreeOk, BookmarkOk, WalkDown, OnlyChild;
    WalkStarts(st, doc, k, m);
    q, b := WalkDownClimbs(st, Walk(st, st.open[m], IndexOf(st.formatting, Ref(st.open[k])) + 1), doc, k, m, m, m, m, st.open[m]);
  }

  // ---------------------------------------------------------------------------------------
  // A whole round

  /** The round's pieces as the walk left them. */
  lemma RoundShape(st: State, doc: NodeId, k: nat, m: nat) returns (q: nat, b: nat)
    requires Ready(st, doc, k, m)
    ensures var w, r := Walked(st, k, m), Round(st, k, m);
            && Climbs(st, w, k + 1, m, q, b) && k < b
            && Distinct(w.st.open) && w.st.open[..k + 1] == st.open[..k + 1]
            && r.open == InsertAt(RemoveAt(w.st.open, k), b, w.st.nextId)
  {
    hide ChildrenLinked, ParentsLinked, LeavesBare, Acyclic, Walked, Valid, Round, RemoveAt, InsertAt, Settled, Keeps, Ordered;
    hide AllTags, Drawn, Lingers, ListedAlike, OnlyChild;
    var w := Walked(st, k, m);
    q, b := WalkedClimbs(st, doc, k, m);
    var q', b' := RoundPieces(st, doc, k, m);
    WalkedOk(st, doc, k, m);
    OrderedDistinct(w.st.nodes, w.st.open);
    assert w.st.open[b] == st.open[m] by { assert w.st.open[b..][0] == st.open[m..][0]; }
    assert b == b';
  }

  /** The common ancestor's last child is the chain's top. */
  lemma RoundAncestor(st: State, doc: NodeId, k: nat, m: nat)
    requires Ready(st, doc, k, m)
    ensures var r, a, last := Round(st, k, m).nodes, st.open[k - 1], Walked(st, k, m).last;
            WellFormed(r) && a in r && last in r && r[last].parent == Some(a) && OnLastPath(r, a, last)
  {
    hide ChildrenLinked, ParentsLinked, LeavesBare, Acyclic, Walked, Round, Add, Settled, Keeps, Ordered, RemoveAt, InsertAt;
    hide Drawn, ListOk, RemoveFirst, Detach, Interpose, Attach, OnLastPath, Under, FreshFrom, HeldFrom;
    var w, a, block := Walked(st, k, m), st.open[k - 1], st.open[m];
    var h := w.st.nodes;
    WalkedOk(st, doc, k, m);
    RoundTree(st, doc, k, m);
    RoundPlaces(st, doc, k, m);
    var q, b := RoundPieces(st, doc, k, m);
    assert w.st.open[..k + 1][k - 1] == a;
    MovedOrdered(h, w.st.open, k - 1, q);
    MovedLast(h, a, w.last);
    var moved := Moved(h, a, w.last);
    NewId(moved, h, w.st.nextId);
    InterposeSame(moved, block, w.st.nextId, KindOf(moved, st.open[k]), a);
    LastChild(Round(st, k, m).nodes, a, w.last);
  }

  lemma NewId(h: Heap, h': Heap, c: NodeId)
    requires h.Keys == h'.Keys && FreshFrom(h', c)
    ensures c !in h
  {}

  lemma MovedLast(h: Heap, a: NodeId, last: NodeId)
    requires Attachable(Detach(h, last), a, last)
    ensures var kids := Moved(h, a, last)[a].children; kids != [] && kids[|kids| - 1] == last
  {
    AttachableDiffer(Detach(h, last), a, last);
  }

  /** The block's only child is the new element, which has the block's old children. */
  lemma RoundBlock(st: State, doc: NodeId, k: nat, m: nat)
    requires Ready(st, doc, k, m)
    ensures var r, block, c := Round(st, k, m).nodes, st.open[m], Walked(st, k, m).st.nextId;
            WellFormed(r) && block in st.nodes && OnlyChild(r, block, c) && c in r && r[c].children == st.nodes[block].children
  {
    hide ChildrenLinked, ParentsLinked, LeavesBare, Acyclic, Walked, Round, Add, Settled, Keeps, Ordered, RemoveAt, InsertAt;
    hide Drawn, ListOk, RemoveFirst, Detach, Interpose, Under, HeldFrom, Moved, Carried, OnlyChild, FreshFrom;
    var w, a, block := Walked(st, k, m), st.open[k - 1], st.open[m];
    var h := w.st.nodes;
    WalkedOk(st, doc, k, m);
    WalkedCarried(st, doc, k, m);
    RoundTree(st, doc, k, m);
    RoundPlaces(st, doc, k, m);
    var q, b := RoundPieces(st, doc, k, m);
    assert w.st.open[..k + 1][k - 1] == a;
    MovedOrdered(h, w.st.open, k - 1, q);
    var moved := Moved(h, a, w.last);
    NewId(moved, h, w.st.nextId);
    MovedElsewhere(st.nodes, h, block, w.last, a, block);
    NotOwnParent(st.nodes, block);
    DetachSame(st.nodes, block, block);
    Interposed(moved, block, w.st.nextId, KindOf(moved, st.open[k]));
  }

  lemma Interposed(h: Heap, b: NodeId, c: NodeId, kind: Kind)
    requires b in h && c !in h
    ensures var h' := Interpose(Add(h, c, kind), b, c); OnlyChild(h', b, c) && c in h' && h'[c].children == h[b].children
  {
  }

  /** The chain stays as the walk left it. */
  lemma RoundChain(st: State, doc: NodeId, k: nat, m: nat, q: nat, b: nat, j: nat)
    requires Ready(st, doc, k, m) && Climbs(st, Walked(st, k, m), k + 1, m, q, b) && q < j <= b
    ensures var r, open := Round(st, k, m).nodes, Walked(st, k, m).st.open; OnlyChild(r, open[j - 1], open[j])
  {
    hide ChildrenLinked, ParentsLinked, LeavesBare, Acyclic, Walked, Round, Settled, Keeps, Ordered, RemoveAt, InsertAt;
    hide Drawn, ListOk, RemoveFirst, Detach, Interpose, Attach, Under, Lingers, ListedAlike, HeldFrom, OnlyChild, FreshFrom;
    var w, a, block := Walked(st, k, m), st.open[k - 1], st.open[m];
    var h, p := w.st.nodes, w.st.open[j - 1];
    WalkedOk(st, doc, k, m);
    var q', b' := RoundPieces(st, doc, k, m);
    OrderedDistinct(h, w.st.open);
    assert w.st.open[..k + 1][k - 1] == a;
    assert w.st.open[b] == block by { assert w.st.open[b..][0] == st.open[m..][0]; }
    assert OnlyChild(h, p, w.st.open[j]);
    OnlyOne(h, p, w.st.open[j], w.last);
    DetachSame(h, w.last, p);
    AttachSame(Detach(h, w.last), a, w.last, p);
    MovedOrdered(h, w.st.open, k - 1, q);
    var moved := Moved(h, a, w.last);
    NewId(moved, h, w.st.nextId);
    InterposeSame(moved, block, w.st.nextId, KindOf(moved, st.open[k]), p);
    OnlyKept(h, Round(st, k, m).nodes, p, w.st.open[j]);
  }

  lemma OnlyOne(h: Heap, p: NodeId, v: NodeId, x: NodeId)
    requires WellFormed(h) && OnlyChild(h, p, v) && x in h && x != v
    ensures p in h && h[x].parent != Some(p)
  {
    if h[x].parent == Some(p) { KidAt(h, p, x); }
  }

  lemma OnlyKept(h: Heap, h': Heap, p: NodeId, v: NodeId)
    requires OnlyChild(h, p, v) && p in h' && h'[p].children == h[p].children
    ensures OnlyChild(h', p, v)
  {}

  lemma RoundFrame(st: State, doc: NodeId, k: nat, m: nat, y: NodeId)
    requires Ready(st, doc, k, m) && y in st.nodes && y != st.open[k - 1] && y != st.open[m]
    requires st.open[m] in st.nodes && st.nodes[st.open[m]].parent != Some(y)
    ensures KidsKept(st.nodes, Round(st, k, m).nodes, y)
  {
    hide ChildrenLinked, ParentsLinked, LeavesBare, Acyclic, Round, Detach, Ordered;
    RoundElsewhere(st, doc, k, m, y);
    DetachSame(st.nodes, st.open[m], y);
  }

  /** A proper ancestor of `v` is not the parent of what is below `v`. */
  lemma NotParentOf(h: Heap, v: NodeId, x: NodeId, y: NodeId)
    requires WellFormed(h) && v in h && x in h && y in h && x != v && y != v && Under(h, x, v) && Under(h, v, y)
    ensures h[x].parent != Some(y)
  {
    hide ChildrenLinked, ParentsLinked, LeavesBare, Acyclic, Under;
    if h[x].parent == Some(y) {
      ParentUnder(h, v, x);
      NotBoth(h, v, y);
    }
  }

  lemma NotBoth(h: Heap, x: NodeId, y: NodeId)
    requires Acyclic(h) && x in h && y in h && Under(h, x, y) && Under(h, y, x)
    ensures x == y
  {
    hide Acyclic, RootPath;
    PathPrefix(h, x, Position(PathOf(h, x), y));
    PathPrefix(h, y, Position(PathOf(h, y), x));
  }

  /** Below the common ancestor, and itself. */
  lemma RoundLow(st: State, doc: NodeId, k: nat, m: nat, i: nat)
    requires Ready(st, doc, k, m) && OnSpine(st.nodes, st.open, doc) && i < k
    ensures var r, v := Round(st, k, m).nodes, st.open[i];
            WellFormed(r) && v in r && OnLastPath(r, Beneath(st.open, doc, i), v)
  {
    hide ChildrenLinked, ParentsLinked, LeavesBare, Acyclic, Round, OnLastPath, Valid, Under;
    var h, r, u, v, block := st.nodes, Round(st, k, m).nodes, Beneath(st.open, doc, i), st.open[i], st.open[m];
    RoundPlaces(st, doc, k, m);
    RoundBlock(st, doc, k, m);
    assert Stands(h, st.open, doc, i);
    LastPathUnder(h, u, v);
    SpineBetween(h, st.open, doc, i + 1, m);
    LastPathUnder(h, v, block);
    forall y | y == u || Inside(h, u, v, y) ensures KidsKept(h, r, y) { LowFrame(st, doc, k, m, i, y); }
    assert KidsKept(h, r, u);
    LastPathKept(h, r, u, u, v);
  }

  lemma LowFrame(st: State, doc: NodeId, k: nat, m: nat, i: nat, y: NodeId)
    requires Ready(st, doc, k, m) && WellFormed(st.nodes) && i < k
    requires y in st.nodes && st.open[i] in st.nodes && st.open[m] in st.nodes
    requires y != st.open[i] && Under(st.nodes, st.open[i], y)
    requires st.open[m] != st.open[i] && Under(st.nodes, st.open[m], st.open[i])
    ensures KidsKept(st.nodes, Round(st, k, m).nodes, y)
  {
    hide ChildrenLinked, ParentsLinked, LeavesBare, Acyclic, Round, ListOk, Under, RootOf, AllTags, Ordered;
    LowApart(st.nodes, st.open, i, k, m, y);
    NotParentOf(st.nodes, st.open[i], st.open[m], y);
    RoundFrame(st, doc, k, m, y);
  }

  lemma LowApart(h: Heap, stack: seq<NodeId>, i: nat, k: nat, m: nat, y: NodeId)
    requires Ordered(h, stack) && i < k < m < |stack| && y in h && y != stack[i] && Under(h, stack[i], y)
    ensures y != stack[k - 1] && y != stack[m]
  {
  }

  /** Above the block. */
  lemma RoundHigh(st: State, doc: NodeId, k: nat, m: nat, j: nat)
    requires Ready(st, doc, k, m) && OnSpine(st.nodes, st.open, doc) && m < j < |st.open|
    ensures var r, u, v := Round(st, k, m).nodes, if j == m + 1 then Walked(st, k, m).st.nextId else st.open[j - 1], st.open[j];
            WellFormed(r) && v in r && OnLastPath(r, u, v)
  {
    hide ChildrenLinked, ParentsLinked, LeavesBare, Acyclic, Round, OnLastPath, Valid, Under, Walked, OnlyChild;
    var h, r, u, v := st.nodes, Round(st, k, m).nodes, st.open[j - 1], st.open[j];
    RoundPlaces(st, doc, k, m);
    RoundBlock(st, doc, k, m);
    assert Stands(h, st.open, doc, j - 1) && Stands(h, st.open, doc, j);
    SelfIn(h, u);
    if j > m + 1 { HighFrame(st, doc, k, m, j, u); }
    forall y | Inside(h, u, v, y) ensures KidsKept(h, r, y) { HighFrame(st, doc, k, m, j, y); }
    LastPathKept(h, r, u, if j == m + 1 then Walked(st, k, m).st.nextId else u, v);
  }

  lemma HighFrame(st: State, doc: NodeId, k: nat, m: nat, j: nat, y: NodeId)
    requires Ready(st, doc, k, m) && WellFormed(st.nodes) && m < j < |st.open|
    requires y in st.nodes && Under(st.nodes, y, st.open[j - 1]) && (y == st.open[j - 1] ==> j > m + 1)
    ensures KidsKept(st.nodes, Round(st, k, m).nodes, y)
  {
    hide ChildrenLinked, ParentsLinked, LeavesBare, Acyclic, Round, ListOk, Under, RootOf, AllTags;
    HighApart(st.nodes, st.open, k, m, j, y);
    RoundFrame(st, doc, k, m, y);
  }

  lemma HighApart(h: Heap, stack: seq<NodeId>, k: nat, m: nat, j: nat, y: NodeId)
    requires WellFormed(h) && Ordered(h, stack) && 0 < k < m < j < |stack|
    requires y in h && Under(h, y, stack[j - 1]) && (y == stack[j - 1] ==> j > m + 1)
    ensures y != stack[k - 1] && y != stack[m] && h[stack[m]].parent != Some(y)
  {
    hide ChildrenLinked, LeavesBare, Acyclic;
    var block, u := stack[m], stack[j - 1];
    OrderedAt(h, stack, k - 1, j - 1);
    OrderedDistinct(h, stack);
    if j > m + 1 { OrderedAt(h, stack, m, j - 1); }
    if h[block].parent == Some(y) {
      ChildPath(h, y, block);
      AncestorNotBelow(h, y, block);
    }
  }

  /** The exact law: a round leaves the open elements on the last-child path if and only if the walk meets
      no element at pass 4 or later that is still listed. */
  lemma RoundSpineExactly(st: State, doc: NodeId, k: nat, m: nat)
    requires Ready(st, doc, k, m) && OnSpine(st.nodes, st.open, doc)
    ensures OnSpine(Round(st, k, m).nodes, Round(st, k, m).open, doc) <==> !Lingers(st, k + 1, m)
  {
    hide WellFormed, OnLastPath, Round, Walked, Valid, OnlyChild, ListedAlike, Lingers, RemoveAt, InsertAt, Distinct;
    var q, b := RoundShape(st, doc, k, m);
    if q == k + 1 {
      RoundStaysOn(st, doc, k, m, b);
    } else {
      RoundLeavesSpine(st, doc, k, m, q, b);
    }
  }

  lemma RoundStaysOn(st: State, doc: NodeId, k: nat, m: nat, b: nat)
    requires Ready(st, doc, k, m) && OnSpine(st.nodes, st.open, doc) && k < b
    requires var w := Walked(st, k, m);
             && Climbs(st, w, k + 1, m, k + 1, b) && w.st.open[..k + 1] == st.open[..k + 1]
             && Round(st, k, m).open == InsertAt(RemoveAt(w.st.open, k), b, w.st.nextId)
    ensures OnSpine(Round(st, k, m).nodes, Round(st, k, m).open, doc)
  {
    hide ChildrenLinked, ParentsLinked, LeavesBare, Acyclic, OnLastPath, Round, Walked, Valid, ListedAlike, Lingers, OnlyChild;
    hide RemoveAt, InsertAt;
    var w, r, stack := Walked(st, k, m), Round(st, k, m).nodes, Round(st, k, m).open;
    var open, c := w.st.open, w.st.nextId;
    SpliceAt(open, k, b, c);
    RoundAncestor(st, doc, k, m);
    RoundBlock(st, doc, k, m);
    assert forall j :: b <= j < |open| ==> open[j] == open[b..][j - b] == st.open[m..][j - b] == st.open[j - b + m];
    assert forall j :: 0 <= j <= k ==> open[j] == open[..k + 1][j] == st.open[..k + 1][j] == st.open[j];
    forall i: nat | i < |stack| ensures Stands(r, stack, doc, i) {
      if i < k {
        RoundLow(st, doc, k, m, i);
      } else if k < i < b {
        RoundChain(st, doc, k, m, k + 1, b, i + 1);
        OnlyIsLast(r, open[i], open[i + 1]);
      } else if i == b {
        OnlyIsLast(r, st.open[m], c);
      } else if b < i {
        RoundHigh(st, doc, k, m, i - b + m);
      }
    }
  }

  lemma SpliceAt(s: seq<NodeId>, k: nat, b: nat, c: NodeId)
    requires k < b < |s|
    ensures var r := InsertAt(RemoveAt(s, k), b, c);
            && |r| == |s| && r[b] == c
            && (forall i :: 0 <= i < k ==> r[i] == s[i])
            && (forall i :: k <= i < b ==> r[i] == s[i + 1])
            && (forall i :: b < i < |s| ==> r[i] == s[i])
  {}

  lemma OnlyIsLast(h: Heap, p: NodeId, v: NodeId)
    requires WellFormed(h) && OnlyChild(h, p, v)
    ensures v in h && OnLastPath(h, p, v)
  {
    LastChild(h, p, v);
  }

  /** The chain hangs below the common ancestor, so not below an element that stayed behind. */
  lemma RoundLeavesSpine(st: State, doc: NodeId, k: nat, m: nat, q: nat, b: nat)
    requires Ready(st, doc, k, m) && k + 1 < q <= b
    requires var w := Walked(st, k, m);
             && Climbs(st, w, k + 1, m, q, b) && w.st.open[..k + 1] == st.open[..k + 1]
             && Round(st, k, m).open == InsertAt(RemoveAt(w.st.open, k), b, w.st.nextId)
    ensures !OnSpine(Round(st, k, m).nodes, Round(st, k, m).open, doc)
  {
    hide ChildrenLinked, ParentsLinked, LeavesBare, Acyclic, Round, Walked, Valid, ListedAlike, Lingers, OnlyChild;
    hide RemoveAt, InsertAt, Settled, Keeps, Drawn, AllTags;
    var w, r, stack := Walked(st, k, m), Round(st, k, m).nodes, Round(st, k, m).open;
    SpliceAt(w.st.open, k, b, w.st.nextId);
    assert w.st.open[..k + 1][k - 1] == st.open[k - 1];
    RoundAncestor(st, doc, k, m);
    RoundTree(st, doc, k, m);
    OrderedAt(r, stack, k - 1, q - 2);
    OrderedDistinct(r, stack);
    if OnSpine(r, stack, doc) {
      assert Stands(r, stack, doc, q - 1);
      LastPathUnder(r, stack[q - 2], st.open[k - 1]);
    }
  }
}
