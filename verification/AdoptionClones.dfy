/** What a round of the adoption agency adds: clones of elements that were open. */
module AdoptionClones {
  import opened Dom
  import opened DomOps
  import opened Adoption
  import opened OpenStack
  import opened Sequences

  /** Some open element has this tag, namespace and attributes. */
  ghost predicate OpenKind(st: State, kind: Kind) {
    exists j :: 0 <= j < |st.open| && st.open[j] in st.nodes && st.nodes[st.open[j]].kind == kind
  }

  /** Whatever is in the heap beyond the nodes of `st` is a clone of an open element. */
  ghost predicate ClonesOnly(st: State, h: Heap) {
    forall x {:trigger h[x]} :: x in h && x !in st.nodes ==> OpenKind(st, h[x].kind)
  }

  lemma VisitAddsClones(st0: State, w: Walk, doc: NodeId, i: nat, pass: nat, block: NodeId)
    requires WellFormed(st0.nodes) && TreeOk(st0, w, doc, i + 1, block) && AllTags(st0.nodes, st0.open)
    requires ClonesOnly(st0, w.st.nodes)
    ensures ClonesOnly(st0, Visit(w, i, pass, block).st.nodes)
  {
    hide WellFormed, Ordered, Settled, Wrap, HeldFrom, Drawn;
    var n, c := w.st.open[i], w.st.nextId;
    assert n == w.st.open[..i + 1][i] == st0.open[..i + 1][i] == st0.open[i];
    LastKnown(st0, w, doc, i, block);
    WrapKeeps(w.st.nodes, w.last, c, KindOf(w.st.nodes, n));
    assert OpenKind(st0, KindOf(w.st.nodes, n));
  }

  lemma {:induction false} WalkAddsClones(st0: State, w: Walk, doc: NodeId, k: nat, i: nat, pass: nat, block: NodeId)
    requires WellFormed(st0.nodes) && TreeOk(st0, w, doc, i, block) && k < i && AllTags(st0.nodes, st0.open)
    requires ClonesOnly(st0, w.st.nodes)
    ensures i <= |w.st.open| && ClonesOnly(st0, WalkDown(w, k, i, pass, block).st.nodes)
    decreases i
  {
    hide TreeOk, WellFormed, Visit, ClonesOnly, AllTags;
    TreeOkBounds(st0, w, doc, k, i, block);
    if i > k + 1 {
      VisitTreeOk(st0, w, doc, i - 1, pass, block);
      VisitAddsClones(st0, w, doc, i - 1, pass, block);
      WalkAddsClones(st0, Visit(w, i - 1, pass, block), doc, k, i - 1, pass + 1, block);
    }
  }

  lemma FinishAdds(h: Heap, a: NodeId, last: NodeId, c: NodeId, kind: Kind, block: NodeId)
    ensures Interpose(Add(Moved(h, a, last), c, kind), block, c).Keys == h.Keys + {c}
  {
    DetachKeeps(h, last);
  }

  /** Every node that a round adds is a new clone of an element that was open. */
  lemma RoundAddsClones(st: State, doc: NodeId, k: nat, m: nat)
    requires Valid(st, doc) && 0 < k < m < |st.open| && Ref(st.open[k]) in st.formatting
    ensures ClonesOnly(st, Round(st, k, m).nodes)
  {
    hide WellFormed, Ordered, Settled, Walked, Moved, Interpose, Add, Round, ListOk, AllAttached, TreeOk;
    var w, r := Walked(st, k, m), Round(st, k, m);
    WalkedAddsClones(st, doc, k, m);
    RoundTree(st, doc, k, m);
    var q, b := RoundPieces(st, doc, k, m);
    var moved := Moved(w.st.nodes, st.open[k - 1], w.last);
    FinishAdds(w.st.nodes, st.open[k - 1], w.last, w.st.nextId, KindOf(moved, st.open[k]), st.open[m]);
    assert OpenKind(st, KindOf(st.nodes, st.open[k]));
    forall x | x in r.nodes && x !in st.nodes ensures OpenKind(st, r.nodes[x].kind) {
      if x in w.st.nodes { assert r.nodes[x].kind == w.st.nodes[x].kind; }
    }
  }

  lemma WalkedAddsClones(st: State, doc: NodeId, k: nat, m: nat)
    requires Valid(st, doc) && k < m < |st.open| && Ref(st.open[k]) in st.formatting
    ensures ClonesOnly(st, Walked(st, k, m).st.nodes)
  {
    hide WellFormed, Ordered, Settled, TreeOk, WalkDown, ListOk, AllAttached;
    WalkStarts(st, doc, k, m);
    WalkAddsClones(st, Walk(st, st.open[m], IndexOf(st.formatting, Ref(st.open[k])) + 1), doc, k, m, 1, st.open[m]);
  }
}
