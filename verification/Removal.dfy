/** What the adoption agency takes out of the tree: a removed node has no parent or hangs from an element,
    never from the document. */
module Removal {
  import opened Options
  import opened Sequences
  import opened Dom
  import opened DomOps
  import opened OpenStack
  import opened DocumentOrder
  import opened Adoption
  import opened AdoptionClones
  import opened AdoptionLeaves
  import opened Agency
  import opened FormattingList
  import opened TreeRuns

  /** No other node is a document. */
  ghost predicate OneDocument(h: Heap, doc: NodeId) {
    forall x {:trigger h[x]} :: x in h && h[x].kind.Document? ==> x == doc
  }

  /** Of the open elements only the bottom one hangs from the document. */
  ghost predicate Inward(st: State, doc: NodeId) {
    && doc in st.nodes && OneDocument(st.nodes, doc)
    && forall i :: 0 < i < |st.open| ==> st.open[i] !in st.nodes[doc].children
  }

  // ---------------------------------------------------------------------------------------
  // What every action keeps

  /** A new node: below the document it may only become the bottom of the stack. */
  lemma GraftInward(st: State, doc: NodeId, w: NodeId, kind: Kind, open: seq<NodeId>, list: seq<Entry>)
    requires Valid(st, doc) && Inward(st, doc) && w in st.nodes && !kind.Document?
    requires open == st.open || (open == st.open + [st.nextId] && (w == doc ==> st.open == []))
    ensures Inward(State(Attach(Add(st.nodes, st.nextId, kind), w, st.nextId), st.nextId + 1, open, list), doc)
  {
    hide ParentsLinked, LeavesBare, Acyclic, Ordered, AllAttached, ListOk;
    var h, c := st.nodes, st.nextId;
    PushKeeps(h, w, c, kind);
    assert c !in h[doc].children;
    assert forall i :: 0 <= i < |st.open| ==> st.open[i] in h && st.open[i] != c;
  }

  lemma FlushInward(st: State, pending: Option<Kind>, doc: NodeId)
    requires Valid(st, doc) && Inward(st, doc) && (pending.Some? ==> !pending.value.HasChildren())
    ensures Inward(Flush(st, pending), doc)
  {
    hide WellFormed, Ordered, AllAttached, ListOk, Inward, Attach, Add;
    if pending.Some? && st.open != [] {
      GraftInward(st, doc, st.open[|st.open| - 1], pending.value, st.open, st.formatting);
    }
  }

  lemma PrefixInward(st: State, doc: NodeId, k: nat, list: seq<Entry>)
    requires Inward(st, doc) && k <= |st.open|
    ensures Inward(st.(open := st.open[..k], formatting := list), doc)
  {
  }

  lemma PopInward(st: State, pending: Option<Kind>, doc: NodeId, k: nat, list: seq<Entry>)
    requires Valid(st, doc) && Inward(st, doc) && (pending.Some? ==> !pending.value.HasChildren()) && k < |st.open|
    ensures Inward(PopTo(st, pending, k).(formatting := list), doc)
  {
    hide Valid, Inward, Flush;
    FlushInward(st, pending, doc);
    PrefixInward(Flush(st, pending), doc, k, list);
  }

  /** A round changes no child of the document. */
  lemma RoundDocument(st: State, doc: NodeId, k: nat, m: nat)
    requires Ready(st, doc, k, m) && Inward(st, doc)
    ensures var r := Round(st, k, m).nodes; doc in r && r[doc].children == st.nodes[doc].children
  {
    hide ChildrenLinked, LeavesBare, Acyclic, Round, Detach, Ordered, AllAttached, ListOk;
    RoundPlaces(st, doc, k, m);
    var h, block := st.nodes, st.open[m];
    TagNotDocument(st, doc, k - 1);
    RoundElsewhere(st, doc, k, m, doc);
    DetachSame(h, block, doc);
  }

  lemma RoundInward(st: State, doc: NodeId, k: nat, m: nat)
    requires Ready(st, doc, k, m) && Inward(st, doc)
    ensures Inward(Round(st, k, m), doc)
  {
    hide ParentsLinked, LeavesBare, Acyclic, Round, Ordered, AllAttached, ListOk, Settled, Distinct, Walked;
    var h, r := st.nodes, Round(st, k, m);
    RoundDocument(st, doc, k, m);
    RoundTree(st, doc, k, m);
    RoundAddsClones(st, doc, k, m);
    RoundBottom(st, doc, k, m);
    OneStays(st, doc, r.nodes);
    forall i | 0 < i < |r.open| ensures r.open[i] !in h[doc].children {
      DistinctBottom(r, i);
      assert r.open[i] in st.open || r.open[i] !in h;
      if r.open[i] in st.open { AboveBottom(st, doc, r.open[i]); } else { NotAChild(h, doc, r.open[i]); }
    }
  }

  lemma DistinctBottom(st: State, i: nat)
    requires Ordered(st.nodes, st.open) && 0 < i < |st.open|
    ensures st.open[i] != st.open[0]
  {
    OrderedDistinct(st.nodes, st.open);
  }

  lemma AboveBottom(st: State, doc: NodeId, x: NodeId)
    requires Inward(st, doc) && x in st.open && x != st.open[0]
    ensures x !in st.nodes[doc].children
  {
    var i :| 0 <= i < |st.open| && st.open[i] == x;
  }

  lemma NotAChild(h: Heap, doc: NodeId, x: NodeId)
    requires ChildrenLinked(h) && doc in h && x !in h
    ensures x !in h[doc].children
  {}

  lemma OneStays(st: State, doc: NodeId, h: Heap)
    requires OneDocument(st.nodes, doc) && Keeps(st.nodes, h) && ClonesOnly(st, h) && AllTags(st.nodes, st.open)
    ensures OneDocument(h, doc)
  {
    forall x | x in h && h[x].kind.Document? ensures x == doc {
      assert x in st.nodes || OpenKind(st, h[x].kind);
    }
  }

  lemma TurnInward(st: State, pending: Option<Kind>, doc: NodeId, tag: nat, sets: TagSets)
    requires Callable(st, pending, doc, tag, sets) && Inward(st, doc)
    ensures Inward(Turn(st, pending, tag, sets).st, doc)
  {
    hide Valid, Inward, Round, InScope, RemoveFirst, PopTo;
    TurnPositions(st, pending, doc, tag, sets);
    var t := FindFormatting(st.nodes, st.formatting, tag);
    if t != -1 {
      var fe := st.formatting[t].id;
      var k := IndexOf(st.open, fe);
      if k == -1 {
        Unlisted(st, doc, RemoveFirst(st.formatting, Ref(fe)));
      } else {
        var m := FurthestBlock(st.nodes, st.open, k, sets.special);
        if m == -1 {
          PopInward(st, pending, doc, k, RemoveFirst(PopTo(st, pending, k).formatting, Ref(fe)));
        } else {
          RoundInward(st, doc, k, m);
        }
      }
    }
  }

  lemma Unlisted(st: State, doc: NodeId, list: seq<Entry>)
    requires Inward(st, doc)
    ensures Inward(st.(formatting := list), doc)
  {}

  lemma {:induction false} TurnsInward(st: State, pending: Option<Kind>, doc: NodeId, tag: nat, sets: TagSets, n: nat)
    requires Callable(st, pending, doc, tag, sets) && Inward(st, doc)
    ensures Inward(Turns(st, pending, tag, sets, n), doc)
    decreases n
  {
    hide Valid, Turn, Conserves, Inward, Callable;
    if n > 0 {
      TurnInward(st, pending, doc, tag, sets);
      TurnKeeps(st, pending, doc, tag, sets);
      var o := Turn(st, pending, tag, sets);
      if o.Again? { TurnsInward(o.st, pending, doc, tag, sets, n - 1); }
    }
  }

  lemma AdoptInward(st: State, pending: Option<Kind>, doc: NodeId, tag: nat, sets: TagSets)
    requires Callable(st, pending, doc, tag, sets) && Inward(st, doc)
    ensures Inward(Adopt(st, pending, tag, sets), doc)
  {
    hide Valid, Turns, Inward, Flush;
    if PopsAtOnce(st, tag) {
      PopInward(st, pending, doc, |st.open| - 1, st.formatting);
    } else {
      TurnsInward(st, pending, doc, tag, sets, 8);
    }
  }

  lemma {:induction false} RebuildInward(st: State, doc: NodeId, i: nat)
    requires Valid(st, doc) && Inward(st, doc) && st.open != []
    requires forall j :: i <= j < |st.formatting| ==> st.formatting[j].Ref?
    ensures Inward(RebuildFrom(st, i), doc)
    decreases |st.formatting| - i
  {
    hide WellFormed, Ordered, AllAttached, Inward, Attach, Add, Conserves;
    if i < |st.formatting| {
      var r, w := RebuildOne(st, i), st.open[|st.open| - 1];
      GraftInward(st, doc, w, KindOf(st.nodes, st.formatting[i].id), r.open, r.formatting);
      RebuildOneValid(st, doc, i);
      RebuildInward(r, doc, i + 1);
    }
  }

  lemma InsertInward(b: Builder, doc: NodeId, element: Kind)
    requires Sound(b, doc) && Inward(b.st, doc) && b.st.open != [] && element.IsTag()
    ensures Inward(Opened(Flush(b.st, b.pending), b.st.open[|b.st.open| - 1], element), doc)
  {
    hide WellFormed, Ordered, AllAttached, ListOk, Inward, Attach, Add, Flush, Conserves;
    var f, top := Flush(b.st, b.pending), b.st.open[|b.st.open| - 1];
    FlushValid(b.st, b.pending, doc);
    FlushInward(b.st, b.pending, doc);
    GraftInward(f, doc, top, element, f.open + [f.nextId], f.formatting);
  }

  lemma AsideInward(b: Builder, doc: NodeId, w: NodeId, comment: Kind)
    requires Sound(b, doc) && Inward(b.st, doc) && comment.Comment? && (w == doc || (b.st.open != [] && w == b.st.open[0]))
    ensures Inward(Aside(Flush(b.st, b.pending), w, comment), doc)
  {
    hide WellFormed, Ordered, AllAttached, ListOk, Inward, Attach, Add, Flush, Conserves;
    var f := Flush(b.st, b.pending);
    FlushValid(b.st, b.pending, doc);
    FlushInward(b.st, b.pending, doc);
    GraftInward(f, doc, w, comment, f.open, f.formatting);
  }

  lemma ReenterInward(b: Builder, doc: NodeId, sets: TagSets, head: NodeId)
    requires Sound(b, doc) && Inward(b.st, doc) && Allowed(b, sets, ReenterHead(head))
    ensures Inward(Flush(b.st, b.pending).(open := b.st.open + [head]), doc)
  {
    hide ParentsLinked, LeavesBare, Acyclic, Ordered, AllAttached, ListOk, Flush;
    var f := Flush(b.st, b.pending);
    FlushValid(b.st, b.pending, doc);
    FlushInward(b.st, b.pending, doc);
    FlushParent(b.st, b.pending, head);
    assert b.st.open[0] != doc;
  }

  lemma UnopenInward(st: State, doc: NodeId, place: nat)
    requires Valid(st, doc) && Inward(st, doc) && 0 < place < |st.open|
    ensures Inward(st.(open := RemoveAt(st.open, place)), doc)
  {
    hide WellFormed, Ordered, AllAttached, ListOk;
    var s := RemoveAt(st.open, place);
    assert forall i :: 0 <= i < |s| ==> s[i] == st.open[if i < place then i else i + 1];
  }

  lemma CommentInward(b: Builder, doc: NodeId, comment: Kind)
    requires Sound(b, doc) && Inward(b.st, doc) && comment.Comment?
    ensures Inward(Flush(Flush(b.st, b.pending), Some(comment)), doc)
  {
    hide Valid, Inward, Flush, Conserves;
    FlushValid(b.st, b.pending, doc);
    FlushInward(b.st, b.pending, doc);
    FlushInward(Flush(b.st, b.pending), Some(comment), doc);
  }

  lemma RootInward(st: State, doc: NodeId, root: Kind)
    requires Valid(st, doc) && Inward(st, doc) && st.open == [] && root.Element?
    ensures Inward(Opened(st, doc, root), doc)
  {
    hide WellFormed, Ordered, AllAttached, ListOk, Inward, Attach, Add;
    GraftInward(st, doc, doc, root, st.open + [st.nextId], st.formatting);
  }

  lemma ActionInward(b: Builder, b': Builder, doc: NodeId, sets: TagSets, a: Action)
    requires Sound(b, doc) && Inward(b.st, doc) && Allowed(b, sets, a) && Does(b, b', doc, sets, a)
    ensures Inward(b'.st, doc)
  {
    hide Valid, Inward, Adopt, Reconstruct, Flush, PopTo, AddEntry, ClearToMarker, RemoveAt, Attach, Add, Aside, Opened;
    hide Buffered, AdoptPending;
    var st := b.st;
    match a
    case InsertRoot(root) => RootInward(st, doc, root);
    case InsertElement(element) => InsertInward(b, doc, element);
    case InsertComment(comment) => CommentInward(b, doc, comment);
    case DocumentComment(comment) => AsideInward(b, doc, doc, comment);
    case RootComment(comment) => AsideInward(b, doc, st.open[0], comment);
    case PopDown(height) => PopInward(st, b.pending, doc, height, PopTo(st, b.pending, height).formatting);
    case Unopen(place) => UnopenInward(st, doc, place);
    case ReenterHead(head) => ReenterInward(b, doc, sets, head);
    case CloseFormatting(tag) => AdoptInward(st, b.pending, doc, tag, sets);
    case Reopen => ReopenInward(st, doc);
    case _ => Unlisted(st, doc, b'.st.formatting);
  }

  lemma ReopenInward(st: State, doc: NodeId)
    requires Valid(st, doc) && Inward(st, doc) && st.open != []
    ensures Inward(Reconstruct(st), doc)
  {
    hide Valid, Inward, RebuildFrom;
    RebuildInward(st, doc, RebuildStart(st.open, st.formatting));
  }

  /** In every state reachable from an empty document, only the bottom of the stack hangs from the
      document. */
  lemma {:induction false} RunInward(run: seq<Builder>, actions: seq<Action>, doc: NodeId, sets: TagSets, i: nat)
    requires Run(run, actions, doc, sets) && run[0] == Fresh(doc) && i < |run|
    ensures Inward(run[i].st, doc)
  {
    hide Sound, Conserves, Does, Allowed;
    if i > 0 {
      RunInward(run, actions, doc, sets, i - 1);
      RunSound(run, actions, doc, sets, i - 1, i - 1);
      ActionInward(run[i - 1], run[i], doc, sets, actions[i - 1]);
    }
  }

  // ---------------------------------------------------------------------------------------
  // What the walk removes

  /** The chain's top is the furthest block, where it was, or hangs nowhere. */
  ghost predicate Loose(st0: State, w: Walk, block: NodeId) {
    && w.last in w.st.nodes
    && (w.st.nodes[w.last].parent == None || (w.last == block && w.st.nodes == st0.nodes))
  }

  lemma VisitLoose(st0: State, w: Walk, doc: NodeId, i: nat, pass: nat, block: NodeId)
    requires WellFormed(st0.nodes) && TreeOk(st0, w, doc, i + 1, block) && Loose(st0, w, block)
    ensures Loose(st0, Visit(w, i, pass, block), block)
  {
    hide WellFormed, TreeOk, Detach;
    LastKnown(st0, w, doc, i, block);
    var h, c := w.st.nodes, w.st.nextId;
    var kind := KindOf(h, w.st.open[i]);
    FreshUnhung(h, w.last, c, kind);
    WrapKeeps(h, w.last, c, kind);
  }

  lemma FreshUnhung(h: Heap, v: NodeId, c: NodeId, kind: Kind)
    requires v in h && c !in h
    ensures c in Wrap(h, v, c, kind) && Wrap(h, v, c, kind)[c].parent == None
  {
  }

  lemma {:induction false} WalkLoose(st0: State, w: Walk, doc: NodeId, k: nat, i: nat, pass: nat, block: NodeId)
    requires WellFormed(st0.nodes) && TreeOk(st0, w, doc, i, block) && k < i && Loose(st0, w, block)
    ensures i <= |w.st.open| && Loose(st0, WalkDown(w, k, i, pass, block), block)
    decreases i
  {
    hide TreeOk, WellFormed, Visit, Loose;
    TreeOkBounds(st0, w, doc, k, i, block);
    if i > k + 1 {
      VisitTreeOk(st0, w, doc, i - 1, pass, block);
      VisitLoose(st0, w, doc, i - 1, pass, block);
      WalkLoose(st0, Visit(w, i - 1, pass, block), doc, k, i - 1, pass + 1, block);
    }
  }

  /** The walk of step 13 when it has visited the positions from `i` up. */
  function WalkTo(st: State, k: nat, m: nat, i: nat): Walk
    requires k < i <= m < |st.open|
  {
    WalkDown(Walk(st, st.open[m], IndexOf(st.formatting, Ref(st.open[k])) + 1), i - 1, m, 1, st.open[m])
  }

  /** Whenever steps 13.9 and 14 remove the chain's top from its parent, that parent is an element. */
  lemma RemovedFromElement(st: State, doc: NodeId, k: nat, m: nat, i: nat)
    requires Ready(st, doc, k, m) && Inward(st, doc) && k < i <= m
    ensures var w := WalkTo(st, k, m, i);
            && w.last in w.st.nodes
            && (w.st.nodes[w.last].parent.Some? ==>
                  var p := w.st.nodes[w.last].parent.value; p in w.st.nodes && p != doc && w.st.nodes[p].kind.IsTag())
    ensures WalkTo(st, k, m, k + 1) == Walked(st, k, m)
  {
    hide Ordered, LeavesBare, Acyclic, AllAttached, ListOk, TreeOk, BookmarkOk, WalkDown;
    var block := st.open[m];
    WalkStarts(st, doc, k, m);
    assert block in st.nodes;
    WalkLoose(st, Walk(st, block, IndexOf(st.formatting, Ref(st.open[k])) + 1), doc, i - 1, m, 1, block);
    var w := WalkTo(st, k, m, i);
    if w.st.nodes[w.last].parent.Some? { BlockInside(st, doc, m); }
  }

  lemma BlockInside(st: State, doc: NodeId, m: nat)
    requires Valid(st, doc) && Inward(st, doc) && 0 < m < |st.open| && st.open[m] in st.nodes
    requires st.nodes[st.open[m]].parent.Some?
    ensures var p := st.nodes[st.open[m]].parent.value; p in st.nodes && p != doc && st.nodes[p].kind.IsTag()
  {
    hide Ordered, Acyclic, AllAttached, ListOk;
    var h, block := st.nodes, st.open[m];
    var p := h[block].parent.value;
    assert h[p].children[h[block].index] == block;
  }

  /** So in every state of every run from an empty document. */
  lemma RunRemovesFromElements(
    run: seq<Builder>, actions: seq<Action>, doc: NodeId, sets: TagSets, n: nat, k: nat, m: nat, i: nat)
    requires Run(run, actions, doc, sets) && run[0] == Fresh(doc) && n < |run|
    requires Ready(run[n].st, doc, k, m) && k < i <= m
    ensures var w := WalkTo(run[n].st, k, m, i);
            && w.last in w.st.nodes
            && (w.st.nodes[w.last].parent.Some? ==>
                  var p := w.st.nodes[w.last].parent.value; p in w.st.nodes && p != doc && w.st.nodes[p].kind.IsTag())
  {
    hide Valid, Inward, WalkTo, Run, Fresh;
    RunInward(run, actions, doc, sets, n);
    RemovedFromElement(run[n].st, doc, k, m, i);
  }
}
