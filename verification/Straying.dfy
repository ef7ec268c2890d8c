/** When the open elements leave the last-child path of the document: exactly which actions take them off
    it, and why nothing the adoption agency does later in the same call takes them back. */
module Straying {
  import opened Options
  import opened Sequences
  import opened Dom
  import opened DomOps
  import opened OpenStack
  import opened DocumentOrder
  import opened LeafOrder
  import opened Adoption
  import opened AdoptionLeaves
  import opened Agency
  import opened FormattingList
  import opened ListOrder
  import opened NoahsArk
  import opened TreeRuns
  import opened Spine
  import opened InsertionOrder

  // ---------------------------------------------------------------------------------------
  // Comments beside the stack, and the head

  /** A last-child path starts with the last child. */
  lemma {:induction false} LastPathStarts(h: Heap, u: NodeId, v: NodeId)
    requires WellFormed(h) && v in h && OnLastPath(h, u, v)
    ensures u in h && h[u].children != []
    ensures var w := h[u].children[|h[u].children| - 1]; w in h && (v == w || OnLastPath(h, w, v))
    decreases |PathOf(h, v)|
  {
    hide LeavesBare, Acyclic;
    var p := h[v].parent.value;
    ChildPath(h, p, v);
    KidAt(h, p, v);
    if p != u { LastPathStarts(h, u, p); }
  }

  /** Only a leaf at its start can end a last-child path that starts with a leaf. */
  lemma LeafEndsPath(h: Heap, u: NodeId, v: NodeId, c: NodeId)
    requires WellFormed(h) && v in h && OnLastPath(h, u, v) && u in h
    requires h[u].children != [] && h[u].children[|h[u].children| - 1] == c && c in h && h[c].children == []
    ensures v == c
  {
    hide ChildrenLinked, ParentsLinked, LeavesBare, Acyclic, OnLastPath;
    LastPathStarts(h, u, v);
    if v != c {
      LastPathUnder(h, c, v);
      ChildlessOnPath(h, c, v);
    }
  }

  lemma GraftedKid(h: Heap, w: NodeId, c: NodeId, kind: Kind)
    requires w in h && c !in h
    ensures var h' := Attach(Add(h, c, kind), w, c);
            c in h' && h'[c].children == [] && h'[w].children == h[w].children + [c]
  {
  }

  /** A comment below an open element, or the document, with more open above it. */
  lemma AsideStrays(st: State, doc: NodeId, comment: Kind, i: nat)
    requires Valid(st, doc) && i < |st.open| && Beneath(st.open, doc, i) in st.nodes
    requires RootOf(st.nodes, Beneath(st.open, doc, i)) == doc && st.nodes[Beneath(st.open, doc, i)].kind.HasChildren()
    ensures !OnSpine(Aside(st, Beneath(st.open, doc, i), comment).nodes, st.open, doc)
  {
    hide ChildrenLinked, ParentsLinked, LeavesBare, Acyclic, OnLastPath, Attach, Add, RootOf, Ordered, ListOk, AllAttached;
    var w, c := Beneath(st.open, doc, i), st.nextId;
    var h' := Aside(st, w, comment).nodes;
    assert c !in st.nodes && st.open[i] in st.nodes;
    AsideOrdered(st, w, comment);
    GraftedKid(st.nodes, w, c, comment);
    PushKeeps(st.nodes, w, c, comment);
    if OnSpine(h', st.open, doc) {
      assert Stands(h', st.open, doc, i);
      LeafEndsPath(h', w, st.open[i], c);
    }
  }

  lemma DocumentHolds(st: State, doc: NodeId, i: nat)
    requires Valid(st, doc) && i < |st.open|
    ensures var w := Beneath(st.open, doc, i); w in st.nodes && RootOf(st.nodes, w) == doc && st.nodes[w].kind.HasChildren()
  {
    hide ChildrenLinked, ParentsLinked, LeavesBare, Acyclic, Ordered, ListOk;
    RootPathOf(st.nodes, doc);
  }

  lemma CommentStrays(b: Builder, doc: NodeId, comment: Kind, i: nat)
    requires Sound(b, doc) && i < |b.st.open|
    ensures !OnSpine(Aside(Flush(b.st, b.pending), Beneath(b.st.open, doc, i), comment).nodes, b.st.open, doc)
  {
    hide Valid, OnSpine, Flush, Conserves, RootOf, Aside;
    FlushValid(b.st, b.pending, doc);
    DocumentHolds(Flush(b.st, b.pending), doc, i);
    AsideStrays(Flush(b.st, b.pending), doc, comment, i);
  }

  /** Opening the head again stays on the path only if it is the last child, with no text to come behind
      it. */
  lemma ReenterStrays(b: Builder, doc: NodeId, sets: TagSets, head: NodeId)
    requires Sound(b, doc) && Allowed(b, sets, ReenterHead(head))
    requires OnSpine(Flush(b.st, b.pending).nodes, b.st.open + [head], doc)
    ensures Mild(b, sets, ReenterHead(head))
  {
    hide ParentsLinked, LeavesBare, Acyclic, Ordered, ListOk, AllAttached;
    var f, root := Flush(b.st, b.pending).nodes, b.st.open[0];
    assert root in b.st.nodes;
    assert Stands(f, b.st.open + [head], doc, 1);
    FlushParent(b.st, b.pending, head);
    KidIndexed(f, root, head);
  }

  lemma KidIndexed(h: Heap, u: NodeId, v: NodeId)
    requires WellFormed(h) && v in h && OnLastPath(h, u, v) && h[v].parent == Some(u)
    ensures u in h && h[u].children != [] && h[u].children[|h[u].children| - 1] == v
  {
  }

  // ---------------------------------------------------------------------------------------
  // A round that leaves an element behind

  /** The open element at `i` is a child of one further down than the one right below it. */
  ghost predicate Astray(h: Heap, open: seq<NodeId>, i: nat, j: nat) {
    && j + 1 < i < |open| && open[i] in h && h[open[i]].parent == Some(open[j])
  }

  lemma AstrayOff(h: Heap, open: seq<NodeId>, doc: NodeId, i: nat, j: nat)
    requires WellFormed(h) && Ordered(h, open) && Astray(h, open, i, j)
    ensures !OnSpine(h, open, doc)
  {
    hide ChildrenLinked, ParentsLinked, LeavesBare, Acyclic, RootPath;
    if OnSpine(h, open, doc) {
      assert Stands(h, open, doc, i);
      OrderedDistinct(h, open);
      OrderedAt(h, open, j, i - 1);
      LastPathUnder(h, open[i - 1], open[j]);
    }
  }

  /** What a round with a lingering element leaves: the chain hangs below the common ancestor, with the
      element that stayed open between them on the stack. */
  lemma RoundStrays(st: State, doc: NodeId, k: nat, m: nat) returns (i: nat, c: nat)
    requires Ready(st, doc, k, m) && Lingers(st, k + 1, m)
    ensures var r := Round(st, k, m);
            Astray(r.nodes, r.open, i, k - 1) && i < c < |r.open| && r.open[c] == Walked(st, k, m).st.nextId
  {
    hide ChildrenLinked, ParentsLinked, LeavesBare, Acyclic, OnLastPath, Round, Walked, Valid, ListedAlike, OnlyChild;
    hide RemoveAt, InsertAt, Lingers;
    var q, b := RoundShape(st, doc, k, m);
    var open := Walked(st, k, m).st.open;
    SpliceAt(open, k, b, Walked(st, k, m).st.nextId);
    assert open[..k + 1][k - 1] == st.open[k - 1];
    RoundAncestor(st, doc, k, m);
    i, c := q - 1, b;
  }

  /** A round leaves the children of open elements below the common ancestor where they are. */
  lemma RoundKeepsAstray(st: State, doc: NodeId, k: nat, m: nat, i: nat, j: nat)
    requires Ready(st, doc, k, m) && Astray(st.nodes, st.open, i, j) && i < k
    ensures Astray(Round(st, k, m).nodes, Round(st, k, m).open, i, j)
  {
    hide ChildrenLinked, ParentsLinked, LeavesBare, Acyclic, Round, Walked, ListedAlike, OnlyChild, Climbs, Detach, ListOk;
    hide RemoveAt, InsertAt, Lingers, AllAttached, Settled, Keeps, Drawn;
    var h, r, y, v := st.nodes, Round(st, k, m).nodes, st.open[j], st.open[i];
    var q, b := RoundShape(st, doc, k, m);
    var open := Walked(st, k, m).st.open;
    assert b < |open| by { ClimbsBound(st, Walked(st, k, m), k + 1, m, q, b); }
    SpliceAt(open, k, b, Walked(st, k, m).st.nextId);
    assert open[..k + 1][i] == v && open[..k + 1][j] == y;
    RoundTree(st, doc, k, m);
    RoundPlaces(st, doc, k, m);
    OrderedDistinct(h, st.open);
    RoundElsewhere(st, doc, k, m, y);
    StillChild(h, st.open[m], y, v);
    ChildOf(Detach(h, st.open[m]), r, y, v);
  }

  lemma ClimbsBound(st: State, w: Walk, i: nat, m: nat, q: nat, b: nat)
    requires Climbs(st, w, i, m, q, b)
    ensures b < |w.st.open|
  {}

  lemma StillChild(h: Heap, x: NodeId, y: NodeId, v: NodeId)
    requires WellFormed(h) && x in h && v in h && v != x && h[v].parent == Some(y)
    ensures v in Detach(h, x) && Detach(h, x)[v].parent == Some(y)
  {
  }

  lemma ChildOf(h: Heap, h': Heap, y: NodeId, v: NodeId)
    requires WellFormed(h) && WellFormed(h') && v in h && h[v].parent == Some(y) && SameAt(h, h', y)
    ensures v in h' && h'[v].parent == Some(y)
  {
    KidAt(h, y, v);
  }

  // ---------------------------------------------------------------------------------------
  // The rest of the call

  /** The formatting element that the next turn finds, if it is open, is above `i`. */
  ghost predicate Beyond(st: State, tag: nat, i: nat) {
    var t := FindFormatting(st.nodes, st.formatting, tag);
    t != -1 ==> var k := IndexOf(st.open, st.formatting[t].id); k == -1 || i < k
  }

  /** After a round, the next turn starts from the new element or one above it. */
  lemma RoundBeyond(st: State, doc: NodeId, tag: nat, k: nat, m: nat, special: set<QName>, c: nat, i: nat)
    requires Ready(st, doc, k, m) && Tidy(st, special) && NameIn(st.nodes, st.open[m], special)
    requires HtmlTagIs(st.nodes, st.open[k], tag)
    requires forall j :: IndexOf(st.formatting, Ref(st.open[k])) < j < |st.formatting| ==> st.formatting[j].Ref?
    requires i < c < |Round(st, k, m).open| && Round(st, k, m).open[c] == Walked(st, k, m).st.nextId
    ensures Beyond(Round(st, k, m), tag, i)
  {
    hide WellFormed, Valid, Round, Walked, ListInv, SameSegment, Place, Rest, Settled, Keeps, Drawn, Ordered, AllTags;
    var r, place := Round(st, k, m), Place(st, k, m);
    RoundKeepsOrder(st, doc, k, m);
    NewEntryUnmarked(st, doc, k, m);
    RoundTree(st, doc, k, m);
    assert HtmlTagIs(r.nodes, r.open[c], tag);
    var t := FindFormatting(r.nodes, r.formatting, tag);
    assert Lists(r.open, r.formatting, c, place);
    if t != -1 {
      var k' := IndexOf(r.open, r.formatting[t].id);
      if k' != -1 { assert Lists(r.open, r.formatting, k', t); }
    }
  }

  lemma PoppedAstray(st: State, pending: Option<Kind>, doc: NodeId, k: nat, i: nat, j: nat)
    requires Valid(st, doc) && Astray(st.nodes, st.open, i, j) && i < k < |st.open|
    ensures Astray(PopTo(st, pending, k).nodes, PopTo(st, pending, k).open, i, j)
  {
    hide WellFormed, Ordered, ListOk, AllAttached, Flush;
    FlushParent(st, pending, st.open[i]);
  }

  /** What a turn finds. */
  lemma TurnFinds(st: State, pending: Option<Kind>, doc: NodeId, tag: nat, sets: TagSets)
    requires Callable(st, pending, doc, tag, sets) && Tidy(st, sets.special)
    requires Turn(st, pending, tag, sets).Again?
    ensures var t := FindFormatting(st.nodes, st.formatting, tag);
            && t != -1
            && var k := IndexOf(st.open, st.formatting[t].id);
               && k != -1
               && var m := FurthestBlock(st.nodes, st.open, k, sets.special);
                  && Ready(st, doc, k, m) && Turn(st, pending, tag, sets) == Again(Round(st, k, m))
                  && NameIn(st.nodes, st.open[m], sets.special) && HtmlTagIs(st.nodes, st.open[k], tag)
                  && InScope(st.nodes, st.open, [tag], false, sets.scope)
                  && forall j :: IndexOf(st.formatting, Ref(st.open[k])) < j < |st.formatting| ==> st.formatting[j].Ref?
  {
    hide Valid, Round, PopTo, InScope, RemoveFirst, Tidy, NameIn;
    TurnPositions(st, pending, doc, tag, sets);
    FoundLast(st, FindFormatting(st.nodes, st.formatting, tag), sets.special);
  }

  /** A turn that starts above a stray element leaves it astray, and so does the next. */
  lemma TurnKeepsAstray(st: State, pending: Option<Kind>, doc: NodeId, tag: nat, sets: TagSets, i: nat, j: nat)
    requires Callable(st, pending, doc, tag, sets) && Tidy(st, sets.special)
    requires Astray(st.nodes, st.open, i, j) && Beyond(st, tag, i)
    ensures var o := Turn(st, pending, tag, sets);
            Astray(o.st.nodes, o.st.open, i, j) && (o.Again? ==> Beyond(o.st, tag, i))
  {
    hide Valid, Round, PopTo, InScope, RemoveFirst, Tidy, NameIn, Lingers;
    var o := Turn(st, pending, tag, sets);
    var t := FindFormatting(st.nodes, st.formatting, tag);
    if o.Again? {
      TurnFinds(st, pending, doc, tag, sets);
      var k := IndexOf(st.open, st.formatting[t].id);
      var m := FurthestBlock(st.nodes, st.open, k, sets.special);
      RoundKeepsAstray(st, doc, k, m, i, j);
      var c := NewIsOpen(st, doc, k, m);
      RoundBeyond(st, doc, tag, k, m, sets.special, c, i);
    } else if t != -1 {
      var k := IndexOf(st.open, st.formatting[t].id);
      if k != -1 { PoppedAstray(st, pending, doc, k, i, j); }
    }
  }

  lemma NewIsOpen(st: State, doc: NodeId, k: nat, m: nat) returns (c: nat)
    requires Ready(st, doc, k, m)
    ensures k < c < |Round(st, k, m).open| && Round(st, k, m).open[c] == Walked(st, k, m).st.nextId
  {
    hide Round, Walked, Valid, Climbs, RemoveAt, InsertAt;
    var q, b := RoundShape(st, doc, k, m);
    ClimbsBound(st, Walked(st, k, m), k + 1, m, q, b);
    SpliceAt(Walked(st, k, m).st.open, k, b, Walked(st, k, m).st.nextId);
    c := b;
  }

  lemma {:induction false} TurnsKeepAstray(st: State, pending: Option<Kind>, doc: NodeId, tag: nat, sets: TagSets, n: nat, i: nat, j: nat)
    requires Callable(st, pending, doc, tag, sets) && Tidy(st, sets.special)
    requires Astray(st.nodes, st.open, i, j) && Beyond(st, tag, i)
    ensures var r := Turns(st, pending, tag, sets, n); Astray(r.nodes, r.open, i, j)
    decreases n
  {
    hide Valid, Turn, Conserves, Tidy, Callable, Astray, Beyond;
    if n > 0 {
      TurnKeepsAstray(st, pending, doc, tag, sets, i, j);
      TurnKeeps(st, pending, doc, tag, sets);
      TurnTidy(st, pending, doc, tag, sets);
      var o := Turn(st, pending, tag, sets);
      if o.Again? { TurnsKeepAstray(o.st, pending, doc, tag, sets, n - 1, i, j); }
    }
  }

  lemma BehindIsRound(st: State, pending: Option<Kind>, doc: NodeId, tag: nat, sets: TagSets)
    requires Callable(st, pending, doc, tag, sets) && LeavesBehind(st, tag, sets)
    ensures Turn(st, pending, tag, sets).Again?
  {
    hide Valid, Round, InScope, Lingers;
    TurnPositions(st, pending, doc, tag, sets);
  }

  /** Once a turn leaves an element behind, the call ends off the path. */
  lemma BehindStrays(st: State, pending: Option<Kind>, doc: NodeId, tag: nat, sets: TagSets, n: nat)
    requires Callable(st, pending, doc, tag, sets) && Tidy(st, sets.special) && LeavesBehind(st, tag, sets) && n > 0
    ensures var r := Turns(st, pending, tag, sets, n); !OnSpine(r.nodes, r.open, doc)
  {
    hide Valid, Round, InScope, Lingers, Tidy, NameIn, Turn, Conserves, OnSpine, FindFormatting, FurthestBlock, HtmlTagIs;
    BehindIsRound(st, pending, doc, tag, sets);
    TurnFinds(st, pending, doc, tag, sets);
    var t := FindFormatting(st.nodes, st.formatting, tag);
    var k := IndexOf(st.open, st.formatting[t].id);
    var m := FurthestBlock(st.nodes, st.open, k, sets.special);
    var i, c := RoundStrays(st, doc, k, m);
    RoundBeyond(st, doc, tag, k, m, sets.special, c, i);
    TurnKeeps(st, pending, doc, tag, sets);
    TurnTidy(st, pending, doc, tag, sets);
    var o := Turn(st, pending, tag, sets);
    TurnsKeepAstray(o.st, pending, doc, tag, sets, n - 1, i, k - 1);
    TurnsKeep(o.st, pending, doc, tag, sets, n - 1);
    var r := Turns(st, pending, tag, sets, n);
    ValidOrdered(r, doc);
    AstrayOff(r.nodes, r.open, doc, i, k - 1);
  }

  lemma ValidOrdered(st: State, doc: NodeId)
    requires Valid(st, doc)
    ensures WellFormed(st.nodes) && Ordered(st.nodes, st.open)
  {}

  lemma {:induction false} TurnsSpineExactly(st: State, pending: Option<Kind>, doc: NodeId, tag: nat, sets: TagSets, n: nat)
    requires Callable(st, pending, doc, tag, sets) && Tidy(st, sets.special) && OnSpine(st.nodes, st.open, doc)
    ensures var r := Turns(st, pending, tag, sets, n); OnSpine(r.nodes, r.open, doc) <==> Brief(st, pending, tag, sets, n)
    decreases n
  {
    hide Valid, Turn, Conserves, Tidy, Callable, LeavesBehind, OnSpine, Appends;
    if n > 0 {
      if LeavesBehind(st, tag, sets) {
        BehindStrays(st, pending, doc, tag, sets, n);
      } else {
        TurnGrows(st, pending, doc, tag, sets);
        TurnKeeps(st, pending, doc, tag, sets);
        TurnTidy(st, pending, doc, tag, sets);
        var o := Turn(st, pending, tag, sets);
        if o.Again? { TurnsSpineExactly(o.st, pending, doc, tag, sets, n - 1); }
      }
    }
  }

  /** The exact law for the whole algorithm: it leaves the open elements on the last-child path if and only
      if none of its rounds meets an element at pass 4 or later that is still listed. */
  lemma AdoptSpineExactly(st: State, pending: Option<Kind>, doc: NodeId, tag: nat, sets: TagSets)
    requires Callable(st, pending, doc, tag, sets) && Tidy(st, sets.special) && OnSpine(st.nodes, st.open, doc)
    ensures var r := Adopt(st, pending, tag, sets);
            OnSpine(r.nodes, r.open, doc) <==> PopsAtOnce(st, tag) || Brief(st, pending, tag, sets, 8)
  {
    hide Valid, Turns, OnSpine, PopTo, Brief, Tidy, Appends;
    if PopsAtOnce(st, tag) {
      PopGrows(st, pending, doc, |st.open| - 1);
    } else {
      TurnsSpineExactly(st, pending, doc, tag, sets, 8);
    }
  }

  // ---------------------------------------------------------------------------------------
  // Every action, every run

  /** The exact law for every action: it keeps the open elements on the last-child path if and only if it
      is mild. */
  lemma ActionSpineExactly(b: Builder, b': Builder, doc: NodeId, sets: TagSets, a: Action)
    requires Sound(b, doc) && Tidy(b.st, sets.special) && OnSpine(b.st.nodes, b.st.open, doc)
    requires Allowed(b, sets, a) && Does(b, b', doc, sets, a)
    ensures OnSpine(b'.st.nodes, b'.st.open, doc) <==> Mild(b, sets, a)
  {
    hide Valid, OnSpine, Appends, Adopt, Reconstruct, Flush, PopTo, AddEntry, ClearToMarker, RemoveAt, Brief, Attach, Add, Aside;
    hide Tidy, Buffered, AdoptPending, PopsAtOnce;
    if Mild(b, sets, a) {
      ActionGrows(b, b', doc, sets, a);
    } else {
      match a
      case ReenterHead(head) =>
        if OnSpine(b'.st.nodes, b'.st.open, doc) { ReenterStrays(b, doc, sets, head); }
      case DocumentComment(comment) =>
        CommentStrays(b, doc, comment, 0);
        AsideOpen(Flush(b.st, b.pending), doc, comment);
      case RootComment(comment) =>
        CommentStrays(b, doc, comment, 1);
        AsideOpen(Flush(b.st, b.pending), b.st.open[0], comment);
      case CloseFormatting(tag) => AdoptSpineExactly(b.st, b.pending, doc, tag, sets);
    }
  }

  /** The run is on the last-child path in every state. */
  ghost predicate Straight(run: seq<Builder>, doc: NodeId) {
    forall i :: 0 <= i < |run| ==> OnSpine(run[i].st.nodes, run[i].st.open, doc)
  }

  /** Of the runs from an empty document in which the list is used as the handlers use it, exactly the mild
      ones keep the open elements on the last-child path throughout. */
  lemma RunSpineExactly(run: seq<Builder>, actions: seq<Action>, doc: NodeId, sets: TagSets)
    requires Run(run, actions, doc, sets) && run[0] == Fresh(doc)
    requires forall j :: 0 <= j < |actions| ==> Tame(run[j], sets, actions[j])
    ensures Straight(run, doc) <==> MildRun(run, actions, doc, sets)
  {
    hide Valid, Sound, OnSpine, Does, Allowed, Mild, Tame, Tidy, Fresh, AtMostThree, Appends;
    if Straight(run, doc) {
      forall i | 0 <= i < |actions| ensures Mild(run[i], sets, actions[i]) {
        RunSound(run, actions, doc, sets, i, i);
        RunKeepsThree(run, actions, doc, sets, i);
        ActionSpineExactly(run[i], run[i + 1], doc, sets, actions[i]);
      }
    }
    if MildRun(run, actions, doc, sets) {
      forall i | 0 <= i < |run| ensures OnSpine(run[i].st.nodes, run[i].st.open, doc) {
        RunOnSpine(run, actions, doc, sets, i, i);
      }
    }
  }
}
