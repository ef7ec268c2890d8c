/** Text and comments stand in the document in the order in which they were inserted: over every run in
    which the adoption agency leaves no element behind on the stack. */
module InsertionOrder {
  import opened Options
  import opened Sequences
  import opened Dom
  import opened DomOps
  import opened OpenStack
  import opened DocumentOrder
  import opened LeafOrder
  import opened Adoption
  import opened AdoptionLeaves
  import opened Agency
  import opened FormattingList
  import opened TreeRuns
  import opened Spine

  /** The text and comments of the document stay in place; new ones follow, in the order of their
      creation. */
  ghost predicate Appends(st: State, st': State, doc: NodeId) {
    && WellFormed(st.nodes) && WellFormed(st'.nodes) && doc in st.nodes && doc in st'.nodes && st.nextId <= st'.nextId
    && Continues(Leaves(st.nodes, doc), Leaves(st'.nodes, doc), st.nextId, st'.nextId)
  }

  /** `t` is `s` and then identifiers from `a` to below `b`, rising. */
  ghost predicate Continues(s: seq<NodeId>, t: seq<NodeId>, a: NodeId, b: NodeId) {
    && s <= t && (forall i :: |s| <= i < |t| ==> a <= t[i] < b)
    && forall i, j :: |s| <= i < j < |t| ==> t[i] < t[j]
  }

  lemma AppendsTrans(st: State, st': State, st'': State, doc: NodeId)
    requires Appends(st, st', doc) && Appends(st', st'', doc)
    ensures Appends(st, st'', doc)
  {
    hide WellFormed, Leaves;
    var t, v := Leaves(st'.nodes, doc), Leaves(st''.nodes, doc);
    assert forall i :: 0 <= i < |t| ==> v[i] == t[i];
  }

  lemma AppendsSame(st: State, st': State, doc: NodeId)
    requires WellFormed(st.nodes) && doc in st.nodes && WellFormed(st'.nodes) && doc in st'.nodes && st.nextId <= st'.nextId
    requires Leaves(st'.nodes, doc) == Leaves(st.nodes, doc)
    ensures Appends(st, st', doc)
  {
    hide WellFormed, Leaves;
  }

  /** The open elements are on the spine, and nothing was put before old text. */
  ghost predicate GrowsAtEnd(st: State, st': State, doc: NodeId) {
    OnSpine(st'.nodes, st'.open, doc) && Appends(st, st', doc)
  }

  // ---------------------------------------------------------------------------------------
  // One new node

  function Current(open: seq<NodeId>, doc: NodeId): NodeId {
    if open == [] then doc else open[|open| - 1]
  }

  /** What a new node brings with it. */
  function NewLeaves(c: NodeId, kind: Kind): seq<NodeId> {
    if kind.HasChildren() then [] else [c]
  }

  lemma CurrentThere(st: State, doc: NodeId)
    requires Valid(st, doc) && OnSpine(st.nodes, st.open, doc)
    ensures WellFormed(st.nodes) && doc in st.nodes && st.nextId !in st.nodes && doc !in st.open && Ordered(st.nodes, st.open)
    ensures var w := Current(st.open, doc);
            && w in st.nodes && st.nodes[w].kind.HasChildren() && Under(st.nodes, w, doc)
            && (w != doc ==> OnLastPath(st.nodes, doc, w))
  {
    hide ChildrenLinked, ParentsLinked, LeavesBare, Acyclic, Ordered, AllAttached, OnLastPath, ListOk;
    SelfIn(st.nodes, doc);
    if st.open != [] {
      SpineBetween(st.nodes, st.open, doc, 0, |st.open| - 1);
      LastPathUnder(st.nodes, doc, Current(st.open, doc));
    }
  }

  lemma GraftKids(h: Heap, w: NodeId, c: NodeId, kind: Kind, y: NodeId)
    requires c !in h && y in h && y != w
    ensures var h' := Attach(Add(h, c, kind), w, c); SameAt(h, h', y) && KidsKept(h, h', y)
  {
  }

  lemma GraftedLast(h: Heap, w: NodeId, c: NodeId, kind: Kind)
    requires WellFormed(h) && w in h && h[w].kind.HasChildren() && c !in h
    ensures var h' := Attach(Add(h, c, kind), w, c); WellFormed(h') && c in h' && OnLastPath(h', w, c)
  {
    GraftFresh(h, w, c, kind, c);
    hide ChildrenLinked, ParentsLinked, LeavesBare, Acyclic, OnLastPath;
    LastChild(Attach(Add(h, c, kind), w, c), w, c);
  }

  lemma GraftedLeaves(h: Heap, w: NodeId, c: NodeId, kind: Kind)
    requires WellFormed(h) && w in h && h[w].kind.HasChildren() && c !in h
    ensures var h' := Attach(Add(h, c, kind), w, c);
            WellFormed(h') && w in h' && Leaves(h', w) == Leaves(h, w) + NewLeaves(c, kind)
  {
    hide ChildrenLinked, ParentsLinked, LeavesBare, Acyclic, Attach, Under;
    var g := Add(h, c, kind);
    GraftFresh(h, w, c, kind, w);
    AddWellFormed(h, c, kind);
    forall y | y in h && Under(h, y, w) ensures SameAt(h, g, y) { AddSame(h, c, kind, y); }
    LeavesSame(h, g, w);
    FreshAttachable(h, w, c, kind);
    LeavesAttach(g, w, c);
    FreshLeaves(h, c, kind);
  }

  lemma FreshAttachable(h: Heap, w: NodeId, c: NodeId, kind: Kind)
    requires WellFormed(h) && w in h && h[w].kind.HasChildren() && c !in h
    ensures Attachable(Add(h, c, kind), w, c)
  {
    hide ChildrenLinked, ParentsLinked, LeavesBare, Acyclic;
    AddPaths(h, c, kind);
    OutsideHeap(h, w, c);
  }

  lemma FreshLeaves(h: Heap, c: NodeId, kind: Kind)
    requires WellFormed(Add(h, c, kind))
    ensures Leaves(Add(h, c, kind), c) == NewLeaves(c, kind)
  {
    hide ChildrenLinked, ParentsLinked, LeavesBare, Acyclic;
    assert Add(h, c, kind)[c] == Node(kind, None, -1, []);
  }

  /** A new last child of the current node keeps the spine, extends it, and comes behind all text. */
  lemma GraftAppends(st: State, doc: NodeId, kind: Kind)
    requires Valid(st, doc) && OnSpine(st.nodes, st.open, doc)
    ensures var c, w := st.nextId, Current(st.open, doc);
            var h' := Attach(Add(st.nodes, c, kind), w, c);
            && OnSpine(h', st.open, doc) && OnSpine(h', st.open + [c], doc)
            && doc in st.nodes && doc in h' && Leaves(h', doc) == Leaves(st.nodes, doc) + NewLeaves(c, kind)
  {
    hide ChildrenLinked, ParentsLinked, LeavesBare, Acyclic, Attach, Add, Valid, OnLastPath, Leaves, Under, Ordered, SameAt;
    hide KidsKept;
    var h, c, w := st.nodes, st.nextId, Current(st.open, doc);
    var h' := Attach(Add(h, c, kind), w, c);
    CurrentThere(st, doc);
    GraftedLast(h, w, c, kind);
    GraftedLeaves(h, w, c, kind);
    SelfIn(h, w);
    forall y | y in h && y != w ensures SameAt(h, h', y) && KidsKept(h, h', y) { GraftKids(h, w, c, kind, y); }
    if st.open == [] { EmptySpine(h', doc); } else { SpineKept(h, h', st.open, doc); }
    SpinePush(h', st.open, doc, c);
    LeavesSplit(h, h', doc, w);
    LeavesParts(h, doc, w);
    NothingBehind(h, doc, w);
    var p, l := LeavesBefore(h, doc, w), Leaves(h, w);
    assert p + (l + NewLeaves(c, kind)) + [] == p + l + [] + NewLeaves(c, kind);
  }

  lemma EmptySpine(h: Heap, doc: NodeId)
    requires WellFormed(h)
    ensures OnSpine(h, [], doc)
  {}

  lemma NothingBehind(h: Heap, doc: NodeId, w: NodeId)
    requires WellFormed(h) && doc in h && w in h && Under(h, w, doc) && (w != doc ==> OnLastPath(h, doc, w))
    ensures LeavesAfter(h, doc, w) == []
  {
    if w != doc { LastPathNothingAfter(h, doc, w); }
  }

  lemma GraftGrows(st: State, doc: NodeId, kind: Kind, open: seq<NodeId>, formatting: seq<Entry>)
    requires Valid(st, doc) && OnSpine(st.nodes, st.open, doc) && (open == st.open || open == st.open + [st.nextId])
    ensures var h' := Attach(Add(st.nodes, st.nextId, kind), Current(st.open, doc), st.nextId);
            GrowsAtEnd(st, State(h', st.nextId + 1, open, formatting), doc)
  {
    hide WellFormed, Attach, Add, Valid, Leaves, OnSpine;
    CurrentThere(st, doc);
    GraftAppends(st, doc, kind);
    SpineWellFormed(Attach(Add(st.nodes, st.nextId, kind), Current(st.open, doc), st.nextId), open, doc);
  }

  lemma SpineWellFormed(h: Heap, open: seq<NodeId>, doc: NodeId)
    requires OnSpine(h, open, doc)
    ensures WellFormed(h)
  {}

  lemma GrowsSelf(st: State, doc: NodeId, open: seq<NodeId>, formatting: seq<Entry>)
    requires Valid(st, doc) && OnSpine(st.nodes, open, doc)
    ensures GrowsAtEnd(st, State(st.nodes, st.nextId, open, formatting), doc)
  {
    hide WellFormed, Leaves;
  }

  lemma GrowsTrans(st: State, st': State, st'': State, doc: NodeId)
    requires GrowsAtEnd(st, st', doc) && GrowsAtEnd(st', st'', doc)
    ensures GrowsAtEnd(st, st'', doc)
  {
    hide Appends, OnSpine;
    AppendsTrans(st, st', st'', doc);
  }

  lemma FlushGrows(st: State, pending: Option<Kind>, doc: NodeId)
    requires Valid(st, doc) && OnSpine(st.nodes, st.open, doc)
    ensures GrowsAtEnd(st, Flush(st, pending), doc)
  {
    hide Valid, OnSpine, GrowsAtEnd, Attach, Add;
    if pending.None? || st.open == [] {
      GrowsSelf(st, doc, st.open, st.formatting);
    } else {
      GraftGrows(st, doc, pending.value, st.open, st.formatting);
    }
  }

  lemma PopGrows(st: State, pending: Option<Kind>, doc: NodeId, k: nat)
    requires Valid(st, doc) && OnSpine(st.nodes, st.open, doc) && k < |st.open|
    ensures GrowsAtEnd(st, PopTo(st, pending, k), doc)
  {
    hide Valid, OnSpine, Flush, WellFormed, Leaves;
    FlushGrows(st, pending, doc);
    SpinePrefix(Flush(st, pending).nodes, st.open, doc, k);
  }

  lemma {:induction false} RebuildGrows(st: State, doc: NodeId, i: nat)
    requires Valid(st, doc) && st.open != [] && OnSpine(st.nodes, st.open, doc)
    requires forall j :: i <= j < |st.formatting| ==> st.formatting[j].Ref?
    ensures GrowsAtEnd(st, RebuildFrom(st, i), doc)
    decreases |st.formatting| - i
  {
    hide Valid, OnSpine, Appends, Attach, Add, Conserves;
    if i < |st.formatting| {
      var r := RebuildOne(st, i);
      GraftGrows(st, doc, KindOf(st.nodes, st.formatting[i].id), r.open, r.formatting);
      RebuildOneValid(st, doc, i);
      RebuildGrows(r, doc, i + 1);
      GrowsTrans(st, r, RebuildFrom(st, i), doc);
    } else {
      GrowsSelf(st, doc, st.open, st.formatting);
    }
  }

  // ---------------------------------------------------------------------------------------
  // The adoption agency

  lemma {:induction false} WalkDownIds(w: Walk, k: nat, i: nat, pass: nat, block: NodeId)
    requires i <= |w.st.open|
    ensures w.st.nextId <= WalkDown(w, k, i, pass, block).st.nextId
    decreases i
  {
    hide Visit;
    if i > k + 1 {
      VisitIds(w, i - 1, pass, block);
      WalkDownIds(Visit(w, i - 1, pass, block), k, i - 1, pass + 1, block);
    }
  }

  lemma VisitIds(w: Walk, i: nat, pass: nat, block: NodeId)
    requires i < |w.st.open|
    ensures w.st.nextId <= Visit(w, i, pass, block).st.nextId
  {
    hide Wrap, IndexOf;
  }

  lemma RoundGrows(st: State, doc: NodeId, k: nat, m: nat)
    requires Ready(st, doc, k, m) && OnSpine(st.nodes, st.open, doc) && !Lingers(st, k + 1, m)
    ensures GrowsAtEnd(st, Round(st, k, m), doc)
  {
    hide ChildrenLinked, ParentsLinked, LeavesBare, Acyclic, OnLastPath, Leaves, Valid, Round, Lingers, OnSpine;
    RoundSpineExactly(st, doc, k, m);
    SpineBetween(st.nodes, st.open, doc, k, m);
    RoundPlaces(st, doc, k, m);
    RoundKeepsLeaves(st, doc, k, m);
    RoundIds(st, k, m);
    AppendsSame(st, Round(st, k, m), doc);
  }

  lemma RoundIds(st: State, k: nat, m: nat)
    requires 0 < k < m < |st.open|
    ensures st.nextId <= Round(st, k, m).nextId
  {
    hide WalkDown, Interpose, Moved, RemoveFirst, InsertWithin, IndexOf;
    WalkDownIds(Walk(st, st.open[m], IndexOf(st.formatting, Ref(st.open[k])) + 1), k, m, 1, st.open[m]);
  }

  /** The round a turn would run, if any, meets an element at pass 4 or later that is still listed. */
  predicate LeavesBehind(st: State, tag: nat, sets: TagSets) {
    var t := FindFormatting(st.nodes, st.formatting, tag);
    t != -1 &&
    var k := IndexOf(st.open, st.formatting[t].id);
    k != -1 && InScope(st.nodes, st.open, [tag], false, sets.scope) &&
    var m := FurthestBlock(st.nodes, st.open, k, sets.special);
    m != -1 && Lingers(st, k + 1, m)
  }

  /** None of the rounds of at most `n` turns leaves an element behind. */
  predicate Brief(st: State, pending: Option<Kind>, tag: nat, sets: TagSets, n: nat)
    decreases n
  {
    n == 0 ||
    (!LeavesBehind(st, tag, sets) &&
     match Turn(st, pending, tag, sets)
     case Done(_) => true
     case Again(r) => Brief(r, pending, tag, sets, n - 1))
  }

  lemma TurnGrows(st: State, pending: Option<Kind>, doc: NodeId, tag: nat, sets: TagSets)
    requires Callable(st, pending, doc, tag, sets) && OnSpine(st.nodes, st.open, doc) && !LeavesBehind(st, tag, sets)
    ensures GrowsAtEnd(st, Turn(st, pending, tag, sets).st, doc)
  {
    hide Valid, OnSpine, Round, InScope, RemoveFirst, PopTo, Lingers, Appends;
    TurnPositions(st, pending, doc, tag, sets);
    GrowsSelf(st, doc, st.open, st.formatting);
    var t := FindFormatting(st.nodes, st.formatting, tag);
    if t != -1 {
      var fe := st.formatting[t].id;
      var k := IndexOf(st.open, fe);
      if k == -1 {
        GrowsSelf(st, doc, st.open, RemoveFirst(st.formatting, Ref(fe)));
      } else {
        var m := FurthestBlock(st.nodes, st.open, k, sets.special);
        if m == -1 {
          PopGrows(st, pending, doc, k);
          var r := PopTo(st, pending, k);
          Relisted(st, r, doc, RemoveFirst(r.formatting, Ref(fe)));
        } else if InScope(st.nodes, st.open, [tag], false, sets.scope) {
          RoundGrows(st, doc, k, m);
        }
      }
    }
  }

  /** The list plays no part. */
  lemma Relisted(st: State, r: State, doc: NodeId, list: seq<Entry>)
    requires GrowsAtEnd(st, r, doc)
    ensures GrowsAtEnd(st, r.(formatting := list), doc)
  {
    hide OnSpine, WellFormed, Leaves;
  }

  lemma {:induction false} TurnsGrow(st: State, pending: Option<Kind>, doc: NodeId, tag: nat, sets: TagSets, n: nat)
    requires Callable(st, pending, doc, tag, sets) && OnSpine(st.nodes, st.open, doc) && Brief(st, pending, tag, sets, n)
    ensures GrowsAtEnd(st, Turns(st, pending, tag, sets, n), doc)
    decreases n
  {
    hide Valid, Turn, Conserves, OnSpine, Appends, LeavesBehind;
    if n == 0 {
      GrowsSelf(st, doc, st.open, st.formatting);
    } else {
      TurnGrows(st, pending, doc, tag, sets);
      TurnKeeps(st, pending, doc, tag, sets);
      var o := Turn(st, pending, tag, sets);
      if o.Again? {
        TurnsGrow(o.st, pending, doc, tag, sets, n - 1);
        GrowsTrans(st, o.st, Turns(o.st, pending, tag, sets, n - 1), doc);
      }
    }
  }

  lemma AdoptGrows(st: State, pending: Option<Kind>, doc: NodeId, tag: nat, sets: TagSets)
    requires Callable(st, pending, doc, tag, sets) && OnSpine(st.nodes, st.open, doc)
    requires PopsAtOnce(st, tag) || Brief(st, pending, tag, sets, 8)
    ensures GrowsAtEnd(st, Adopt(st, pending, tag, sets), doc)
  {
    hide Valid, Turns, GrowsAtEnd, OnSpine, PopTo, Brief;
    if PopsAtOnce(st, tag) {
      PopGrows(st, pending, doc, |st.open| - 1);
    } else {
      TurnsGrow(st, pending, doc, tag, sets, 8);
    }
  }

  // ---------------------------------------------------------------------------------------
  // Runs

  /** What keeps text in order: no element is left behind on the stack, the head is opened again only
      while nothing follows it, and comments go beside the stack only while it has nothing to go round. */
  predicate Mild(b: Builder, sets: TagSets, a: Action)
    requires Allowed(b, sets, a)
  {
    var st := b.st;
    match a
    case CloseFormatting(tag) => PopsAtOnce(st, tag) || Brief(st, b.pending, tag, sets, 8)
    case ReenterHead(head) =>
      && b.pending == None && st.open[0] in st.nodes
      && var kids := st.nodes[st.open[0]].children; kids != [] && kids[|kids| - 1] == head
    case DocumentComment(_) => st.open == []
    case RootComment(_) => |st.open| == 1
    case _ => true
  }

  lemma InsertGrows(b: Builder, doc: NodeId, element: Kind)
    requires Sound(b, doc) && OnSpine(b.st.nodes, b.st.open, doc) && b.st.open != []
    ensures GrowsAtEnd(b.st, Opened(Flush(b.st, b.pending), b.st.open[|b.st.open| - 1], element), doc)
  {
    hide Valid, OnSpine, Flush, Appends, Attach, Add;
    var f := Flush(b.st, b.pending);
    FlushValid(b.st, b.pending, doc);
    FlushGrows(b.st, b.pending, doc);
    var r := Opened(f, b.st.open[|b.st.open| - 1], element);
    GraftGrows(f, doc, element, r.open, r.formatting);
    GrowsTrans(b.st, f, r, doc);
  }

  lemma CommentGrows(b: Builder, doc: NodeId, comment: Kind)
    requires Sound(b, doc) && OnSpine(b.st.nodes, b.st.open, doc)
    ensures GrowsAtEnd(b.st, Flush(Flush(b.st, b.pending), Some(comment)), doc)
  {
    hide Valid, OnSpine, Flush, Appends;
    var f := Flush(b.st, b.pending);
    FlushValid(b.st, b.pending, doc);
    FlushGrows(b.st, b.pending, doc);
    FlushGrows(f, Some(comment), doc);
    GrowsTrans(b.st, f, Flush(f, Some(comment)), doc);
  }

  lemma AsideGrows(b: Builder, doc: NodeId, comment: Kind)
    requires Sound(b, doc) && OnSpine(b.st.nodes, b.st.open, doc)
    ensures GrowsAtEnd(b.st, Aside(Flush(b.st, b.pending), Current(b.st.open, doc), comment), doc)
  {
    hide Valid, OnSpine, Flush, Appends, Attach, Add;
    var f := Flush(b.st, b.pending);
    FlushValid(b.st, b.pending, doc);
    FlushGrows(b.st, b.pending, doc);
    GraftGrows(f, doc, comment, f.open, f.formatting);
    GrowsTrans(b.st, f, Aside(f, Current(f.open, doc), comment), doc);
  }

  lemma ReopenGrows(st: State, doc: NodeId)
    requires Valid(st, doc) && OnSpine(st.nodes, st.open, doc) && st.open != []
    ensures GrowsAtEnd(st, Reconstruct(st), doc)
  {
    hide Valid, OnSpine, GrowsAtEnd, RebuildFrom;
    RebuildGrows(st, doc, RebuildStart(st.open, st.formatting));
  }

  lemma ReenterGrows(b: Builder, doc: NodeId, sets: TagSets, head: NodeId)
    requires Sound(b, doc) && OnSpine(b.st.nodes, b.st.open, doc)
    requires Allowed(b, sets, ReenterHead(head)) && Mild(b, sets, ReenterHead(head))
    ensures GrowsAtEnd(b.st, b.st.(open := b.st.open + [head]), doc)
  {
    hide ChildrenLinked, ParentsLinked, LeavesBare, Acyclic, Ordered, AllAttached, AllTags, ListOk, OnLastPath, GrowsAtEnd;
    LastChild(b.st.nodes, b.st.open[0], head);
    SpinePush(b.st.nodes, b.st.open, doc, head);
    GrowsSelf(b.st, doc, b.st.open + [head], b.st.formatting);
  }

  lemma UnopenGrows(st: State, doc: NodeId, place: nat)
    requires Valid(st, doc) && OnSpine(st.nodes, st.open, doc) && place < |st.open|
    ensures GrowsAtEnd(st, st.(open := RemoveAt(st.open, place)), doc)
  {
    hide Valid, OnSpine, GrowsAtEnd;
    SpineRemoveAt(st.nodes, st.open, doc, place);
    GrowsSelf(st, doc, RemoveAt(st.open, place), st.formatting);
  }

  lemma ActionGrows(b: Builder, b': Builder, doc: NodeId, sets: TagSets, a: Action)
    requires Sound(b, doc) && OnSpine(b.st.nodes, b.st.open, doc)
    requires Allowed(b, sets, a) && Does(b, b', doc, sets, a) && Mild(b, sets, a)
    ensures GrowsAtEnd(b.st, b'.st, doc)
  {
    hide Valid, OnSpine, GrowsAtEnd, Adopt, Reconstruct, Flush, PopTo, AddEntry, ClearToMarker, RemoveAt, Brief,
      Attach, Add, Aside;
    var st := b.st;
    match a
    case InsertRoot(root) => GraftGrows(st, doc, root, b'.st.open, st.formatting);
    case InsertElement(element) => InsertGrows(b, doc, element);
    case InsertComment(comment) => CommentGrows(b, doc, comment);
    case DocumentComment(comment) => AsideGrows(b, doc, comment);
    case RootComment(comment) => AsideGrows(b, doc, comment);
    case PopDown(height) => PopGrows(st, b.pending, doc, height);
    case Unopen(place) => UnopenGrows(st, doc, place);
    case ReenterHead(head) =>
      NothingFlushed(st);
      ReenterGrows(b, doc, sets, head);
    case CloseFormatting(tag) => AdoptGrows(st, b.pending, doc, tag, sets);
    case Reopen => ReopenGrows(st, doc);
    case _ => GrowsSelf(st, doc, st.open, b'.st.formatting);
  }

  lemma NothingFlushed(st: State)
    ensures Flush(st, None) == st
  {}

  /** Every action of the run, taken in the state it is taken in, is a mild one. */
  ghost predicate MildRun(run: seq<Builder>, actions: seq<Action>, doc: NodeId, sets: TagSets) {
    Run(run, actions, doc, sets) && forall i :: 0 <= i < |actions| ==> Mild(run[i], sets, actions[i])
  }

  lemma {:induction false} RunOnSpine(run: seq<Builder>, actions: seq<Action>, doc: NodeId, sets: TagSets, i: nat, j: nat)
    requires MildRun(run, actions, doc, sets) && run[0] == Fresh(doc) && i <= j < |run|
    ensures OnSpine(run[i].st.nodes, run[i].st.open, doc) && GrowsAtEnd(run[i].st, run[j].st, doc)
    decreases j
  {
    hide Valid, Conserves, Does, Allowed, Mild, OnSpine, Appends;
    RunSound(run, actions, doc, sets, i, j);
    if j == 0 {
      FreshSpine(doc);
    } else if i < j {
      RunOnSpine(run, actions, doc, sets, i, j - 1);
      RunSound(run, actions, doc, sets, j - 1, j - 1);
      ActionGrows(run[j - 1], run[j], doc, sets, actions[j - 1]);
      GrowsTrans(run[i].st, run[j - 1].st, run[j].st, doc);
    } else {
      RunOnSpine(run, actions, doc, sets, j - 1, j - 1);
      RunSound(run, actions, doc, sets, j - 1, j - 1);
      ActionGrows(run[j - 1], run[j], doc, sets, actions[j - 1]);
    }
    if i == j { GrowsSelf(run[j].st, doc, run[j].st.open, run[j].st.formatting); }
  }

  lemma FreshSpine(doc: NodeId)
    ensures OnSpine(Fresh(doc).st.nodes, Fresh(doc).st.open, doc) && Leaves(Fresh(doc).st.nodes, doc) == []
  {
    FreshSound(doc);
  }

  /** From an empty document on, in every mild run: the text and comment nodes of each state open those of
      every later one, and stand in document order in the order in which they were made. */
  lemma RunInInsertionOrder(run: seq<Builder>, actions: seq<Action>, doc: NodeId, sets: TagSets, i: nat, j: nat)
    requires MildRun(run, actions, doc, sets) && run[0] == Fresh(doc) && i <= j < |run|
    ensures WellFormed(run[i].st.nodes) && doc in run[i].st.nodes && WellFormed(run[j].st.nodes) && doc in run[j].st.nodes
    ensures Leaves(run[i].st.nodes, doc) <= Leaves(run[j].st.nodes, doc)
    ensures var s := Leaves(run[j].st.nodes, doc); forall p, q :: 0 <= p < q < |s| ==> s[p] < s[q]
  {
    hide WellFormed, Leaves, OnSpine, Run, Fresh;
    RunOnSpine(run, actions, doc, sets, i, j);
    RunOnSpine(run, actions, doc, sets, 0, j);
    FreshSpine(doc);
  }

  /** So in every mild run each round of the adoption agency keeps the order of all text. */
  lemma MildRoundKeepsText(run: seq<Builder>, actions: seq<Action>, doc: NodeId, sets: TagSets, i: nat, k: nat, m: nat)
    requires MildRun(run, actions, doc, sets) && run[0] == Fresh(doc) && i < |run| && Ready(run[i].st, doc, k, m)
    ensures OnLastPath(run[i].st.nodes, run[i].st.open[k - 1], run[i].st.open[m])
    ensures var h, r := run[i].st.nodes, Round(run[i].st, k, m).nodes;
            WellFormed(h) && WellFormed(r) && doc in h && doc in r && Leaves(r, doc) == Leaves(h, doc)
  {
    hide WellFormed, Leaves, OnSpine, Run, Fresh, Valid, Round, OnLastPath;
    RunOnSpine(run, actions, doc, sets, i, i);
    SpineBetween(run[i].st.nodes, run[i].st.open, doc, k, m);
    RoundKeepsLeaves(run[i].st, doc, k, m);
  }
}
