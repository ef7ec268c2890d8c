/** Whole runs of tree construction: the actions the handlers compose, in whatever order. */
module TreeRuns {
  import opened Options
  import opened Sequences
  import opened Dom
  import opened DomOps
  import opened OpenStack
  import opened Adoption
  import opened Agency
  import opened FormattingList
  import opened ListOrder
  import opened NoahsArk

  /** The parser state and its text buffer. */
  datatype Builder = Builder(st: State, pending: Option<Kind>)

  datatype Action =
    | BufferText(text: Kind)
    | InsertRoot(root: Kind)
    | InsertElement(element: Kind)
    | InsertComment(comment: Kind)
    | DocumentComment(comment: Kind)
    | RootComment(comment: Kind)
    | PopDown(height: nat)
    | Unopen(place: nat)
    | ReenterHead(head: NodeId)
    | CloseFormatting(tag: nat)
    | Reopen
    | ListMarker
    | ListElement(id: NodeId)
    | Unlist(position: nat)
    | ClearList

  predicate IsText(kind: Kind) { kind.Text? || kind.Whitespace? || kind.Cdata? }

  /** When the handlers may take an action. */
  predicate Allowed(b: Builder, sets: TagSets, a: Action) {
    match a
    case BufferText(text) => IsText(text)
    case InsertRoot(root) => b.st.open == [] && root.Element? && root.name == QName(Html, HTML_TAG)
    case InsertElement(element) => b.st.open != [] && element.IsTag()
    case InsertComment(comment) => b.st.open != [] && comment.Comment?
    case DocumentComment(comment) => comment.Comment?
    case RootComment(comment) => b.st.open != [] && comment.Comment?
    case PopDown(height) => height < |b.st.open|
    case Unopen(place) => 0 < place < |b.st.open|
    case ReenterHead(head) =>
      && |b.st.open| == 1 && head in b.st.nodes && b.st.nodes[head].kind.IsTag()
      && b.st.nodes[head].parent == Some(b.st.open[0])
    case CloseFormatting(tag) => b.st.open != [] && tag != HTML_TAG && QName(Html, tag) !in sets.special
    case Reopen => b.st.open != []
    case ListMarker => true
    case ListElement(id) => id in b.st.nodes && b.st.nodes[id].kind.IsTag()
    case Unlist(position) => position < |b.st.formatting|
    case ClearList => true
  }

  /** A new node, the last child of `parent`, and on the stack. */
  function Opened(st: State, parent: NodeId, kind: Kind): State {
    var c := st.nextId;
    State(Attach(Add(st.nodes, c, kind), parent, c), c + 1, st.open + [c], st.formatting)
  }

  /** A new node, the last child of `parent`, off the stack. */
  function Aside(st: State, parent: NodeId, kind: Kind): State {
    var c := st.nextId;
    State(Attach(Add(st.nodes, c, kind), parent, c), c + 1, st.open, st.formatting)
  }

  /** What an action may turn the state into. */
  ghost predicate Does(b: Builder, b': Builder, doc: NodeId, sets: TagSets, a: Action)
    requires Allowed(b, sets, a)
  {
    var st, p := b.st, b.pending;
    match a
    case BufferText(text) => b' == Builder(st, Buffered(p, text))
    case InsertRoot(root) => b' == Builder(Opened(st, doc, root), None)
    case InsertElement(element) => b' == Builder(Opened(Flush(st, p), st.open[|st.open| - 1], element), None)
    case InsertComment(comment) => b' == Builder(Flush(Flush(st, p), Some(comment)), None)
    case DocumentComment(comment) => b' == Builder(Aside(Flush(st, p), doc, comment), None)
    case RootComment(comment) => b' == Builder(Aside(Flush(st, p), st.open[0], comment), None)
    case PopDown(height) => b' == Builder(PopTo(st, p, height), None)
    case Unopen(place) => b' == b.(st := st.(open := RemoveAt(st.open, place)))
    case ReenterHead(head) => b' == Builder(Flush(st, p).(open := st.open + [head]), None)
    case CloseFormatting(tag) =>
      b' == Builder(Adopt(st, p, tag, sets), AdoptPending(st, p, tag, sets))
    case Reopen => b' == Builder(Reconstruct(st), p)
    case ListMarker => b' == b.(st := st.(formatting := AddEntry(st.nodes, st.formatting, Marker)))
    case ListElement(id) => b' == b.(st := st.(formatting := AddEntry(st.nodes, st.formatting, Ref(id))))
    case Unlist(position) => b' == b.(st := st.(formatting := RemoveAt(st.formatting, position)))
    case ClearList => b' == b.(st := st.(formatting := ClearToMarker(st.formatting)))
  }

  /** What holds in every reachable state. */
  ghost predicate Sound(b: Builder, doc: NodeId) {
    && Valid(b.st, doc)
    && (b.pending.Some? ==> !b.pending.value.HasChildren())
    && (b.st.open != [] ==> HtmlTagIs(b.st.nodes, b.st.open[0], HTML_TAG))
  }

  /** A document without children, nothing open. */
  function Fresh(doc: NodeId): Builder {
    Builder(State(map[doc := Node(Document, None, -1, [])], doc + 1, [], []), None)
  }

  lemma FreshSound(doc: NodeId)
    ensures Sound(Fresh(doc), doc)
  {
    var h := Fresh(doc).st.nodes;
    assert PathTo(h, doc, [doc]);
    assert Rooted(h, doc);
  }

  // ---------------------------------------------------------------------------------------
  // The html element stays at the bottom

  lemma TurnBottom(st: State, pending: Option<Kind>, doc: NodeId, tag: nat, sets: TagSets)
    requires Callable(st, pending, doc, tag, sets)
    ensures var r := Turn(st, pending, tag, sets).st; r.open != [] && r.open[0] == st.open[0]
  {
    hide Valid, Round, InScope, RemoveFirst;
    TurnPositions(st, pending, doc, tag, sets);
    var t := FindFormatting(st.nodes, st.formatting, tag);
    if t != -1 {
      var k := IndexOf(st.open, st.formatting[t].id);
      if k != -1 {
        var m := FurthestBlock(st.nodes, st.open, k, sets.special);
        if m != -1 { RoundBottom(st, doc, k, m); }
      }
    }
  }

  lemma {:induction false} TurnsBottom(st: State, pending: Option<Kind>, doc: NodeId, tag: nat, sets: TagSets, n: nat)
    requires Callable(st, pending, doc, tag, sets)
    ensures var r := Turns(st, pending, tag, sets, n); r.open != [] && r.open[0] == st.open[0]
    decreases n
  {
    hide Valid, Turn, Conserves;
    if n > 0 {
      TurnBottom(st, pending, doc, tag, sets);
      TurnKeeps(st, pending, doc, tag, sets);
      var o := Turn(st, pending, tag, sets);
      if o.Again? { TurnsBottom(o.st, pending, doc, tag, sets, n - 1); }
    }
  }

  lemma AdoptBottom(st: State, pending: Option<Kind>, doc: NodeId, tag: nat, sets: TagSets)
    requires Callable(st, pending, doc, tag, sets)
    ensures var r := Adopt(st, pending, tag, sets); r.open != [] && r.open[0] == st.open[0]
  {
    hide Valid, Turns;
    if !PopsAtOnce(st, tag) { TurnsBottom(st, pending, doc, tag, sets, 8); }
  }

  lemma BottomKept(h: Heap, h': Heap, doc: NodeId, n: NodeId)
    requires Conserves(h, h', doc) && n in h && HtmlTagIs(h, n, HTML_TAG)
    ensures HtmlTagIs(h', n, HTML_TAG)
  {
    hide WellFormed, RootOf;
  }

  // ---------------------------------------------------------------------------------------
  // Every action

  lemma RootSound(b: Builder, doc: NodeId, root: Kind)
    requires Sound(b, doc) && b.st.open == [] && root.Element? && root.name == QName(Html, HTML_TAG)
    ensures Sound(Builder(Opened(b.st, doc, root), None), doc)
    ensures Conserves(b.st.nodes, Opened(b.st, doc, root).nodes, doc)
  {
    hide ChildrenLinked, ParentsLinked, LeavesBare, Acyclic, Attach, Add, Conserves, RootOf;
    var st, c := b.st, b.st.nextId;
    var h' := Opened(st, doc, root).nodes;
    RootIsItself(st.nodes, doc);
    PushKeeps(st.nodes, doc, c, root);
    PushConserves(st.nodes, doc, c, root, doc);
    PushRoot(st.nodes, doc, c, root, c);
    DocumentStays(st.nodes, h', doc);
    ConservesKeeps(st.nodes, h', doc);
  }

  lemma RootIsItself(h: Heap, doc: NodeId)
    requires Acyclic(h) && doc in h && h[doc].parent == None
    ensures RootOf(h, doc) == doc
  {
    RootPathOf(h, doc);
  }

  lemma ConservesKeeps(h: Heap, h': Heap, doc: NodeId)
    requires Conserves(h, h', doc)
    ensures WellFormed(h') && Keeps(h, h')
  {}

  lemma ElementSound(b: Builder, doc: NodeId, element: Kind)
    requires Sound(b, doc) && b.st.open != [] && element.IsTag()
    ensures var r := Opened(Flush(b.st, b.pending), b.st.open[|b.st.open| - 1], element);
            Sound(Builder(r, None), doc) && Conserves(b.st.nodes, r.nodes, doc)
  {
    hide Valid, Conserves, Flush;
    var st := b.st;
    var f := Flush(st, b.pending);
    FlushValid(st, b.pending, doc);
    PushValid(f, doc, element);
    var r := Opened(f, st.open[|st.open| - 1], element);
    ConservesTrans(st.nodes, f.nodes, r.nodes, doc);
    BottomKept(st.nodes, r.nodes, doc, st.open[0]);
  }

  lemma CommentSound(b: Builder, doc: NodeId, comment: Kind)
    requires Sound(b, doc) && b.st.open != [] && comment.Comment?
    ensures var r := Flush(Flush(b.st, b.pending), Some(comment));
            Sound(Builder(r, None), doc) && Conserves(b.st.nodes, r.nodes, doc)
  {
    hide Valid, Conserves, Flush;
    var st := b.st;
    var f := Flush(st, b.pending);
    FlushValid(st, b.pending, doc);
    FlushValid(f, Some(comment), doc);
    ConservesTrans(st.nodes, f.nodes, Flush(f, Some(comment)).nodes, doc);
    BottomKept(st.nodes, Flush(f, Some(comment)).nodes, doc, st.open[0]);
  }

  lemma AsideOrdered(st: State, w: NodeId, kind: Kind)
    requires WellFormed(st.nodes) && Ordered(st.nodes, st.open) && st.nextId !in st.nodes
    requires w in st.nodes && st.nodes[w].kind.HasChildren()
    ensures WellFormed(Aside(st, w, kind).nodes) && Ordered(Aside(st, w, kind).nodes, st.open)
  {
    hide ChildrenLinked, ParentsLinked, LeavesBare, Acyclic, Attach, Add;
    var h' := Aside(st, w, kind).nodes;
    GraftFresh(st.nodes, w, st.nextId, kind, w);
    PushKeeps(st.nodes, w, st.nextId, kind);
    forall i, j | 0 <= i < j < |st.open| ensures !Under(h', st.open[i], st.open[j]) {
      assert !Under(st.nodes, st.open[i], st.open[j]);
      GraftFresh(st.nodes, w, st.nextId, kind, st.open[i]);
    }
  }

  lemma AsideValid(st: State, doc: NodeId, w: NodeId, kind: Kind)
    requires Valid(st, doc) && w in st.nodes && st.nodes[w].kind.HasChildren() && RootOf(st.nodes, w) == doc
    ensures Valid(Aside(st, w, kind), doc) && Conserves(st.nodes, Aside(st, w, kind).nodes, doc)
  {
    hide ChildrenLinked, ParentsLinked, LeavesBare, Acyclic, Attach, Add, Conserves, RootOf, Ordered;
    var h' := Aside(st, w, kind).nodes;
    AsideOrdered(st, w, kind);
    PushKeeps(st.nodes, w, st.nextId, kind);
    PushConserves(st.nodes, w, st.nextId, kind, doc);
    DocumentStays(st.nodes, h', doc);
    forall i | 0 <= i < |st.open| ensures st.open[i] in h' && RootOf(h', st.open[i]) == doc {
      PushRoot(st.nodes, w, st.nextId, kind, st.open[i]);
    }
  }

  /** A comment below the document or the html element. */
  lemma AsideSound(b: Builder, doc: NodeId, comment: Kind, w: NodeId)
    requires Sound(b, doc) && (w == doc || (b.st.open != [] && w == b.st.open[0]))
    ensures var r := Aside(Flush(b.st, b.pending), w, comment);
            Sound(Builder(r, None), doc) && Conserves(b.st.nodes, r.nodes, doc)
  {
    hide ChildrenLinked, ParentsLinked, LeavesBare, Acyclic, Conserves, Flush, Ordered, RootOf, Aside, ListOk;
    var f := Flush(b.st, b.pending);
    FlushValid(b.st, b.pending, doc);
    RootIsItself(f.nodes, doc);
    AsideValid(f, doc, w, comment);
    var r := Aside(f, w, comment);
    ConservesTrans(b.st.nodes, f.nodes, r.nodes, doc);
    assert r.open == b.st.open by { AsideOpen(f, w, comment); }
    if b.st.open != [] { BottomKept(b.st.nodes, r.nodes, doc, b.st.open[0]); }
  }

  lemma AsideOpen(st: State, w: NodeId, kind: Kind)
    ensures Aside(st, w, kind).open == st.open && Aside(st, w, kind).formatting == st.formatting
  {}

  lemma PopSound(b: Builder, doc: NodeId, height: nat)
    requires Sound(b, doc) && height < |b.st.open|
    ensures var r := PopTo(b.st, b.pending, height);
            Sound(Builder(r, None), doc) && Conserves(b.st.nodes, r.nodes, doc)
  {
    hide Valid, Conserves, Flush;
    PopToValid(b.st, b.pending, height, doc);
    BottomKept(b.st.nodes, PopTo(b.st, b.pending, height).nodes, doc, b.st.open[0]);
  }

  lemma UnopenSound(b: Builder, doc: NodeId, place: nat)
    requires Sound(b, doc) && 0 < place < |b.st.open|
    ensures Sound(b.(st := b.st.(open := RemoveAt(b.st.open, place))), doc) && Conserves(b.st.nodes, b.st.nodes, doc)
  {
    hide WellFormed, Ordered, Conserves, ListOk;
    var r := RemoveAt(b.st.open, place);
    OrderedRemoveAt(b.st.nodes, b.st.open, place);
    ValidSelf(b.st, doc);
    assert forall i :: 0 <= i < |r| ==> r[i] == b.st.open[if i < place then i else i + 1];
  }

  lemma ReenterSound(b: Builder, doc: NodeId, head: NodeId)
    requires Sound(b, doc) && |b.st.open| == 1 && head in b.st.nodes && b.st.nodes[head].kind.IsTag()
    requires b.st.nodes[head].parent == Some(b.st.open[0])
    ensures var r := Flush(b.st, b.pending).(open := b.st.open + [head]);
            Sound(Builder(r, None), doc) && Conserves(b.st.nodes, r.nodes, doc)
  {
    hide Conserves, WellFormed, Ordered, AllAttached, AllTags, ListOk;
    var st, f := b.st, Flush(b.st, b.pending);
    FlushValid(st, b.pending, doc);
    FlushKeeps(st, b.pending);
    FlushParent(st, b.pending, head);
    BottomKept(st.nodes, f.nodes, doc, st.open[0]);
    HeadJoins(f, doc, head);
  }

  /** Flushing gives no old node another parent. */
  lemma FlushParent(st: State, pending: Option<Kind>, n: NodeId)
    requires n in st.nodes && st.nextId !in st.nodes && st.open != [] && st.open[|st.open| - 1] in st.nodes
    ensures var f := Flush(st, pending);
            n in f.nodes && f.nodes[n].parent == st.nodes[n].parent && f.nodes[n].kind == st.nodes[n].kind
  {
  }

  /** A child of the only open element may be opened. */
  lemma HeadJoins(st: State, doc: NodeId, head: NodeId)
    requires Valid(st, doc) && |st.open| == 1 && head in st.nodes && st.nodes[head].kind.IsTag()
    requires st.nodes[head].parent == Some(st.open[0])
    ensures Valid(st.(open := st.open + [head]), doc) && head != st.open[0]
  {
    hide ChildrenLinked, ParentsLinked, LeavesBare, Acyclic, ListOk;
    var h, root := st.nodes, st.open[0];
    assert root in h;
    ChildPath(h, root, head);
    NotOwnParent(h, head);
    assert !Under(h, root, head) by {
      if head in PathOf(h, root) { PathPrefix(h, root, Position(PathOf(h, root), head)); }
    }
    assert PathOf(h, head)[0] == PathOf(h, root)[0];
  }

  lemma CloseSound(b: Builder, b': Builder, doc: NodeId, tag: nat, sets: TagSets)
    requires Sound(b, doc) && b.st.open != [] && tag != HTML_TAG && QName(Html, tag) !in sets.special
    requires b'.st == Adopt(b.st, b.pending, tag, sets) && (b'.pending == b.pending || b'.pending == None)
    ensures Sound(b', doc) && Conserves(b.st.nodes, b'.st.nodes, doc)
  {
    hide Valid, Conserves, Adopt;
    AdoptKeeps(b.st, b.pending, doc, tag, sets);
    AdoptBottom(b.st, b.pending, doc, tag, sets);
    BottomKept(b.st.nodes, b'.st.nodes, doc, b.st.open[0]);
  }

  lemma ReopenSound(b: Builder, doc: NodeId)
    requires Sound(b, doc) && b.st.open != []
    ensures Sound(Builder(Reconstruct(b.st), b.pending), doc) && Conserves(b.st.nodes, Reconstruct(b.st).nodes, doc)
  {
    hide Valid, Conserves, Reconstruct, SameLinks, Rebuilt, EntryKind;
    ReconstructResult(b.st, doc);
    BottomKept(b.st.nodes, Reconstruct(b.st).nodes, doc, b.st.open[0]);
  }

  lemma ListSound(b: Builder, doc: NodeId, list: seq<Entry>)
    requires Sound(b, doc) && ListOk(b.st.nodes, list)
    ensures Sound(b.(st := b.st.(formatting := list)), doc) && Conserves(b.st.nodes, b.st.nodes, doc)
  {
    hide WellFormed, Ordered, AllAttached, AllTags, Conserves;
    ValidSelf(b.st, doc);
  }

  lemma AddedListOk(h: Heap, list: seq<Entry>, e: Entry)
    requires ListOk(h, list) && (e.Ref? ==> e.id in h && h[e.id].kind.IsTag())
    ensures ListOk(h, AddEntry(h, list, e))
  {
    hide CountIdentical;
  }

  lemma UnlistedOk(h: Heap, list: seq<Entry>, position: nat)
    requires ListOk(h, list) && position < |list|
    ensures ListOk(h, RemoveAt(list, position))
  {
    var r := RemoveAt(list, position);
    assert forall i :: 0 <= i < |r| ==> r[i] == list[if i < position then i else i + 1];
  }

  /** Every action keeps the invariant and conserves the document. */
  lemma ActionSound(b: Builder, b': Builder, doc: NodeId, sets: TagSets, a: Action)
    requires Sound(b, doc) && Allowed(b, sets, a) && Does(b, b', doc, sets, a)
    ensures Sound(b', doc) && Conserves(b.st.nodes, b'.st.nodes, doc)
  {
    hide Conserves, Adopt, Reconstruct, Flush, PopTo, AddEntry, WellFormed, Ordered, AllTags, AllAttached,
      ClearToMarker, RemoveAt;
    hide Aside, TurnsPending, Buffered;
    match a
    case BufferText(text) => ValidSelf(b.st, doc);
    case InsertRoot(root) => RootSound(b, doc, root);
    case InsertElement(element) => ElementSound(b, doc, element);
    case InsertComment(comment) => CommentSound(b, doc, comment);
    case DocumentComment(comment) => AsideSound(b, doc, comment, doc);
    case RootComment(comment) => AsideSound(b, doc, comment, b.st.open[0]);
    case PopDown(height) => PopSound(b, doc, height);
    case Unopen(place) => UnopenSound(b, doc, place);
    case ReenterHead(head) => ReenterSound(b, doc, head);
    case CloseFormatting(tag) =>
      PendingStays(b.st, b.pending, tag, sets, 8);
      CloseSound(b, b', doc, tag, sets);
    case Reopen => ReopenSound(b, doc);
    case ListMarker =>
      AddedListOk(b.st.nodes, b.st.formatting, Marker);
      ListSound(b, doc, b'.st.formatting);
    case ListElement(id) =>
      AddedListOk(b.st.nodes, b.st.formatting, Ref(id));
      ListSound(b, doc, b'.st.formatting);
    case Unlist(position) =>
      UnlistedOk(b.st.nodes, b.st.formatting, position);
      ListSound(b, doc, b'.st.formatting);
    case ClearList => ListSound(b, doc, b'.st.formatting);
  }

  /** A sequence of states that goes from one to the next by allowed actions. */
  ghost predicate Run(run: seq<Builder>, actions: seq<Action>, doc: NodeId, sets: TagSets) {
    && |run| == |actions| + 1
    && forall i :: 0 <= i < |actions| ==>
         Allowed(run[i], sets, actions[i]) && Does(run[i], run[i + 1], doc, sets, actions[i])
  }

  /** The actions lead from `b` to `b'`. */
  ghost predicate Leads(b: Builder, actions: seq<Action>, b': Builder, doc: NodeId, sets: TagSets) {
    exists run :: Run(run, actions, doc, sets) && run[0] == b && run[|run| - 1] == b'
  }

  lemma LeadsNowhere(b: Builder, doc: NodeId, sets: TagSets)
    ensures Leads(b, [], b, doc, sets)
  {
    assert Run([b], [], doc, sets);
  }

  lemma LeadsOn(b: Builder, a: Action, b': Builder, doc: NodeId, sets: TagSets)
    requires Allowed(b, sets, a) && Does(b, b', doc, sets, a)
    ensures Leads(b, [a], b', doc, sets)
  {
    hide Allowed, Does;
    assert Run([b, b'], [a], doc, sets);
  }

  lemma LeadsTrans(b: Builder, s: seq<Action>, m: Builder, t: seq<Action>, b': Builder, doc: NodeId, sets: TagSets)
    requires Leads(b, s, m, doc, sets) && Leads(m, t, b', doc, sets)
    ensures Leads(b, s + t, b', doc, sets)
  {
    hide Allowed, Does;
    var run :| Run(run, s, doc, sets) && run[0] == b && run[|run| - 1] == m;
    var more :| Run(more, t, doc, sets) && more[0] == m && more[|more| - 1] == b';
    var all, n := run + more[1..], |s|;
    assert forall i :: n <= i < |all| ==> all[i] == more[i - n];
    forall i | 0 <= i < |s + t|
      ensures Allowed(all[i], sets, (s + t)[i]) && Does(all[i], all[i + 1], doc, sets, (s + t)[i])
    {
      if i < n {
        assert Allowed(run[i], sets, s[i]) && Does(run[i], run[i + 1], doc, sets, s[i]);
      } else {
        assert Allowed(more[i - n], sets, t[i - n]) && Does(more[i - n], more[i - n + 1], doc, sets, t[i - n]);
      }
    }
    assert Run(all, s + t, doc, sets);
  }

  lemma DoesOne(b: Builder, c: Builder, d: Builder, doc: NodeId, sets: TagSets, a: Action)
    requires Allowed(b, sets, a) && Does(b, c, doc, sets, a) && Does(b, d, doc, sets, a)
    ensures c == d
  {
    hide Adopt, Reconstruct, Flush, PopTo, AddEntry, ClearToMarker, RemoveAt, Opened, Aside, AdoptPending, Buffered;
  }

  /** Actions lead to one state only. */
  lemma LeadsOne(b: Builder, actions: seq<Action>, c: Builder, d: Builder, doc: NodeId, sets: TagSets)
    requires Leads(b, actions, c, doc, sets) && Leads(b, actions, d, doc, sets)
    ensures c == d
  {
    hide Allowed, Does;
    var run :| Run(run, actions, doc, sets) && run[0] == b && run[|run| - 1] == c;
    var other :| Run(other, actions, doc, sets) && other[0] == b && other[|other| - 1] == d;
    for i := 0 to |actions|
      invariant run[i] == other[i]
    {
      DoesOne(run[i], run[i + 1], other[i + 1], doc, sets, actions[i]);
    }
  }

  /** From an empty document on, in every reachable state the tree is well formed, the open elements
      are attached and none lies below one later on the stack; and between any two states no node is
      lost, changed in kind or cut off from the document, and every new one is attached. */
  lemma {:induction false} RunSound(run: seq<Builder>, actions: seq<Action>, doc: NodeId, sets: TagSets, i: nat, j: nat)
    requires Run(run, actions, doc, sets) && run[0] == Fresh(doc) && i <= j < |run|
    ensures Sound(run[i], doc) && Sound(run[j], doc)
    ensures Conserves(run[i].st.nodes, run[j].st.nodes, doc)
    decreases j
  {
    hide Sound, Conserves, Does, Allowed;
    if j == 0 {
      FreshSound(doc);
      SoundSelf(run[0], doc);
    } else {
      RunSound(run, actions, doc, sets, if i < j then i else j - 1, j - 1);
      ActionSound(run[j - 1], run[j], doc, sets, actions[j - 1]);
      SoundSelf(run[j], doc);
      if i < j { ConservesTrans(run[i].st.nodes, run[j - 1].st.nodes, run[j].st.nodes, doc); }
    }
  }

  lemma SoundSelf(b: Builder, doc: NodeId)
    requires Sound(b, doc)
    ensures Conserves(b.st.nodes, b.st.nodes, doc)
  {
    ValidSelf(b.st, doc);
  }

  // ---------------------------------------------------------------------------------------
  // The Noah's Ark clause over whole runs

  /** How the handlers use the list: they list the element they have just inserted, whose attribute names
      are distinct and which is not special; they take only elements off the list one by one; the head
      element is never listed. */
  ghost predicate Tame(b: Builder, sets: TagSets, a: Action)
    requires Allowed(b, sets, a)
  {
    var st := b.st;
    match a
    case ListElement(id) =>
      && st.open != [] && id == st.open[|st.open| - 1] && Ref(id) !in st.formatting
      && NamesOk(st.nodes[id].kind) && !NameIn(st.nodes, id, sets.special)
    case ReenterHead(head) => Ref(head) !in st.formatting
    case Unlist(position) => st.formatting[position].Ref?
    case _ => true
  }

  /** A step that leaves the list alone. */
  lemma TidyHeap(st: State, st': State, special: set<QName>)
    requires Tidy(st, special) && Keeps(st.nodes, st'.nodes) && st'.formatting == st.formatting
    requires Orderly(st'.open, st'.formatting)
    ensures Tidy(st', special)
  {
    hide Orderly, AtMostThree, NamesOk, ListNamesOk;
    SameListInv(st, st');
    forall i | 0 <= i < |st.formatting| && st.formatting[i].Ref? ensures !NameIn(st'.nodes, st.formatting[i].id, special) {
      assert st.formatting[i].id in st.nodes && !NameIn(st.nodes, st.formatting[i].id, special);
    }
  }

  lemma TidyOpened(st: State, st': State, doc: NodeId, special: set<QName>)
    requires Tidy(st, special) && Valid(st, doc) && Keeps(st.nodes, st'.nodes) && st'.formatting == st.formatting
    requires exists c :: st.nextId <= c && st'.open == st.open + [c]
    ensures Tidy(st', special)
  {
    hide Orderly, WellFormed, Ordered, AllAttached, ListInv, NoSpecial;
    var c :| st.nextId <= c && st'.open == st.open + [c];
    OrderlyPush(st.open, st.formatting, c);
    TidyHeap(st, st', special);
  }

  lemma AddedTidy(st: State, e: Entry, special: set<QName>)
    requires Tidy(st, special) && NamesOk(EntryKind(st.nodes, e))
    requires e.Ref? ==> st.open != [] && e == Ref(st.open[|st.open| - 1]) && e !in st.formatting
    requires e.Ref? ==> e.id in st.nodes && !NameIn(st.nodes, e.id, special)
    ensures Tidy(st.(formatting := AddEntry(st.nodes, st.formatting, e)), special)
  {
    hide Orderly, CountIdentical, EntryKind, NameIn, ListNamesOk, AtMostThree, NamesOk, Unmarked, Identical, RemoveAt;
    hide NoSpecial, ListInv;
    AddKeepsInv(st, e);
    var t := CountIdentical(st.nodes, st.formatting, EntryKind(st.nodes, e));
    var rest := if t.count >= 3 then RemoveAt(st.formatting, t.earliest) else st.formatting;
    if t.count >= 3 {
      OrderlyUnlisted(st.open, st.formatting, t.earliest);
      LessListed(st.nodes, st.formatting, t.earliest, e, special);
    }
    MoreListed(st.nodes, rest, e, special);
    if e.Marker? { OrderlyMarked(st.open, rest); } else { OrderlyListed(st.open, rest, e); }
  }

  lemma LessListed(h: Heap, list: seq<Entry>, f: nat, e: Entry, special: set<QName>)
    requires NoSpecial(h, list, special) && f < |list|
    ensures NoSpecial(h, RemoveAt(list, f), special) && (e !in list ==> e !in RemoveAt(list, f))
  {
    hide NameIn;
    var r := RemoveAt(list, f);
    assert forall i :: 0 <= i < |r| ==> r[i] == list[if i < f then i else i + 1];
  }

  lemma MoreListed(h: Heap, list: seq<Entry>, e: Entry, special: set<QName>)
    requires NoSpecial(h, list, special) && (e.Ref? ==> !NameIn(h, e.id, special))
    ensures NoSpecial(h, list + [e], special)
  {
    hide NameIn;
  }

  lemma ReopenTidy(st: State, doc: NodeId, special: set<QName>)
    requires Valid(st, doc) && st.open != [] && Tidy(st, special)
    ensures Tidy(Reconstruct(st), special)
  {
    hide WellFormed, Ordered, AllAttached, Conserves, Reconstruct, ListInv, Orderly, NoSpecial, Rebuilt, SameLinks;
    ReconstructResult(st, doc);
    StepKeepsInv(st, Reconstruct(st));
    ReopenNoSpecial(st, doc, special);
    ReopenOrderly(st, doc);
  }

  lemma ReopenNoSpecial(st: State, doc: NodeId, special: set<QName>)
    requires Valid(st, doc) && st.open != [] && NoSpecial(st.nodes, st.formatting, special)
    ensures NoSpecial(Reconstruct(st).nodes, Reconstruct(st).formatting, special)
  {
    hide WellFormed, Ordered, AllAttached, Conserves, Reconstruct, Rebuilt, SameLinks;
    ReconstructResult(st, doc);
    var r := Reconstruct(st);
    forall i | 0 <= i < |r.formatting| && r.formatting[i].Ref? ensures !NameIn(r.nodes, r.formatting[i].id, special) {
      assert EntryKind(r.nodes, r.formatting[i]) == EntryKind(st.nodes, st.formatting[i]);
      assert !NameIn(st.nodes, st.formatting[i].id, special);
    }
  }

  /** The new clones are on top of the stack, in list order. */
  lemma ReopenOrderly(st: State, doc: NodeId)
    requires Valid(st, doc) && st.open != [] && Orderly(st.open, st.formatting)
    ensures Orderly(Reconstruct(st).open, Reconstruct(st).formatting)
  {
    hide WellFormed, Ordered, AllAttached, Conserves, Reconstruct, SameLinks, EntryKind, RebuildStart;
    ReconstructResult(st, doc);
    var r, s, n := Reconstruct(st), RebuildStart(st.open, st.formatting), |st.open|;
    OrderedDistinct(r.nodes, r.open);
    forall i | s <= i < |r.formatting| ensures r.formatting[i] == Ref(st.nextId + (i - s)) { assert Rebuilt(st, r, s, i); }
    forall i | 0 <= i < s ensures r.formatting[i] == st.formatting[i] {
      assert r.formatting[..s][i] == st.formatting[..s][i];
    }
    assert forall a :: 0 <= a < n ==> r.open[a] == st.open[a] && r.open[a] < st.nextId;
    assert forall a :: n <= a < |r.open| ==> r.open[a] == st.nextId + (a - n);
    assert forall i :: 0 <= i < s && r.formatting[i].Ref? ==> r.formatting[i].id < st.nextId;
    forall a, i | Lists(r.open, r.formatting, a, i)
      ensures if a < n then i < s && Lists(st.open, st.formatting, a, i) else i == s + (a - n)
    {
    }
    assert Unique(r.formatting);
  }

  lemma {:induction false} ActionTidy(b: Builder, b': Builder, doc: NodeId, sets: TagSets, a: Action)
    requires Sound(b, doc) && Tidy(b.st, sets.special) && Allowed(b, sets, a) && Tame(b, sets, a)
    requires Does(b, b', doc, sets, a)
    ensures Tidy(b'.st, sets.special)
  {
    hide WellFormed, Ordered, AllTags, AllAttached, ListOk, Adopt, Reconstruct, Flush, PopTo, AddEntry, ClearToMarker;
    hide Orderly, ListInv, NoSpecial, RemoveAt, Conserves, NamesOk, NameIn, EntryKind, Opened;
    var st, special := b.st, sets.special;
    match a
    case BufferText(text) =>
    case InsertRoot(root) => OpenedTidy(b, b', doc, sets, a);
    case InsertElement(element) => OpenedTidy(b, b', doc, sets, a);
    case InsertComment(comment) => FlushedTidy(b, b', doc, sets, a);
    case DocumentComment(comment) => FlushedTidy(b, b', doc, sets, a);
    case RootComment(comment) => FlushedTidy(b, b', doc, sets, a);
    case PopDown(height) => PopTidy(st, b.pending, doc, height, special);
    case Unopen(place) => UnopenTidy(st, place, special);
    case ReenterHead(head) => ReenterTidy(b, b', doc, sets, head);
    case CloseFormatting(tag) => AdoptTidy(st, b.pending, doc, tag, sets);
    case Reopen => ReopenTidy(st, doc, special);
    case ListMarker =>
      MarkerNamesOk();
      AddedTidy(st, Marker, special);
    case ListElement(id) => ListedTidy(st, id, special);
    case Unlist(position) => UnlistTidy(st, position, special);
    case ClearList => ClearTidy(st, special);
  }

  lemma OpenedTidy(b: Builder, b': Builder, doc: NodeId, sets: TagSets, a: Action)
    requires Sound(b, doc) && Tidy(b.st, sets.special) && Allowed(b, sets, a) && Does(b, b', doc, sets, a)
    requires a.InsertRoot? || a.InsertElement?
    ensures Tidy(b'.st, sets.special)
  {
    hide WellFormed, Ordered, AllTags, AllAttached, ListOk, Tidy;
    var st := b.st;
    if a.InsertRoot? {
      RootSound(b, doc, a.root);
      ConservesKeeps(st.nodes, b'.st.nodes, doc);
      TidyOpened(st, b'.st, doc, sets.special);
    } else {
      ElementSound(b, doc, a.element);
      ConservesKeeps(st.nodes, b'.st.nodes, doc);
      assert b'.st.open == st.open + [Flush(st, b.pending).nextId];
      TidyOpened(st, b'.st, doc, sets.special);
    }
  }

  lemma FlushedTidy(b: Builder, b': Builder, doc: NodeId, sets: TagSets, a: Action)
    requires Sound(b, doc) && Tidy(b.st, sets.special) && Allowed(b, sets, a) && Does(b, b', doc, sets, a)
    requires a.InsertComment? || a.DocumentComment? || a.RootComment?
    ensures Tidy(b'.st, sets.special)
  {
    hide WellFormed, Ordered, AllTags, AllAttached, ListOk, Orderly, ListInv, NoSpecial, Flush;
    if a.InsertComment? {
      CommentSound(b, doc, a.comment);
    } else {
      AsideSound(b, doc, a.comment, if a.RootComment? then b.st.open[0] else doc);
    }
    ConservesKeeps(b.st.nodes, b'.st.nodes, doc);
    TidyHeap(b.st, b'.st, sets.special);
  }

  lemma UnopenTidy(st: State, place: nat, special: set<QName>)
    requires Tidy(st, special) && place < |st.open|
    ensures Tidy(st.(open := RemoveAt(st.open, place)), special)
  {
    hide Orderly, NoSpecial, RemoveAt, AtMostThree;
    OrderlyLess(st.open, st.formatting, place);
    SameListInv(st, st.(open := RemoveAt(st.open, place)));
  }

  lemma ReenterTidy(b: Builder, b': Builder, doc: NodeId, sets: TagSets, head: NodeId)
    requires Sound(b, doc) && Tidy(b.st, sets.special) && Allowed(b, sets, ReenterHead(head))
    requires Tame(b, sets, ReenterHead(head)) && Does(b, b', doc, sets, ReenterHead(head))
    ensures Tidy(b'.st, sets.special)
  {
    hide Valid, Orderly, ListInv, NoSpecial, Flush, Conserves;
    ReenterSound(b, doc, head);
    ConservesKeeps(b.st.nodes, b'.st.nodes, doc);
    HeadJoins(b.st, doc, head);
    OrderlyPush(b.st.open, b.st.formatting, head);
    TidyHeap(b.st, b'.st, sets.special);
  }

  lemma ListedTidy(st: State, id: NodeId, special: set<QName>)
    requires Tidy(st, special) && st.open != [] && id == st.open[|st.open| - 1] && Ref(id) !in st.formatting
    requires id in st.nodes && NamesOk(st.nodes[id].kind) && !NameIn(st.nodes, id, special)
    ensures Tidy(st.(formatting := AddEntry(st.nodes, st.formatting, Ref(id))), special)
  {
    hide Tidy, NamesOk, NameIn, AddEntry;
    AddedTidy(st, Ref(id), special);
  }

  lemma UnlistTidy(st: State, position: nat, special: set<QName>)
    requires Tidy(st, special) && position < |st.formatting| && st.formatting[position].Ref?
    ensures Tidy(st.(formatting := RemoveAt(st.formatting, position)), special)
  {
    hide Orderly, ListInv;
    OrderlyUnlisted(st.open, st.formatting, position);
    RemoveKeepsInv(st, position);
    var r := RemoveAt(st.formatting, position);
    assert forall i :: 0 <= i < |r| ==> r[i] == st.formatting[if i < position then i else i + 1];
  }

  lemma ClearTidy(st: State, special: set<QName>)
    requires Tidy(st, special)
    ensures Tidy(st.(formatting := ClearToMarker(st.formatting)), special)
  {
    hide Orderly, AtMostThree, NamesOk, ClearToMarker;
    var n := |ClearToMarker(st.formatting)|;
    OrderlyCut(st.open, st.formatting, n);
    PrefixKeepsAtMostThree(st.nodes, st.formatting, n);
  }

  lemma FreshTidy(doc: NodeId, special: set<QName>)
    ensures Tidy(Fresh(doc).st, special)
  {
  }

  /** From an empty document on, whatever the handlers do, the adoption agency included: the list names
      each element once and in stack order, and no marker-delimited segment ever holds four entries with
      equal tag, namespace and attributes. */
  lemma {:induction false} RunKeepsThree(run: seq<Builder>, actions: seq<Action>, doc: NodeId, sets: TagSets, i: nat)
    requires Run(run, actions, doc, sets) && run[0] == Fresh(doc) && i < |run|
    requires forall j :: 0 <= j < |actions| ==> Tame(run[j], sets, actions[j])
    ensures Tidy(run[i].st, sets.special) && AtMostThree(run[i].st.nodes, run[i].st.formatting)
  {
    hide Sound, Conserves, Does, Allowed, Tame, Orderly, NoSpecial, AtMostThree, ListNamesOk;
    if i == 0 {
      FreshTidy(doc, sets.special);
    } else {
      RunKeepsThree(run, actions, doc, sets, i - 1);
      RunSound(run, actions, doc, sets, i - 1, i - 1);
      ActionTidy(run[i - 1], run[i], doc, sets, actions[i - 1]);
    }
  }
}
