/** The insertion modes before the body as tree construction: every handler is a sequence of the actions
    of `TreeRuns`, and the document they leave is html with a head and a body or frameset. */
module EarlyTree {
  import opened Options
  import opened Sequences
  import opened Dom
  import opened DomOps
  import opened OpenStack
  import opened Adoption
  import opened Agency
  import opened FormattingList
  import opened TreeRuns
  import opened Spelling
  import E = EarlyModes

  // ---------------------------------------------------------------------------------------
  // Element children

  function Code(tag: E.Tag): nat {
    match tag
    case Html => HTML_TAG
    case Head => 1
    case Body => 2
    case Br => 3
    case Base => 4
    case Basefont => 5
    case Bgsound => 6
    case Menuitem => 7
    case Link => 8
    case Meta => 9
    case Title => 10
    case Noframes => 11
    case Style => 12
    case Noscript => 13
    case Script => 14
    case Template => 15
    case Frameset => 16
    case Other(name) => 17 + name
  }

  /** The element a handler makes for a tag. */
  function Made(tag: E.Tag): Kind { Element(QName(Html, Code(tag)), []) }

  predicate IsElement(h: Heap, n: NodeId) { n in h && h[n].kind.IsTag() }

  function Elements(h: Heap, s: seq<NodeId>): seq<NodeId> {
    if s == [] then []
    else Elements(h, s[..|s| - 1]) + if IsElement(h, s[|s| - 1]) then [s[|s| - 1]] else []
  }

  /** The children of `n` that are elements. */
  function ElementChildren(h: Heap, n: NodeId): seq<NodeId> {
    if n in h then Elements(h, h[n].children) else []
  }

  lemma {:induction false} ElementsKept(h: Heap, h': Heap, s: seq<NodeId>)
    requires Keeps(h, h') && forall i :: 0 <= i < |s| ==> s[i] in h
    ensures Elements(h', s) == Elements(h, s)
  {
    if s != [] {
      assert s[|s| - 1] in h;
      ElementsKept(h, h', s[..|s| - 1]);
    }
  }

  lemma ElementsPush(h: Heap, s: seq<NodeId>, c: NodeId)
    ensures Elements(h, s + [c]) == Elements(h, s) + if IsElement(h, c) then [c] else []
  {
    assert (s + [c])[..|s|] == s;
  }

  /** A new last child of `w` is one more element child of `w`, if it is an element. */
  lemma ElementChildrenGraft(h: Heap, w: NodeId, c: NodeId, kind: Kind, n: NodeId)
    requires WellFormed(h) && w in h && n in h && c !in h
    ensures ElementChildren(Attach(Add(h, c, kind), w, c), n)
         == ElementChildren(h, n) + if n == w && kind.IsTag() then [c] else []
  {
    hide ParentsLinked, LeavesBare, Acyclic;
    var h' := Attach(Add(h, c, kind), w, c);
    PushKeeps(h, w, c, kind);
    var kids := h[n].children;
    forall i | 0 <= i < |kids| ensures kids[i] in h { }
    ElementsKept(h, h', kids);
    if n == w { ElementsPush(h', kids, c); }
  }

  // ---------------------------------------------------------------------------------------
  // How a tree follows the parser of `EarlyModes`

  ghost predicate Named(h: Heap, at: seq<NodeId>, e: E.Elem) {
    e.id < |at| && at[e.id] in h && h[at[e.id]].kind == Made(e.tag)
  }

  ghost predicate AllNamed(h: Heap, at: seq<NodeId>, s: seq<E.Elem>) {
    forall i :: 0 <= i < |s| ==> Named(h, at, s[i])
  }

  function NodeOf(at: seq<NodeId>, e: E.Elem): NodeId { if e.id < |at| then at[e.id] else 0 }

  function Nodes(at: seq<NodeId>, s: seq<E.Elem>): (r: seq<NodeId>)
    ensures |r| == |s|
  {
    seq(|s|, i requires 0 <= i < |s| => NodeOf(at, s[i]))
  }

  /** The root is the only element child of the document, and `kids` are those of the root. */
  ghost predicate Shape(h: Heap, doc: NodeId, root: Option<E.Elem>, kids: seq<E.Elem>, at: seq<NodeId>) {
    && doc in h && AllNamed(h, at, kids)
    && match root
       case None => ElementChildren(h, doc) == [] && kids == []
       case Some(e) =>
         && Named(h, at, e) && ElementChildren(h, doc) == [at[e.id]]
         && ElementChildren(h, at[e.id]) == Nodes(at, kids)
  }

  /** What the other model knows: its stack, its root, the elements below the root, and which node stands
      for each of its elements. */
  datatype View = View(open: seq<E.Elem>, root: Option<E.Elem>, kids: seq<E.Elem>, at: seq<NodeId>)

  ghost predicate Mirrors(b: Builder, doc: NodeId, v: View) {
    && Sound(b, doc) && AllNamed(b.st.nodes, v.at, v.open) && b.st.open == Nodes(v.at, v.open)
    && Shape(b.st.nodes, doc, v.root, v.kids, v.at)
    && (v.open == [] ==> b.pending == None)
  }

  lemma NodesPush(at: seq<NodeId>, s: seq<E.Elem>, c: NodeId, tag: E.Tag)
    requires forall i :: 0 <= i < |s| ==> s[i].id < |at|
    ensures Nodes(at + [c], s + [E.Elem(|at|, tag)]) == Nodes(at, s) + [c] && Nodes(at + [c], s) == Nodes(at, s)
  {
  }

  lemma NamedKept(h: Heap, h': Heap, at: seq<NodeId>, s: seq<E.Elem>)
    requires AllNamed(h, at, s) && Keeps(h, h')
    ensures AllNamed(h', at, s)
  {
    forall i | 0 <= i < |s| ensures Named(h', at, s[i]) { assert Named(h, at, s[i]); }
  }

  lemma NamedMore(h: Heap, at: seq<NodeId>, s: seq<E.Elem>, c: NodeId)
    requires AllNamed(h, at, s)
    ensures AllNamed(h, at + [c], s) && forall i :: 0 <= i < |s| ==> s[i].id < |at|
  {
    forall i | 0 <= i < |s| ensures Named(h, at + [c], s[i]) && s[i].id < |at| { assert Named(h, at, s[i]); }
  }

  /** A new node that is no element changes no shape. */
  lemma LeafShape(h: Heap, doc: NodeId, root: Option<E.Elem>, kids: seq<E.Elem>, at: seq<NodeId>, w: NodeId, c: NodeId, kind: Kind)
    requires WellFormed(h) && Shape(h, doc, root, kids, at) && w in h && c !in h && !kind.IsTag()
    ensures Shape(Attach(Add(h, c, kind), w, c), doc, root, kids, at)
  {
    hide WellFormed, Attach, Add, ElementChildren;
    PushKeeps(h, w, c, kind);
    NamedKept(h, Attach(Add(h, c, kind), w, c), at, kids);
    ElementChildrenGraft(h, w, c, kind, doc);
    if root.Some? { ElementChildrenGraft(h, w, c, kind, at[root.value.id]); }
  }

  /** A new element somewhere below the root's children changes no shape, and below the root is one more
      of them. */
  lemma ElementShape(h: Heap, doc: NodeId, root: E.Elem, kids: seq<E.Elem>, at: seq<NodeId>, w: NodeId, c: NodeId, tag: E.Tag)
    requires WellFormed(h) && Shape(h, doc, Some(root), kids, at) && w in h && c !in h && w != doc && at[root.id] != doc
    ensures var h' := Attach(Add(h, c, Made(tag)), w, c);
            Shape(h', doc, Some(root), if w == at[root.id] then kids + [E.Elem(|at|, tag)] else kids, at + [c])
  {
    hide WellFormed, Attach, Add, ElementChildren;
    var h' := Attach(Add(h, c, Made(tag)), w, c);
    PushKeeps(h, w, c, Made(tag));
    NamedKept(h, h', at, kids);
    NamedMore(h', at, kids, c);
    NodesPush(at, kids, c, tag);
    ElementChildrenGraft(h, w, c, Made(tag), doc);
    ElementChildrenGraft(h, w, c, Made(tag), at[root.id]);
  }

  // ---------------------------------------------------------------------------------------
  // The actions

  lemma FlushShape(b: Builder, doc: NodeId, v: View)
    requires Mirrors(b, doc, v)
    ensures var f := Flush(b.st, b.pending);
            && Valid(f, doc) && Shape(f.nodes, doc, v.root, v.kids, v.at) && AllNamed(f.nodes, v.at, v.open)
            && Keeps(b.st.nodes, f.nodes)
  {
    hide ChildrenLinked, ParentsLinked, LeavesBare, Acyclic, Attach, Add, Shape, AllNamed, Ordered, AllAttached, ListOk, Keeps;
    FlushValid(b.st, b.pending, doc);
    FlushKeeps(b.st, b.pending);
    NamedKept(b.st.nodes, Flush(b.st, b.pending).nodes, v.at, v.open);
    if b.pending.Some? && b.st.open != [] {
      LeafShape(b.st.nodes, doc, v.root, v.kids, v.at, b.st.open[|b.st.open| - 1], b.st.nextId, b.pending.value);
    }
  }

  lemma TextMirrors(b: Builder, doc: NodeId, sets: TagSets, v: View, text: Kind) returns (b': Builder)
    requires Mirrors(b, doc, v) && IsText(text) && v.open != []
    ensures Mirrors(b', doc, v) && Leads(b, [BufferText(text)], b', doc, sets)
  {
    hide Valid, Shape, AllNamed, Leads, Buffered;
    b' := Builder(b.st, Buffered(b.pending, text));
    LeadsOn(b, BufferText(text), b', doc, sets);
  }

  lemma CommentMirrors(b: Builder, doc: NodeId, sets: TagSets, v: View, comment: Kind) returns (b': Builder)
    requires Mirrors(b, doc, v) && comment.Comment? && v.open != []
    ensures Mirrors(b', doc, v) && Leads(b, [InsertComment(comment)], b', doc, sets)
  {
    hide Valid, Shape, AllNamed, Leads, Conserves, Flush, Keeps;
    var f := Flush(b.st, b.pending);
    FlushShape(b, doc, v);
    CommentSound(b, doc, comment);
    b' := Builder(Flush(f, Some(comment)), None);
    HtmlStays(b, f, doc);
    FlushShape(Builder(f, Some(comment)), doc, v);
    LeadsOn(b, InsertComment(comment), b', doc, sets);
  }

  lemma HtmlStays(b: Builder, f: State, doc: NodeId)
    requires Sound(b, doc) && f.open == b.st.open && Keeps(b.st.nodes, f.nodes)
    ensures f.open != [] ==> HtmlTagIs(f.nodes, f.open[0], HTML_TAG)
  {
    hide WellFormed, Ordered, AllAttached, ListOk;
  }

  /** A comment before the root. */
  lemma DocumentCommentMirrors(b: Builder, doc: NodeId, sets: TagSets, at: seq<NodeId>, comment: Kind) returns (b': Builder)
    requires Mirrors(b, doc, View([], None, [], at)) && comment.Comment?
    ensures Mirrors(b', doc, View([], None, [], at)) && Leads(b, [DocumentComment(comment)], b', doc, sets)
  {
    hide WellFormed, Ordered, Shape, AllAttached, ListOk, Leads, Conserves, Attach, Add;
    b' := Builder(Aside(b.st, doc, comment), None);
    assert Flush(b.st, b.pending) == b.st;
    AsideSound(b, doc, comment, doc);
    LeafShape(b.st.nodes, doc, None, [], at, doc, b.st.nextId, comment);
    LeadsOn(b, DocumentComment(comment), b', doc, sets);
  }

  lemma RootMirrors(b: Builder, doc: NodeId, sets: TagSets, at: seq<NodeId>) returns (b': Builder, c: NodeId)
    requires Mirrors(b, doc, View([], None, [], at))
    ensures var e := E.Elem(|at|, E.Html); Mirrors(b', doc, View([e], Some(e), [], at + [c]))
    ensures Leads(b, [InsertRoot(Made(E.Html))], b', doc, sets)
  {
    hide WellFormed, Ordered, AllAttached, ListOk, Leads, Conserves, Attach, Add, ElementChildren;
    c := b.st.nextId;
    b' := Builder(Opened(b.st, doc, Made(E.Html)), None);
    RootSound(b, doc, Made(E.Html));
    PushKeeps(b.st.nodes, doc, c, Made(E.Html));
    ElementChildrenGraft(b.st.nodes, doc, c, Made(E.Html), doc);
    NewChildless(b.st.nodes, doc, c, Made(E.Html));
    LeadsOn(b, InsertRoot(Made(E.Html)), b', doc, sets);
  }

  lemma NewChildless(h: Heap, w: NodeId, c: NodeId, kind: Kind)
    requires w in h && c !in h
    ensures ElementChildren(Attach(Add(h, c, kind), w, c), c) == []
  {
  }

  /** The stack starts with the root. */
  ghost predicate StartsAtRoot(v: View) {
    v.open != [] && v.root == Some(v.open[0])
  }

  /** The view after inserting an element. */
  function Inserted(v: View, tag: E.Tag, c: NodeId): View {
    var e := E.Elem(|v.at|, tag);
    View(v.open + [e], v.root, if |v.open| == 1 then v.kids + [e] else v.kids, v.at + [c])
  }

  /** The nodes the view speaks of: the current one is the root's exactly when nothing else is open. */
  lemma TopIsRoot(b: Builder, doc: NodeId, v: View)
    requires Mirrors(b, doc, v) && StartsAtRoot(v)
    ensures b.st.open != [] && doc in b.st.nodes && v.root.value.id < |v.at| && v.at[v.root.value.id] == b.st.open[0]
    ensures var top := b.st.open[|b.st.open| - 1];
            top != doc && b.st.open[0] != doc && (top == b.st.open[0] <==> |v.open| == 1)
  {
    hide WellFormed, Ordered, AllAttached, ListOk, ElementChildren;
    OrderedDistinct(b.st.nodes, b.st.open);
  }

  lemma InsertMirrors(b: Builder, doc: NodeId, sets: TagSets, v: View, tag: E.Tag) returns (b': Builder, c: NodeId)
    requires Mirrors(b, doc, v) && StartsAtRoot(v)
    ensures Mirrors(b', doc, Inserted(v, tag, c)) && Leads(b, [InsertElement(Made(tag))], b', doc, sets)
  {
    hide Valid, Shape, AllNamed, Leads, Conserves, Flush, Attach, Add, Keeps, Made;
    var f, top := Flush(b.st, b.pending), Nodes(v.at, v.open)[|v.open| - 1];
    c := f.nextId;
    FlushShape(b, doc, v);
    TopIsRoot(b, doc, v);
    MadeIsTag(tag);
    ElementSound(b, doc, Made(tag));
    b' := Builder(Opened(f, top, Made(tag)), None);
    PushedShape(f, doc, v, c, tag);
    LeadsOn(b, InsertElement(Made(tag)), b', doc, sets);
  }

  lemma MadeIsTag(tag: E.Tag)
    ensures Made(tag).IsTag()
  {}

  lemma PushedShape(f: State, doc: NodeId, v: View, c: NodeId, tag: E.Tag)
    requires Valid(f, doc) && f.open == Nodes(v.at, v.open) && StartsAtRoot(v) && c == f.nextId
    requires Shape(f.nodes, doc, v.root, v.kids, v.at) && AllNamed(f.nodes, v.at, v.open)
    requires var top := f.open[|f.open| - 1];
             v.root.value.id < |v.at| && v.at[v.root.value.id] == f.open[0]
             && top != doc && f.open[0] != doc && (top == f.open[0] <==> |v.open| == 1)
    ensures var r, w := Opened(f, f.open[|f.open| - 1], Made(tag)), Inserted(v, tag, c);
            && AllNamed(r.nodes, w.at, w.open) && r.open == Nodes(w.at, w.open)
            && Shape(r.nodes, doc, w.root, w.kids, w.at)
  {
    hide WellFormed, Ordered, AllAttached, ListOk, Shape, Attach, Add, Made;
    var top := f.open[|f.open| - 1];
    var r := Opened(f, top, Made(tag));
    ElementShape(f.nodes, doc, v.root.value, v.kids, v.at, top, c, tag);
    PushKeeps(f.nodes, top, c, Made(tag));
    NamedKept(f.nodes, r.nodes, v.at, v.open);
    NamedMore(r.nodes, v.at, v.open, c);
    NodesPush(v.at, v.open, c, tag);
  }

  lemma PopMirrors(b: Builder, doc: NodeId, sets: TagSets, v: View, height: nat) returns (b': Builder)
    requires Mirrors(b, doc, v) && 0 < height < |v.open|
    ensures Mirrors(b', doc, v.(open := v.open[..height])) && Leads(b, [PopDown(height)], b', doc, sets)
  {
    hide Valid, Shape, Leads, Conserves, Flush, Keeps, Made;
    FlushShape(b, doc, v);
    PopSound(b, doc, height);
    b' := Builder(PopTo(b.st, b.pending, height), None);
    assert Nodes(v.at, v.open)[..height] == Nodes(v.at, v.open[..height]);
    LeadsOn(b, PopDown(height), b', doc, sets);
  }

  lemma UnopenMirrors(b: Builder, doc: NodeId, sets: TagSets, v: View, place: nat) returns (b': Builder)
    requires Mirrors(b, doc, v) && 0 < place < |v.open|
    ensures Mirrors(b', doc, v.(open := RemoveAt(v.open, place))) && Leads(b, [Unopen(place)], b', doc, sets)
  {
    hide Valid, Shape, Leads, Conserves, Made;
    UnopenSound(b, doc, place);
    b' := b.(st := b.st.(open := RemoveAt(b.st.open, place)));
    assert RemoveAt(Nodes(v.at, v.open), place) == Nodes(v.at, RemoveAt(v.open, place));
    LeadsOn(b, Unopen(place), b', doc, sets);
  }

  lemma ReenterMirrors(b: Builder, doc: NodeId, sets: TagSets, v: View, head: E.Elem) returns (b': Builder)
    requires Mirrors(b, doc, v) && StartsAtRoot(v) && |v.open| == 1 && v.kids == [head]
    ensures Mirrors(b', doc, v.(open := v.open + [head])) && Leads(b, [ReenterHead(NodeOf(v.at, head))], b', doc, sets)
  {
    hide Valid, Leads, Conserves, Flush, Keeps, Made, Elements, Shape;
    var node := NodeOf(v.at, head);
    KidIsChild(b, doc, v, head);
    MadeIsTag(head.tag);
    ReenterSound(b, doc, node);
    FlushShape(b, doc, v);
    b' := Builder(Flush(b.st, b.pending).(open := b.st.open + [node]), None);
    assert Nodes(v.at, v.open) + [node] == Nodes(v.at, v.open + [head]);
    ShapeNames(Flush(b.st, b.pending).nodes, doc, v);
    LeadsOn(b, ReenterHead(node), b', doc, sets);
  }

  lemma ShapeNames(h: Heap, doc: NodeId, v: View)
    requires Shape(h, doc, v.root, v.kids, v.at)
    ensures AllNamed(h, v.at, v.kids)
  {}

  lemma {:induction false} ElementsAmong(h: Heap, s: seq<NodeId>, x: NodeId)
    requires x in Elements(h, s)
    ensures x in s
  {
    if IsElement(h, s[|s| - 1]) && x == s[|s| - 1] {
    } else {
      ElementsAmong(h, s[..|s| - 1], x);
    }
  }

  /** An element child has the root as its parent. */
  lemma KidIsChild(b: Builder, doc: NodeId, v: View, head: E.Elem)
    requires Mirrors(b, doc, v) && StartsAtRoot(v) && v.kids == [head]
    ensures var node := NodeOf(v.at, head);
            node in b.st.nodes && b.st.nodes[node].kind == Made(head.tag) && b.st.nodes[node].parent == Some(b.st.open[0])
  {
    hide ParentsLinked, LeavesBare, Acyclic, Ordered, AllAttached, ListOk, Made, Elements;
    var h, root, node := b.st.nodes, b.st.open[0], NodeOf(v.at, head);
    assert Named(h, v.at, v.kids[0]);
    assert ElementChildren(h, root) == Nodes(v.at, v.kids) && Nodes(v.at, v.kids)[0] == node;
    ElementsAmong(h, h[root].children, node);
  }

  // ---------------------------------------------------------------------------------------
  // The handlers

  /** What the in-head rules do to the tree, with `n` elements open. */
  function HeadActions(n: nat, t: E.Token, content: string): seq<Action>
    requires n > 0
  {
    match t
    case Whitespace => [BufferText(Whitespace(content))]
    case Comment => [InsertComment(Comment(content))]
    case Doctype => []
    case Start(tag) =>
      if tag == E.Html || tag == E.Head then []
      else if tag == E.Base || tag == E.Basefont || tag == E.Bgsound || tag == E.Menuitem || tag == E.Link || tag == E.Meta
      then [InsertElement(Made(tag)), PopDown(n)]
      else if tag == E.Title || tag == E.Noframes || tag == E.Style || tag == E.Script || tag == E.Noscript || tag == E.Template
      then [InsertElement(Made(tag))]
      else [PopDown(n - 1)]
    case End(tag) => if E.KeepsEndTag(tag) then [PopDown(n - 1)] else []
    case _ => [PopDown(n - 1)]
  }

  function AfterHeadActions(t: E.Token, content: string, head: NodeId): seq<Action> {
    match t
    case Whitespace => [BufferText(Whitespace(content))]
    case Comment => [InsertComment(Comment(content))]
    case Doctype => []
    case Start(tag) =>
      if tag == E.Html || tag == E.Head then []
      else if tag == E.Frameset then [InsertElement(Made(tag))]
      else if tag == E.Base || tag == E.Basefont || tag == E.Bgsound || tag == E.Link || tag == E.Meta || tag == E.Noframes
              || tag == E.Script || tag == E.Style || tag == E.Template || tag == E.Title
      then [ReenterHead(head)] + HeadActions(2, t, content) + [Unopen(1)]
      else [InsertElement(Made(E.Body))]
    case End(tag) => if tag == E.Body || tag == E.Html || tag == E.Br then [InsertElement(Made(E.Body))] else []
    case _ => [InsertElement(Made(E.Body))]
  }

  function NoscriptActions(n: nat, t: E.Token, content: string): seq<Action>
    requires n > 0
  {
    match t
    case Doctype => []
    case Whitespace => HeadActions(n, t, content)
    case Comment => HeadActions(n, t, content)
    case Start(tag) =>
      if tag == E.Html || tag == E.Head || tag == E.Noscript then []
      else if tag == E.Basefont || tag == E.Bgsound || tag == E.Link || tag == E.Meta || tag == E.Noframes || tag == E.Style
      then HeadActions(n, t, content)
      else [PopDown(n - 1)]
    case End(tag) => if tag == E.Noscript || tag == E.Br then [PopDown(n - 1)] else []
    case _ => [PopDown(n - 1)]
  }

  /** Before the html or the head element: most tokens make it. */
  function FirstActions(t: E.Token, comment: Action, make: Action): seq<Action> {
    match t
    case Doctype => []
    case Comment => [comment]
    case Whitespace => []
    case End(tag) => if E.KeepsEndTag(tag) then [make] else []
    case _ => [make]
  }

  /** The tree actions of one handler call; `content` is the token's text and `head` the head element. */
  function Actions(p: E.Parser, t: E.Token, content: string, head: NodeId): seq<Action>
    requires E.Early(p.mode)
  {
    match p.mode
    case Initial => if t.Comment? then [DocumentComment(Comment(content))] else []
    case BeforeHtml => FirstActions(t, DocumentComment(Comment(content)), InsertRoot(Made(E.Html)))
    case BeforeHead => FirstActions(t, InsertComment(Comment(content)), InsertElement(Made(E.Head)))
    case InHead => if p.open == [] then [] else HeadActions(|p.open|, t, content)
    case InHeadNoscript => if p.open == [] then [] else NoscriptActions(|p.open|, t, content)
    case AfterHead => AfterHeadActions(t, content, head)
    case TextMode =>
      if t.Character? then [BufferText(Text(content))]
      else if t.Whitespace? then [BufferText(Whitespace(content))]
      else if p.open == [] then []
      else [PopDown(|p.open| - 1)]
  }

  /** What a call says in the tree: a comment, outside text mode; white space from the head on; characters
      in text mode; nothing else. */
  function CallSays(mode: E.Mode, t: E.Token, content: string): seq<Mark> {
    if t.Comment? then if mode == E.TextMode then [] else [Note(content)]
    else if t.Whitespace? then if E.BeforeTheHead(mode) then [] else Letters(content)
    else if t.Character? && mode == E.TextMode then Letters(content)
    else []
  }

  /** The elements that actions make. */
  function Makes(actions: seq<Action>): seq<Kind> {
    if actions == [] then [] else Makes(actions[..|actions| - 1]) + MakesOne(actions[|actions| - 1])
  }

  function MakesOne(a: Action): seq<Kind> {
    if a.InsertRoot? then [a.root] else if a.InsertElement? then [a.element] else []
  }

  /** The element a call makes: the token's own, or the html, head or body element it implies. */
  function CallMakes(mode: E.Mode, t: E.Token): seq<Kind> {
    match mode
    case BeforeHtml => if Implies(t) then [Made(E.Html)] else []
    case BeforeHead => if Implies(t) then [Made(E.Head)] else []
    case InHead =>
      if t.Start? && (E.HeadContent(t.tag) || t.tag == E.Menuitem || t.tag == E.Noscript) then [Made(t.tag)] else []
    case InHeadNoscript =>
      if t.Start? && E.HeadContent(t.tag) && t.tag != E.Base && t.tag != E.Title && t.tag != E.Script then [Made(t.tag)] else []
    case AfterHead =>
      if t.Start? && (E.HeadContent(t.tag) || t.tag == E.Frameset) then [Made(t.tag)]
      else if t == E.Start(E.Body) || E.GoesToBody(mode, t) then [Made(E.Body)]
      else []
    case _ => []
  }

  /** Before the head: the token calls for what has yet to be made. */
  predicate Implies(t: E.Token) {
    !t.Doctype? && !t.Comment? && !t.Whitespace? && (t.End? ==> E.KeepsEndTag(t.tag))
  }

  lemma FewActions(a: Action, b: Action)
    ensures SaidAll([]) == [] && Makes([]) == []
    ensures SaidAll([a]) == Said(a) && SaidAll([a, b]) == Said(a) + Said(b)
    ensures Makes([a]) == MakesOne(a) && Makes([a, b]) == MakesOne(a) + MakesOne(b)
  {
    hide Said, MakesOne;
    assert [a][..0] == [] && [a, b][..1] == [a];
  }

  lemma {:induction false} SaidJoin(s: seq<Action>, t: seq<Action>)
    ensures SaidAll(s + t) == SaidAll(s) + SaidAll(t) && Makes(s + t) == Makes(s) + Makes(t)
  {
    hide Said, MakesOne, SaidAll, Makes;
    if t == [] {
      assert s + t == s;
      SaidNothing();
    } else {
      var n := |t| - 1;
      assert s + t == (s + t[..n]) + [t[n]] && t == t[..n] + [t[n]];
      SaidJoin(s, t[..n]);
      SaidLast(s + t[..n], t[n]);
      SaidLast(t[..n], t[n]);
    }
  }

  lemma SaidNothing()
    ensures SaidAll([]) == [] && Makes([]) == []
  {}

  lemma SaidLast(s: seq<Action>, a: Action)
    ensures SaidAll(s + [a]) == SaidAll(s) + Said(a) && Makes(s + [a]) == Makes(s) + MakesOne(a)
  {
    hide Said, MakesOne;
    assert (s + [a])[..|s|] == s;
  }

  lemma HeadActionsMean(n: nat, t: E.Token, content: string)
    requires n > 0 && t != E.Start(E.Template)
    ensures SaidAll(HeadActions(n, t, content)) == CallSays(E.InHead, t, content)
    ensures Makes(HeadActions(n, t, content)) == CallMakes(E.InHead, t)
  {
    hide HeadActions, CallSays, CallMakes, SaidAll, Makes;
    if t.Start? { HeadStartMeans(n, t, content); } else { HeadOtherMeans(n, t, content); }
  }

  lemma HeadStartMeans(n: nat, t: E.Token, content: string)
    requires n > 0 && t.Start? && t.tag != E.Template
    ensures SaidAll(HeadActions(n, t, content)) == CallSays(E.InHead, t, content)
    ensures Makes(HeadActions(n, t, content)) == CallMakes(E.InHead, t)
  {
    hide Letters, Made, SaidAll, Makes;
    FewActions(InsertElement(Made(t.tag)), PopDown(n));
    FewActions(PopDown(n - 1), PopDown(n));
  }

  lemma HeadOtherMeans(n: nat, t: E.Token, content: string)
    requires n > 0 && !t.Start?
    ensures SaidAll(HeadActions(n, t, content)) == CallSays(E.InHead, t, content)
    ensures Makes(HeadActions(n, t, content)) == CallMakes(E.InHead, t)
  {
    hide Letters, Made;
    var acts := HeadActions(n, t, content);
    if |acts| > 0 { FewActions(acts[0], PopDown(n)); }
  }

  lemma AfterHeadActionsMean(t: E.Token, content: string, head: NodeId)
    requires t != E.Start(E.Template)
    ensures SaidAll(AfterHeadActions(t, content, head)) == CallSays(E.AfterHead, t, content)
    ensures Makes(AfterHeadActions(t, content, head)) == CallMakes(E.AfterHead, t)
  {
    hide Letters, Made, HeadActions, SaidAll, Makes;
    if t.Start? && E.HeadContent(t.tag) {
      BackActionsMean(t, content, head);
    } else {
      NoActions();
      var acts := AfterHeadActions(t, content, head);
      if |acts| > 0 { FewActions(acts[0], acts[0]); }
    }
  }

  lemma BackActionsMean(t: E.Token, content: string, head: NodeId)
    requires t.Start? && E.HeadContent(t.tag)
    ensures var acts := [ReenterHead(head)] + HeadActions(2, t, content) + [Unopen(1)];
            SaidAll(acts) == [] && Makes(acts) == [Made(t.tag)]
  {
    hide Made, HeadActions, SaidAll, Makes;
    HeadActionsMean(2, t, content);
    var mid := HeadActions(2, t, content);
    FewActions(ReenterHead(head), Unopen(1));
    FewActions(Unopen(1), Unopen(1));
    SaidJoin([ReenterHead(head)], mid);
    SaidJoin([ReenterHead(head)] + mid, [Unopen(1)]);
  }

  lemma NoActions()
    ensures SaidAll([]) == [] && Makes([]) == []
  {}

  lemma NoscriptActionsMean(n: nat, t: E.Token, content: string)
    requires n > 0 && t != E.Start(E.Template)
    ensures SaidAll(NoscriptActions(n, t, content)) == CallSays(E.InHeadNoscript, t, content)
    ensures Makes(NoscriptActions(n, t, content)) == CallMakes(E.InHeadNoscript, t)
  {
    hide Letters, Made, HeadActions, SaidAll, Makes;
    NoActions();
    HeadActionsMean(n, t, content);
    FewActions(PopDown(n - 1), PopDown(n - 1));
  }

  /** The actions of a call say and make what its token calls for in the mode it meets. */
  lemma ActionsMean(p: E.Parser, t: E.Token, content: string, head: NodeId)
    requires E.Fits(p) && E.Early(p.mode) && t != E.Start(E.Template)
    ensures SaidAll(Actions(p, t, content, head)) == CallSays(p.mode, t, content)
    ensures Makes(Actions(p, t, content, head)) == CallMakes(p.mode, t)
  {
    hide E.Fits, CallSays, CallMakes, HeadActions, NoscriptActions, AfterHeadActions, SaidAll, Makes;
    SomeOpen(p);
    if p.mode == E.InHead { HeadActionsMean(|p.open|, t, content); }
    else if p.mode == E.InHeadNoscript { NoscriptActionsMean(|p.open|, t, content); }
    else if p.mode == E.AfterHead { AfterHeadActionsMean(t, content, head); }
    else { OtherActionsMean(p, t, content, head); }
  }

  lemma SomeOpen(p: E.Parser)
    requires E.Fits(p)
    ensures p.mode == E.InHead || p.mode == E.InHeadNoscript ==> p.open != []
  {}

  lemma OtherActionsMean(p: E.Parser, t: E.Token, content: string, head: NodeId)
    requires E.BeforeTheHead(p.mode) || p.mode == E.TextMode
    ensures SaidAll(Actions(p, t, content, head)) == CallSays(p.mode, t, content)
    ensures Makes(Actions(p, t, content, head)) == CallMakes(p.mode, t)
  {
    hide Letters, Made, SaidAll, Makes;
    NoActions();
    var acts := Actions(p, t, content, head);
    if |acts| > 0 { FewActions(acts[0], acts[0]); }
  }

  /** The elements below the root: the head, and then the body or frameset. */
  function Kids(p: E.Parser): seq<E.Elem> {
    (if p.head.Some? then [p.head.value] else [])
    + if !E.Early(p.mode) && |p.open| > 1 then [p.open[1]] else []
  }

  function ViewOf(p: E.Parser, at: seq<NodeId>): View { View(p.open, p.root, Kids(p), at) }

  ghost predicate Follows(p: E.Parser, b: Builder, doc: NodeId, at: seq<NodeId>) {
    |at| == p.nextId && Mirrors(b, doc, ViewOf(p, at))
  }

  function HeadNode(p: E.Parser, at: seq<NodeId>): NodeId {
    if p.head.Some? then NodeOf(at, p.head.value) else 0
  }

  lemma Nothing(b: Builder, doc: NodeId, sets: TagSets, v: View) returns (b': Builder)
    requires Mirrors(b, doc, v)
    ensures Mirrors(b', doc, v) && Leads(b, [], b', doc, sets)
  {
    hide Mirrors, Leads;
    b' := b;
    LeadsNowhere(b, doc, sets);
  }

  lemma VoidMirrors(b: Builder, doc: NodeId, sets: TagSets, v: View, tag: E.Tag) returns (b': Builder, c: NodeId)
    requires Mirrors(b, doc, v) && StartsAtRoot(v) && |v.open| > 1
    ensures Mirrors(b', doc, v.(at := v.at + [c])) && Leads(b, [InsertElement(Made(tag)), PopDown(|v.open|)], b', doc, sets)
  {
    hide Mirrors, Leads;
    var m;
    m, c := InsertMirrors(b, doc, sets, v, tag);
    b' := PopMirrors(m, doc, sets, Inserted(v, tag, c), |v.open|);
    assert Inserted(v, tag, c).open[..|v.open|] == v.open;
    LeadsTrans(b, [InsertElement(Made(tag))], m, [PopDown(|v.open|)], b', doc, sets);
    assert [InsertElement(Made(tag))] + [PopDown(|v.open|)] == [InsertElement(Made(tag)), PopDown(|v.open|)];
  }

  /** The in-head rules, wherever they are used. */
  lemma HeadMirrors(p: E.Parser, t: E.Token, content: string, b: Builder, doc: NodeId, sets: TagSets, v: View)
    returns (b': Builder, at: seq<NodeId>)
    requires Mirrors(b, doc, v) && StartsAtRoot(v) && |v.open| > 1 && p.open == v.open && p.nextId == |v.at|
    requires !E.TemplateOpen(p.open) && t != E.Start(E.Template)
    ensures var q := E.HandleInHead(p, t); |at| == q.nextId && v.at <= at && Mirrors(b', doc, v.(open := q.open, at := at))
    ensures Leads(b, HeadActions(|p.open|, t, content), b', doc, sets)
  {
    hide Mirrors, Leads, E.TemplateOpen, StartsAtRoot, E.HandleInHead, HeadActions;
    if t.Start? { b', at := HeadStartMirrors(p, t, content, b, doc, sets, v); }
    else { b', at := HeadOtherMirrors(p, t, content, b, doc, sets, v); }
  }

  lemma HeadOtherMirrors(p: E.Parser, t: E.Token, content: string, b: Builder, doc: NodeId, sets: TagSets, v: View)
    returns (b': Builder, at: seq<NodeId>)
    requires Mirrors(b, doc, v) && StartsAtRoot(v) && |v.open| > 1 && p.open == v.open && p.nextId == |v.at|
    requires !E.TemplateOpen(p.open) && !t.Start?
    ensures var q := E.HandleInHead(p, t); |at| == q.nextId && v.at <= at && Mirrors(b', doc, v.(open := q.open, at := at))
    ensures Leads(b, HeadActions(|p.open|, t, content), b', doc, sets)
  {
    hide Mirrors, Leads, E.TemplateOpen, StartsAtRoot;
    var acts := HeadActions(|p.open|, t, content);
    at := v.at;
    if acts == [] {
      b' := Nothing(b, doc, sets, v);
    } else if acts[0].BufferText? {
      b' := TextMirrors(b, doc, sets, v, acts[0].text);
    } else if acts[0].InsertComment? {
      b' := CommentMirrors(b, doc, sets, v, acts[0].comment);
    } else {
      b' := PopMirrors(b, doc, sets, v, |v.open| - 1);
    }
  }

  lemma HeadStartMirrors(p: E.Parser, t: E.Token, content: string, b: Builder, doc: NodeId, sets: TagSets, v: View)
    returns (b': Builder, at: seq<NodeId>)
    requires Mirrors(b, doc, v) && StartsAtRoot(v) && |v.open| > 1 && p.open == v.open && p.nextId == |v.at|
    requires t.Start? && t.tag != E.Template
    ensures var q := E.HandleInHead(p, t); |at| == q.nextId && v.at <= at && Mirrors(b', doc, v.(open := q.open, at := at))
    ensures Leads(b, HeadActions(|p.open|, t, content), b', doc, sets)
  {
    hide Mirrors, Leads, StartsAtRoot;
    var acts, n := HeadActions(|p.open|, t, content), |v.open|;
    at := v.at;
    if acts == [] {
      b' := Nothing(b, doc, sets, v);
    } else if acts[0].PopDown? {
      b' := PopMirrors(b, doc, sets, v, n - 1);
    } else if |acts| == 2 {
      var c;
      b', c := VoidMirrors(b, doc, sets, v, t.tag);
      at := v.at + [c];
      assert (p.open + [E.Elem(p.nextId, t.tag)])[..n] == p.open;
    } else {
      var c;
      b', c := InsertMirrors(b, doc, sets, v, t.tag);
      at := v.at + [c];
    }
  }

  /** What the stack looks like in the modes that have a head. */
  lemma HeadViews(p: E.Parser, at: seq<NodeId>)
    requires E.Fits(p) && E.Early(p.mode) && p.mode != E.Initial && p.mode != E.BeforeHtml
    ensures StartsAtRoot(ViewOf(p, at)) && Kids(p) == (if p.head.Some? then [p.head.value] else [])
    ensures p.mode == E.BeforeHead ==> |p.open| == 1 && p.head == None
    ensures p.mode == E.AfterHead ==> |p.open| == 1 && p.head.Some?
    ensures p.mode == E.InHead || p.mode == E.InHeadNoscript || p.mode == E.TextMode ==> |p.open| > 1 && p.head.Some?
  {
    if p.mode == E.InHeadNoscript { assert p.open[..2][0] == p.open[0]; }
    if p.mode == E.TextMode {
      var rest := p.open[..|p.open| - 1];
      assert rest[0] == p.open[0];
      if p.original == E.InHeadNoscript { assert rest[..2][0] == rest[0]; }
    }
  }

  lemma FirstFollows(p: E.Parser, t: E.Token, content: string, b: Builder, doc: NodeId, sets: TagSets, at: seq<NodeId>)
    returns (b': Builder, at': seq<NodeId>)
    requires E.Fits(p) && (p.mode == E.Initial || p.mode == E.BeforeHtml) && Follows(p, b, doc, at)
    ensures Follows(E.Handle(p, t), b', doc, at') && Leads(b, Actions(p, t, content, HeadNode(p, at)), b', doc, sets)
    ensures at <= at'
  {
    hide Mirrors, Leads;
    var acts := Actions(p, t, content, HeadNode(p, at));
    at' := at;
    assert ViewOf(p, at) == View([], None, [], at);
    if acts == [] {
      b' := Nothing(b, doc, sets, ViewOf(p, at));
    } else if acts[0].DocumentComment? {
      b' := DocumentCommentMirrors(b, doc, sets, at, acts[0].comment);
    } else {
      var c;
      b', c := RootMirrors(b, doc, sets, at);
      at' := at + [c];
      assert [] + [E.Elem(p.nextId, E.Html)] == [E.Elem(p.nextId, E.Html)];
    }
  }

  lemma BeforeHeadFollows(p: E.Parser, t: E.Token, content: string, b: Builder, doc: NodeId, sets: TagSets, at: seq<NodeId>)
    returns (b': Builder, at': seq<NodeId>)
    requires E.Fits(p) && p.mode == E.BeforeHead && Follows(p, b, doc, at)
    ensures Follows(E.Handle(p, t), b', doc, at') && Leads(b, Actions(p, t, content, HeadNode(p, at)), b', doc, sets)
    ensures at <= at'
  {
    hide Mirrors, Leads, E.Fits, StartsAtRoot;
    HeadViews(p, at);
    var acts := Actions(p, t, content, HeadNode(p, at));
    at' := at;
    if acts == [] {
      b' := Nothing(b, doc, sets, ViewOf(p, at));
    } else if acts[0].InsertComment? {
      b' := CommentMirrors(b, doc, sets, ViewOf(p, at), acts[0].comment);
    } else {
      var c;
      b', c := InsertMirrors(b, doc, sets, ViewOf(p, at), E.Head);
      at' := at + [c];
      assert ViewOf(E.MakeHead(p), at') == Inserted(ViewOf(p, at), E.Head, c);
    }
  }

  lemma InHeadFollows(p: E.Parser, t: E.Token, content: string, b: Builder, doc: NodeId, sets: TagSets, at: seq<NodeId>)
    returns (b': Builder, at': seq<NodeId>)
    requires E.Fits(p) && p.mode == E.InHead && t != E.Start(E.Template) && Follows(p, b, doc, at)
    ensures Follows(E.Handle(p, t), b', doc, at') && Leads(b, Actions(p, t, content, HeadNode(p, at)), b', doc, sets)
    ensures at <= at'
  {
    hide Mirrors, Leads, E.Fits, E.TemplateOpen, StartsAtRoot, HeadActions;
    HeadViews(p, at);
    E.NoTemplate(p);
    b', at' := HeadMirrors(p, t, content, b, doc, sets, ViewOf(p, at));
  }

  lemma NoscriptFollows(p: E.Parser, t: E.Token, content: string, b: Builder, doc: NodeId, sets: TagSets, at: seq<NodeId>)
    returns (b': Builder, at': seq<NodeId>)
    requires E.Fits(p) && p.mode == E.InHeadNoscript && t != E.Start(E.Template) && Follows(p, b, doc, at)
    ensures Follows(E.Handle(p, t), b', doc, at') && Leads(b, Actions(p, t, content, HeadNode(p, at)), b', doc, sets)
    ensures at <= at'
  {
    hide Mirrors, Leads, E.Fits, E.TemplateOpen, StartsAtRoot, E.HandleInHead, HeadActions, NoscriptActions;
    hide E.HandleInHeadNoscript;
    HeadViews(p, at);
    E.NoTemplate(p);
    NoscriptOutcome(p, t, content);
    if BorrowsHead(t) {
      b', at' := HeadMirrors(p, t, content, b, doc, sets, ViewOf(p, at));
    } else if NoscriptActions(|p.open|, t, content) == [] {
      b' := Nothing(b, doc, sets, ViewOf(p, at));
      at' := at;
    } else {
      b' := PopMirrors(b, doc, sets, ViewOf(p, at), |p.open| - 1);
      at' := at;
    }
  }

  lemma NoscriptOutcome(p: E.Parser, t: E.Token, content: string)
    requires p.open != [] && p.open[0].tag == E.Html && p.mode == E.InHeadNoscript && t != E.Start(E.Template)
    ensures var q, acts := E.HandleInHeadNoscript(p, t), NoscriptActions(|p.open|, t, content);
            && (acts == [] || BorrowsHead(t) || acts == [PopDown(|p.open| - 1)])
            && q.root == p.root && q.head == p.head && E.Early(q.mode)
            && (BorrowsHead(t) ==> q == E.HandleInHead(p, t) && acts == HeadActions(|p.open|, t, content))
            && (!BorrowsHead(t) ==> q.nextId == p.nextId && q.open == if acts == [] then p.open else p.open[..|p.open| - 1])
  {
    hide E.HandleInHead, HeadActions, E.HandleInHeadNoscript, NoscriptActions, BorrowsHead;
    if BorrowsHead(t) { BorrowedKeeps(p, t); }
    if t.Start? { NoscriptStart(p, t.tag, content); } else { NoscriptOther(p, t, content); }
  }

  lemma BorrowedKeeps(p: E.Parser, t: E.Token)
    requires p.open != [] && p.open[0].tag == E.Html && p.mode == E.InHeadNoscript && BorrowsHead(t)
    ensures var q := E.HandleInHead(p, t); q.root == p.root && q.head == p.head && E.Early(q.mode)
  {
    hide E.HandleInHead;
    E.BorrowedFromHead(p, t);
  }

  lemma NoscriptOther(p: E.Parser, t: E.Token, content: string)
    requires p.open != [] && p.open[0].tag == E.Html && p.mode == E.InHeadNoscript && !t.Start?
    ensures var q, acts := E.HandleInHeadNoscript(p, t), NoscriptActions(|p.open|, t, content);
            && (BorrowsHead(t) ==> q == E.HandleInHead(p, t) && acts == HeadActions(|p.open|, t, content))
            && (!BorrowsHead(t) ==>
                  && (acts == [] || acts == [PopDown(|p.open| - 1)])
                  && q.root == p.root && q.head == p.head && E.Early(q.mode)
                  && q.nextId == p.nextId && q.open == if acts == [] then p.open else p.open[..|p.open| - 1])
  {
    hide E.TemplateOpen, E.HandleInHead, HeadActions;
  }

  lemma NoscriptStart(p: E.Parser, tag: E.Tag, content: string)
    requires p.open != [] && tag != E.Template
    ensures var t := E.Start(tag);
            var q, acts := E.HandleInHeadNoscript(p, t), NoscriptActions(|p.open|, t, content);
            && (BorrowsHead(t) ==> q == E.HandleInHead(p, t) && acts == HeadActions(|p.open|, t, content))
            && (!BorrowsHead(t) ==>
                  && (acts == [] || acts == [PopDown(|p.open| - 1)])
                  && q.root == p.root && q.head == p.head && (q.mode == p.mode || q.mode == E.InHead)
                  && q.nextId == p.nextId && q.open == if acts == [] then p.open else p.open[..|p.open| - 1])
  {
    hide E.TemplateOpen, E.HandleInHead, HeadActions;
  }

  /** The tokens noscript hands to the in-head rules. */
  predicate BorrowsHead(t: E.Token) {
    t.Whitespace? || t.Comment? ||
    (t.Start? && (t.tag == E.Basefont || t.tag == E.Bgsound || t.tag == E.Link || t.tag == E.Meta || t.tag == E.Noframes
                  || t.tag == E.Style))
  }

  lemma BackInHeadFollows(p: E.Parser, t: E.Token, content: string, b: Builder, doc: NodeId, sets: TagSets, at: seq<NodeId>)
    returns (b': Builder, at': seq<NodeId>)
    requires E.Fits(p) && p.mode == E.AfterHead && Follows(p, b, doc, at) && t.Start?
    requires var g := t.tag;
             g == E.Base || g == E.Basefont || g == E.Bgsound || g == E.Link || g == E.Meta || E.TextTag(g)
    ensures Follows(E.HandleBackInHead(p, t), b', doc, at') && at <= at'
    ensures Leads(b, [ReenterHead(HeadNode(p, at))] + HeadActions(2, t, content) + [Unopen(1)], b', doc, sets)
  {
    hide Mirrors, Leads, E.TemplateOpen, HeadActions, E.HandleInHead, RemoveFirst, RemoveAt;
    HeadViews(p, at);
    var root, head := p.open[0], p.head.value;
    var v, pushed := ViewOf(p, at), p.(open := p.open + [head]);
    var m1 := ReenterMirrors(b, doc, sets, v, head);
    assert pushed.open == [root, head] && pushed.open == [root, head] + [];
    NoTemplatePushed(root, head);
    var m2;
    m2, at' := HeadMirrors(pushed, t, content, m1, doc, sets, v.(open := pushed.open));
    var q := E.HandleInHead(pushed, t);
    var rest := Added(pushed, t);
    assert q.open == [root, head] + rest;
    assert q.mode == E.AfterHead || q.mode == E.TextMode by { E.BorrowedFromHead(pushed, t); }
    E.WithoutSecond(root, head, rest);
    Second(root, head, rest);
    b' := UnopenMirrors(m2, doc, sets, v.(open := q.open, at := at'), 1);
    LeadsTrans(b, [ReenterHead(HeadNode(p, at))], m1, HeadActions(2, t, content), m2, doc, sets);
    LeadsTrans(b, [ReenterHead(HeadNode(p, at))] + HeadActions(2, t, content), m2, [Unopen(1)], b', doc, sets);
  }

  lemma NoTemplatePushed(root: E.Elem, head: E.Elem)
    requires root.tag == E.Html && head.tag == E.Head
    ensures !E.TemplateOpen([root, head])
  {
    assert [root, head][..1] == [root];
  }

  /** What head content leaves open: the element that takes text, or nothing. */
  lemma Added(p: E.Parser, t: E.Token) returns (rest: seq<E.Elem>)
    requires t.Start? && p.open != [] && p.open[0].tag == E.Html
    requires var g := t.tag;
             g == E.Base || g == E.Basefont || g == E.Bgsound || g == E.Link || g == E.Meta || E.TextTag(g)
    ensures E.HandleInHead(p, t).open == p.open + rest
    ensures E.HandleInHead(p, t).root == p.root && E.HandleInHead(p, t).head == p.head
  {
    hide E.HandleInHead;
    E.BorrowedFromHead(p, t);
    rest := if E.TextTag(t.tag) then [E.Elem(p.nextId, t.tag)] else [];
  }

  lemma Second(a: E.Elem, b: E.Elem, rest: seq<E.Elem>)
    ensures RemoveAt([a, b] + rest, 1) == [a] + rest
  {}

  lemma AfterHeadFollows(p: E.Parser, t: E.Token, content: string, b: Builder, doc: NodeId, sets: TagSets, at: seq<NodeId>)
    returns (b': Builder, at': seq<NodeId>)
    requires E.Fits(p) && p.mode == E.AfterHead && t != E.Start(E.Template) && Follows(p, b, doc, at)
    ensures Follows(E.Handle(p, t), b', doc, at') && Leads(b, Actions(p, t, content, HeadNode(p, at)), b', doc, sets)
    ensures at <= at'
  {
    hide Mirrors, Leads, E.Fits, E.TemplateOpen, StartsAtRoot, E.HandleBackInHead, HeadActions;
    HeadViews(p, at);
    E.NoTemplate(p);
    E.IgnoresTemplateEnd(p);
    var acts, v := AfterHeadActions(t, content, HeadNode(p, at)), ViewOf(p, at);
    at' := at;
    if acts == [] {
      b' := Nothing(b, doc, sets, v);
    } else if acts[0].BufferText? {
      b' := TextMirrors(b, doc, sets, v, acts[0].text);
    } else if acts[0].InsertComment? {
      b' := CommentMirrors(b, doc, sets, v, acts[0].comment);
    } else if acts[0].InsertElement? {
      var c, tag;
      tag := if t == E.Start(E.Frameset) then E.Frameset else E.Body;
      b', c := InsertMirrors(b, doc, sets, v, tag);
      at' := at + [c];
    } else {
      b', at' := BackInHeadFollows(p, t, content, b, doc, sets, at);
    }
  }

  lemma TextFollows(p: E.Parser, t: E.Token, content: string, b: Builder, doc: NodeId, sets: TagSets, at: seq<NodeId>)
    returns (b': Builder, at': seq<NodeId>)
    requires E.Fits(p) && p.mode == E.TextMode && Follows(p, b, doc, at)
    ensures Follows(E.Handle(p, t), b', doc, at') && Leads(b, Actions(p, t, content, HeadNode(p, at)), b', doc, sets)
    ensures at <= at'
  {
    hide Mirrors, Leads, StartsAtRoot;
    HeadViews(p, at);
    at' := at;
    var acts := Actions(p, t, content, HeadNode(p, at));
    if acts[0].BufferText? {
      b' := TextMirrors(b, doc, sets, ViewOf(p, at), acts[0].text);
    } else {
      b' := PopMirrors(b, doc, sets, ViewOf(p, at), |p.open| - 1);
    }
  }

  /** One handler call is the listed sequence of tree actions: from a tree that follows the parser it leads
      to a tree that follows the parser after the call. */
  lemma StepFollows(p: E.Parser, t: E.Token, content: string, b: Builder, doc: NodeId, sets: TagSets, at: seq<NodeId>)
    returns (b': Builder, at': seq<NodeId>)
    requires E.Fits(p) && E.Early(p.mode) && t != E.Start(E.Template) && Follows(p, b, doc, at)
    ensures Follows(E.Handle(p, t), b', doc, at') && Leads(b, Actions(p, t, content, HeadNode(p, at)), b', doc, sets)
    ensures at <= at'
  {
    hide Follows, Leads, E.Fits, E.Handle, Actions;
    match p.mode
    case BeforeHead => b', at' := BeforeHeadFollows(p, t, content, b, doc, sets, at);
    case InHead => b', at' := InHeadFollows(p, t, content, b, doc, sets, at);
    case InHeadNoscript => b', at' := NoscriptFollows(p, t, content, b, doc, sets, at);
    case AfterHead => b', at' := AfterHeadFollows(p, t, content, b, doc, sets, at);
    case TextMode => b', at' := TextFollows(p, t, content, b, doc, sets, at);
    case _ => b', at' := FirstFollows(p, t, content, b, doc, sets, at);
  }

  // ---------------------------------------------------------------------------------------
  // Whole runs

  /** One handler call and what it does to the tree: the trees follow the parser before and after, the
      names of elements stay, and between the trees lie exactly the actions of this call. */
  ghost predicate CallDoes(
    p: E.Parser, t: E.Token, content: string, b: Builder, at: seq<NodeId>, b': Builder, at': seq<NodeId>, doc: NodeId, sets: TagSets)
  {
    && E.Early(p.mode) && at <= at' && Follows(p, b, doc, at) && Follows(E.Handle(p, t), b', doc, at')
    && Leads(b, Actions(p, t, content, HeadNode(p, at)), b', doc, sets)
  }

  /** The first `n` calls for a token. */
  ghost predicate CallsDo(
    p: E.Parser, t: E.Token, content: string, n: nat, b: Builder, at: seq<NodeId>, b': Builder, at': seq<NodeId>,
    doc: NodeId, sets: TagSets)
    decreases n
  {
    if n == 0 then b' == b && at' == at
    else
      var q := E.HandleTimes(p, t, n - 1).(reprocess := false);
      exists m, at0 :: CallsDo(p, t, content, n - 1, b, at, m, at0, doc, sets) && CallDoes(q, t, content, m, at0, b', at', doc, sets)
  }

  /** All that a token does: to the parser, from `p` to `q`, and to the tree. */
  ghost predicate TokenDoes(
    p: E.Parser, t: E.Token, content: string, q: E.Parser, b: Builder, at: seq<NodeId>, b': Builder, at': seq<NodeId>,
    doc: NodeId, sets: TagSets)
  {
    exists n :: E.Handles(p, t, n, q) && CallsDo(p, t, content, n, b, at, b', at', doc, sets)
  }

  lemma {:induction false} CallsFollow(
    p: E.Parser, t: E.Token, content: string, n: nat, b: Builder, doc: NodeId, sets: TagSets, at: seq<NodeId>)
    returns (b': Builder, at': seq<NodeId>)
    requires E.Fits(p) && E.Early(p.mode) && t != E.Start(E.Template) && Follows(p, b, doc, at)
    requires forall k :: 1 <= k < n ==> E.Early(E.HandleTimes(p, t, k).mode)
    ensures E.Fits(E.HandleTimes(p, t, n)) && Follows(E.HandleTimes(p, t, n), b', doc, at')
    ensures CallsDo(p, t, content, n, b, at, b', at', doc, sets)
    decreases n
  {
    hide E.Fits, Follows, Leads, E.Handle, E.Advances, Actions;
    if n == 0 {
      b', at' := b, at;
    } else {
      var m, at0 := CallsFollow(p, t, content, n - 1, b, doc, sets, at);
      var q0 := E.HandleTimes(p, t, n - 1);
      var q := q0.(reprocess := false);
      E.ReprocessFits(q0);
      SameFollows(q0, m, doc, at0);
      E.StepFits(q, t);
      Advanced(q, E.Handle(q, t));
      b', at' := StepFollows(q, t, content, m, doc, sets, at0);
      assert CallDoes(q, t, content, m, at0, b', at', doc, sets);
    }
  }

  lemma SameFollows(p: E.Parser, b: Builder, doc: NodeId, at: seq<NodeId>)
    requires Follows(p, b, doc, at)
    ensures Follows(p.(reprocess := false), b, doc, at)
  {
    hide Mirrors;
  }

  lemma Advanced(p: E.Parser, q: E.Parser)
    requires E.Advances(p, q)
    ensures E.Fits(q)
  {}

  lemma StartFollows(doc: NodeId)
    ensures Follows(E.START, Fresh(doc), doc, [])
  {
    FreshSound(doc);
  }

  /** The trees of a run: from the empty document, one for each state, following it, and from one to the
      next exactly what its token does. */
  ghost predicate Grows(
    trace: seq<E.Parser>, tokens: seq<E.Token>, contents: seq<string>, trees: seq<Builder>, ats: seq<seq<NodeId>>,
    doc: NodeId, sets: TagSets)
  {
    && 0 < |trees| <= |trace| && |ats| == |trees| <= |tokens| + 1 && |contents| == |tokens|
    && trees[0] == Fresh(doc) && ats[0] == []
    && (forall j :: 0 <= j < |trees| ==> Follows(trace[j], trees[j], doc, ats[j]))
    && forall j {:trigger trees[j + 1]} :: 0 <= j < |trees| - 1 ==>
         TokenDoes(trace[j], tokens[j], contents[j], trace[j + 1], trees[j], ats[j], trees[j + 1], ats[j + 1], doc, sets)
  }

  /** Every run of the early modes grows trees that follow it. */
  lemma {:induction false} RunFollows(
    trace: seq<E.Parser>, tokens: seq<E.Token>, contents: seq<string>, used: nat, i: nat, doc: NodeId, sets: TagSets)
    returns (trees: seq<Builder>, ats: seq<seq<NodeId>>)
    requires E.IsRun(trace, tokens, used) && i <= used && |contents| == |tokens|
    requires forall j :: 0 <= j < |tokens| ==> tokens[j] != E.Start(E.Template)
    ensures |trees| == i + 1 && Grows(trace, tokens, contents, trees, ats, doc, sets) && E.Fits(trace[i])
    decreases i
  {
    hide E.Fits, Follows, Leads, E.HandleTimes, Fresh, CallsDo;
    if i == 0 {
      trees, ats := [Fresh(doc)], [[]];
      E.StartFits();
      StartFollows(doc);
    } else {
      var k := i - 1;
      trees, ats := RunFollows(trace, tokens, contents, used, k, doc, sets);
      assert E.Takes(trace[k], tokens[k], trace[k + 1]);
      var n: nat :| n <= 5 - E.Rank(trace[k].mode) && E.Handles(trace[k], tokens[k], n, trace[i]);
      var b, at := CallsFollow(trace[k], tokens[k], contents[k], n, trees[k], doc, sets, ats[k]);
      assert TokenDoes(trace[k], tokens[k], contents[k], trace[i], trees[k], ats[k], b, at, doc, sets);
      GrowsOn(trace, tokens, contents, trees, ats, b, at, doc, sets);
      trees, ats := trees + [b], ats + [at];
    }
  }

  lemma GrowsOn(
    trace: seq<E.Parser>, tokens: seq<E.Token>, contents: seq<string>, trees: seq<Builder>, ats: seq<seq<NodeId>>,
    b: Builder, at: seq<NodeId>, doc: NodeId, sets: TagSets)
    requires Grows(trace, tokens, contents, trees, ats, doc, sets) && |trees| < |trace| && |trees| <= |tokens|
    requires var k := |trees| - 1;
             && TokenDoes(trace[k], tokens[k], contents[k], trace[k + 1], trees[k], ats[k], b, at, doc, sets)
             && Follows(trace[k + 1], b, doc, at)
    ensures Grows(trace, tokens, contents, trees + [b], ats + [at], doc, sets)
  {
    hide Follows, TokenDoes, Fresh;
    var k, more, names := |trees| - 1, trees + [b], ats + [at];
    forall j | 0 <= j < |more| - 1
      ensures TokenDoes(trace[j], tokens[j], contents[j], trace[j + 1], more[j], names[j], more[j + 1], names[j + 1], doc, sets)
    {
      if j < k { assert trees[j + 1] == more[j + 1]; }
    }
  }

  // ---------------------------------------------------------------------------------------
  // The tokens and their text determine the trees

  lemma HeadNodeOne(p: E.Parser, b: Builder, doc: NodeId, at: seq<NodeId>, at': seq<NodeId>)
    requires Follows(p, b, doc, at) && Follows(p, b, doc, at')
    ensures HeadNode(p, at) == HeadNode(p, at')
  {
    hide Sound, ElementChildren, AllNamed;
    if p.head.Some? {
      assert Kids(p)[0] == p.head.value;
      assert Nodes(at, Kids(p))[0] == HeadNode(p, at) && Nodes(at', Kids(p))[0] == HeadNode(p, at');
      assert [at[p.root.value.id]][0] == [at'[p.root.value.id]][0];
    }
  }

  lemma CallOne(
    p: E.Parser, t: E.Token, content: string, b: Builder, at: seq<NodeId>, at': seq<NodeId>,
    c: Builder, ct: seq<NodeId>, d: Builder, dt: seq<NodeId>, doc: NodeId, sets: TagSets)
    requires CallDoes(p, t, content, b, at, c, ct, doc, sets) && CallDoes(p, t, content, b, at', d, dt, doc, sets)
    ensures c == d
  {
    hide Follows, Leads, E.Handle, Actions, HeadNode;
    HeadNodeOne(p, b, doc, at, at');
    LeadsOne(b, Actions(p, t, content, HeadNode(p, at)), c, d, doc, sets);
  }

  lemma {:induction false} CallsOne(
    p: E.Parser, t: E.Token, content: string, n: nat, b: Builder, at: seq<NodeId>, at': seq<NodeId>,
    c: Builder, ct: seq<NodeId>, d: Builder, dt: seq<NodeId>, doc: NodeId, sets: TagSets)
    requires CallsDo(p, t, content, n, b, at, c, ct, doc, sets) && CallsDo(p, t, content, n, b, at', d, dt, doc, sets)
    ensures c == d
    decreases n
  {
    hide CallDoes, E.HandleTimes;
    if n > 0 {
      var q := E.HandleTimes(p, t, n - 1).(reprocess := false);
      var m, mt :| CallsDo(p, t, content, n - 1, b, at, m, mt, doc, sets) && CallDoes(q, t, content, m, mt, c, ct, doc, sets);
      var o, ot :| CallsDo(p, t, content, n - 1, b, at', o, ot, doc, sets) && CallDoes(q, t, content, o, ot, d, dt, doc, sets);
      CallsOne(p, t, content, n - 1, b, at, at', m, mt, o, ot, doc, sets);
      CallOne(q, t, content, m, mt, ot, c, ct, d, dt, doc, sets);
    }
  }

  /** The number of calls for a token is fixed. */
  lemma CallsCounted(p: E.Parser, t: E.Token, n: nat, m: nat, q: E.Parser)
    requires E.Handles(p, t, n, q) && E.Handles(p, t, m, q)
    ensures n == m
  {
    hide E.HandleTimes;
  }

  lemma TokenOne(
    p: E.Parser, t: E.Token, content: string, q: E.Parser, b: Builder, at: seq<NodeId>, at': seq<NodeId>,
    c: Builder, ct: seq<NodeId>, d: Builder, dt: seq<NodeId>, doc: NodeId, sets: TagSets)
    requires TokenDoes(p, t, content, q, b, at, c, ct, doc, sets) && TokenDoes(p, t, content, q, b, at', d, dt, doc, sets)
    ensures c == d
  {
    hide CallsDo, E.Handles;
    var n :| E.Handles(p, t, n, q) && CallsDo(p, t, content, n, b, at, c, ct, doc, sets);
    var m :| E.Handles(p, t, m, q) && CallsDo(p, t, content, m, b, at', d, dt, doc, sets);
    CallsCounted(p, t, n, m, q);
    CallsOne(p, t, content, n, b, at, at', c, ct, d, dt, doc, sets);
  }

  /** One tree for each state: whatever grows along a run is what grows along it. */
  lemma {:induction false} GrowsOneWay(
    trace: seq<E.Parser>, tokens: seq<E.Token>, contents: seq<string>, trees: seq<Builder>, ats: seq<seq<NodeId>>,
    others: seq<Builder>, names: seq<seq<NodeId>>, doc: NodeId, sets: TagSets, j: nat)
    requires Grows(trace, tokens, contents, trees, ats, doc, sets) && Grows(trace, tokens, contents, others, names, doc, sets)
    requires j < |trees| && j < |others|
    ensures trees[j] == others[j]
  {
    hide Follows, TokenDoes, Fresh;
    if j > 0 {
      var k := j - 1;
      GrowsOneWay(trace, tokens, contents, trees, ats, others, names, doc, sets, k);
      assert trees[k + 1] == trees[j] && others[k + 1] == others[j];
      TokenOne(trace[k], tokens[k], contents[k], trace[j], trees[k], ats[k], names[k], trees[j], ats[j], others[j], names[j], doc, sets);
    }
  }

  /** A document with one html element, below it a head and then a body or frameset, which is open. */
  ghost predicate Begun(b: Builder, doc: NodeId, main: E.Tag) {
    var h, open := b.st.nodes, b.st.open;
    && Sound(b, doc) && |open| == 2 && ElementChildren(h, doc) == [open[0]]
    && var kids := ElementChildren(h, open[0]);
       && |kids| == 2 && kids[1] == open[1]
       && IsMade(h, open[0], E.Html) && IsMade(h, kids[0], E.Head) && IsMade(h, kids[1], main)
  }

  predicate IsMade(h: Heap, n: NodeId, tag: E.Tag) { n in h && h[n].kind == Made(tag) }

  lemma SettledBegun(p: E.Parser, b: Builder, doc: NodeId, at: seq<NodeId>)
    requires E.Fits(p) && E.Settled(p) && Follows(p, b, doc, at)
    ensures Begun(b, doc, p.open[1].tag)
  {
    hide Valid, ElementChildren, Made;
    var h := b.st.nodes;
    assert Kids(p) == [p.head.value, p.open[1]];
    assert Named(h, at, Kids(p)[0]) && Named(h, at, Kids(p)[1]) && Named(h, at, p.open[0]) && Named(h, at, p.open[1]);
    assert Nodes(at, Kids(p)) == [at[p.head.value.id], at[p.open[1].id]];
    assert b.st.open == [at[p.open[0].id], at[p.open[1].id]];
  }

  /** A run that leaves the early modes builds html with a head and a body or frameset, and nothing else
      beside them but text and comments: its trees grow from the empty document by what its tokens do, and
      the last of them is such a document. */
  lemma RunBuildsDocument(trace: seq<E.Parser>, tokens: seq<E.Token>, contents: seq<string>, used: nat, doc: NodeId, sets: TagSets)
    returns (trees: seq<Builder>, ats: seq<seq<NodeId>>)
    requires E.IsRun(trace, tokens, used) && |contents| == |tokens| && !E.Early(trace[used].mode)
    requires forall j :: 0 <= j < |tokens| ==> tokens[j] != E.Start(E.Template)
    ensures |trees| == used + 1 && Grows(trace, tokens, contents, trees, ats, doc, sets)
    ensures Begun(trees[used], doc, if trace[used].mode == E.InBody then E.Body else E.Frameset)
  {
    hide E.Fits, Follows, E.Takes, Begun, TokenDoes, Fresh;
    trees, ats := RunFollows(trace, tokens, contents, used, used, doc, sets);
    E.SettledThere(trace[used]);
    SettledBegun(trace[used], trees[used], doc, ats[used]);
  }
}
