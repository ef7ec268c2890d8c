/** What the document says: the characters and comments that the handlers insert, in the order in which
    they insert them. */
module Spelling {
  import opened Options
  import opened Sequences
  import opened Dom
  import opened DomOps
  import opened OpenStack
  import opened DocumentOrder
  import opened LeafOrder
  import opened Adoption
  import opened AdoptionLeaves
  import opened Agency
  import opened FormattingList
  import opened TreeRuns
  import opened Spine
  import opened InsertionOrder

  /** A character of text, or a whole comment. */
  datatype Mark = Letter(c: char) | Note(text: string)

  function Letters(text: string): (r: seq<Mark>)
    ensures |r| == |text|
  {
    seq(|text|, i requires 0 <= i < |text| => Letter(text[i]))
  }

  /** What a node says by itself. */
  function Says(kind: Kind): seq<Mark> {
    if IsText(kind) then Letters(kind.text) else if kind.Comment? then [Note(kind.text)] else []
  }

  function SaysAll(h: Heap, s: seq<NodeId>): seq<Mark> {
    if s == [] then [] else SaysAll(h, s[..|s| - 1]) + Says(KindOf(h, s[|s| - 1]))
  }

  function SaysPending(pending: Option<Kind>): seq<Mark> {
    if pending.Some? then Says(pending.value) else []
  }

  /** What the tree of the document says, in document order. */
  ghost function Spelled(st: State, doc: NodeId): seq<Mark>
    requires WellFormed(st.nodes) && doc in st.nodes
  {
    SaysAll(st.nodes, Leaves(st.nodes, doc))
  }

  /** The tree, and then the text that is still in the buffer. */
  ghost function Content(st: State, pending: Option<Kind>, doc: NodeId): seq<Mark>
    requires WellFormed(st.nodes) && doc in st.nodes
  {
    Spelled(st, doc) + SaysPending(pending)
  }

  /** What an action adds. */
  function Said(a: Action): seq<Mark> {
    match a
    case BufferText(text) => if IsText(text) then Letters(text.text) else []
    case InsertComment(comment) => Says(comment)
    case DocumentComment(comment) => Says(comment)
    case RootComment(comment) => Says(comment)
    case _ => []
  }

  function SaidAll(actions: seq<Action>): seq<Mark> {
    if actions == [] then [] else SaidAll(actions[..|actions| - 1]) + Said(actions[|actions| - 1])
  }

  // ---------------------------------------------------------------------------------------
  // Trees

  lemma {:induction false} SaysKept(h: Heap, h': Heap, s: seq<NodeId>)
    requires Keeps(h, h') && forall i :: 0 <= i < |s| ==> s[i] in h
    ensures SaysAll(h', s) == SaysAll(h, s)
  {
    if s != [] {
      assert s[|s| - 1] in h;
      SaysKept(h, h', s[..|s| - 1]);
    }
  }

  lemma LeavesKept(h: Heap, h': Heap, doc: NodeId)
    requires WellFormed(h) && doc in h && Keeps(h, h')
    ensures SaysAll(h', Leaves(h, doc)) == SaysAll(h, Leaves(h, doc))
  {
    hide ChildrenLinked, ParentsLinked, LeavesBare, Acyclic, Leaves, Keeps;
    var s := Leaves(h, doc);
    forall i | 0 <= i < |s| ensures s[i] in h { LeavesUnder(h, doc, s[i]); }
    SaysKept(h, h', s);
  }

  /** A new last child of the current node is said last. */
  lemma GraftSpells(st: State, doc: NodeId, kind: Kind, open: seq<NodeId>, list: seq<Entry>)
    requires Valid(st, doc) && OnSpine(st.nodes, st.open, doc)
    ensures var r := State(Attach(Add(st.nodes, st.nextId, kind), Current(st.open, doc), st.nextId), st.nextId + 1, open, list);
            && WellFormed(st.nodes) && doc in st.nodes && WellFormed(r.nodes) && doc in r.nodes
            && Spelled(r, doc) == Spelled(st, doc) + Says(kind)
  {
    hide ChildrenLinked, ParentsLinked, LeavesBare, Acyclic, Attach, Add, Leaves, Valid, OnLastPath, Stands;
    var h, c, w := st.nodes, st.nextId, Current(st.open, doc);
    var h' := Attach(Add(h, c, kind), w, c);
    CurrentThere(st, doc);
    GraftAppends(st, doc, kind);
    PushKeeps(h, w, c, kind);
    LeavesKept(h, h', doc);
    SaysMore(h', Leaves(h, doc), c, kind);
  }

  lemma SaysMore(h: Heap, s: seq<NodeId>, c: NodeId, kind: Kind)
    requires c in h && h[c].kind == kind
    ensures SaysAll(h, s + NewLeaves(c, kind)) == SaysAll(h, s) + Says(kind)
  {
    if kind.HasChildren() {
      assert s + [] == s;
    } else {
      assert (s + [c])[..|s|] == s;
    }
  }

  /** Nothing is said when the leaves stay as they are. */
  lemma SameSpells(st: State, st': State, doc: NodeId)
    requires WellFormed(st.nodes) && doc in st.nodes && WellFormed(st'.nodes) && doc in st'.nodes && Keeps(st.nodes, st'.nodes)
    requires Leaves(st'.nodes, doc) == Leaves(st.nodes, doc)
    ensures Spelled(st', doc) == Spelled(st, doc)
  {
    hide ChildrenLinked, ParentsLinked, LeavesBare, Acyclic, Leaves, Keeps;
    LeavesKept(st.nodes, st'.nodes, doc);
  }

  // ---------------------------------------------------------------------------------------
  // The buffer

  lemma LettersJoin(s: string, t: string)
    ensures Letters(s + t) == Letters(s) + Letters(t)
  {}

  lemma BufferSpells(pending: Option<Kind>, text: Kind)
    requires IsText(text) && (pending.Some? ==> IsText(pending.value))
    ensures SaysPending(Buffered(pending, text)) == SaysPending(pending) + Letters(text.text)
  {
    LettersJoin(BufferedText(pending), text.text);
    assert Letters("") == [];
  }

  /** The buffer after a run of text tokens. */
  function BufferOf(tokens: seq<Kind>): Option<Kind>
    requires forall i :: 0 <= i < |tokens| ==> IsText(tokens[i])
  {
    if tokens == [] then None
    else
      assert IsText(tokens[|tokens| - 1]);
      Buffered(BufferOf(tokens[..|tokens| - 1]), tokens[|tokens| - 1])
  }

  function Concat(tokens: seq<Kind>): string
    requires forall i :: 0 <= i < |tokens| ==> IsText(tokens[i])
  {
    if tokens == [] then ""
    else
      assert IsText(tokens[|tokens| - 1]);
      Concat(tokens[..|tokens| - 1]) + tokens[|tokens| - 1].text
  }

  /** The token at `j` is the last that is not white space. */
  ghost predicate LastStrong(tokens: seq<Kind>, j: nat) {
    j < |tokens| && !tokens[j].Whitespace? && forall i :: j < i < |tokens| ==> tokens[i].Whitespace?
  }

  /** The text node that a run of tokens makes: their text in order; CDATA or text like the last token that
      is not white space, and white space only if they all are. */
  lemma {:induction false} BufferTyped(tokens: seq<Kind>)
    requires tokens != [] && forall i :: 0 <= i < |tokens| ==> IsText(tokens[i]) && tokens[i].text != ""
    ensures var r := BufferOf(tokens);
            && r.Some? && IsText(r.value) && r.value.text == Concat(tokens)
            && (r.value.Whitespace? <==> forall i :: 0 <= i < |tokens| ==> tokens[i].Whitespace?)
            && forall j: nat :: LastStrong(tokens, j) ==> (r.value.Text? <==> tokens[j].Text?) && (r.value.Cdata? <==> tokens[j].Cdata?)
  {
    var n := |tokens| - 1;
    var rest, t := tokens[..n], tokens[n];
    if rest == [] {
      assert Concat(tokens) == "" + t.text == t.text;
    } else {
      BufferTyped(rest);
      assert forall i :: 0 <= i < n ==> rest[i] == tokens[i];
      if t.Whitespace? {
        forall j: nat | LastStrong(tokens, j) ensures LastStrong(rest, j) { assert j != n; }
      } else {
        assert !tokens[n].Whitespace?;
        forall j: nat | LastStrong(tokens, j) ensures j == n { }
      }
    }
  }

  /** The buffer holds text, and none while nothing is open. */
  ghost predicate Lettered(open: seq<NodeId>, pending: Option<Kind>) {
    (pending.Some? ==> IsText(pending.value)) && (open == [] ==> pending == None)
  }

  lemma FlushSpells(st: State, pending: Option<Kind>, doc: NodeId)
    requires Valid(st, doc) && OnSpine(st.nodes, st.open, doc) && Lettered(st.open, pending)
    ensures WellFormed(st.nodes) && doc in st.nodes && WellFormed(Flush(st, pending).nodes) && doc in Flush(st, pending).nodes
    ensures Spelled(Flush(st, pending), doc) == Content(st, pending, doc)
  {
    hide OnSpine, Spelled, Attach, Add, Ordered, ListOk, AllAttached;
    if pending.Some? { GraftSpells(st, doc, pending.value, st.open, st.formatting); }
  }

  lemma NothingMore(st: State, open: seq<NodeId>, list: seq<Entry>, doc: NodeId)
    requires WellFormed(st.nodes) && doc in st.nodes
    ensures Spelled(State(st.nodes, st.nextId, open, list), doc) == Spelled(st, doc)
  {}

  // ---------------------------------------------------------------------------------------
  // The adoption agency and reconstruction

  lemma RoundSpells(st: State, doc: NodeId, k: nat, m: nat)
    requires Ready(st, doc, k, m) && OnSpine(st.nodes, st.open, doc)
    ensures WellFormed(st.nodes) && doc in st.nodes && WellFormed(Round(st, k, m).nodes) && doc in Round(st, k, m).nodes
    ensures Spelled(Round(st, k, m), doc) == Spelled(st, doc)
  {
    hide ChildrenLinked, ParentsLinked, LeavesBare, Acyclic, OnLastPath, Leaves, Valid, Round, Keeps, OnSpine, Spelled;
    SpineBetween(st.nodes, st.open, doc, k, m);
    RoundPlaces(st, doc, k, m);
    RoundKeepsLeaves(st, doc, k, m);
    RoundKeepsValid(st, doc, k, m);
    SameSpells(st, Round(st, k, m), doc);
  }

  lemma TurnSpells(st: State, pending: Option<Kind>, doc: NodeId, tag: nat, sets: TagSets)
    requires Callable(st, pending, doc, tag, sets) && OnSpine(st.nodes, st.open, doc) && Lettered(st.open, pending)
    ensures var o := Turn(st, pending, tag, sets);
            && WellFormed(st.nodes) && doc in st.nodes && WellFormed(o.st.nodes) && doc in o.st.nodes
            && Spelled(o.st, doc) == if o.Done? && TurnPops(st, tag, sets) then Content(st, pending, doc) else Spelled(st, doc)
  {
    hide OnSpine, Round, InScope, RemoveFirst, Spelled, Ordered, ListOk, AllAttached, Flush, NameIn, ChildrenLinked,
      ParentsLinked;
    hide LeavesBare, Acyclic, FurthestBlock, SaysPending;
    TurnPositions(st, pending, doc, tag, sets);
    var t := FindFormatting(st.nodes, st.formatting, tag);
    if t != -1 {
      var fe := st.formatting[t].id;
      var k := IndexOf(st.open, fe);
      NothingMore(st, st.open, RemoveFirst(st.formatting, Ref(fe)), doc);
      if k != -1 {
        var m := FurthestBlock(st.nodes, st.open, k, sets.special);
        if m == -1 {
          FlushSpells(st, pending, doc);
          var f := Flush(st, pending);
          NothingMore(f, f.open[..k], RemoveFirst(f.formatting, Ref(fe)), doc);
        } else {
          RoundSpells(st, doc, k, m);
        }
      }
    }
  }

  lemma {:induction false} TurnsSpell(st: State, pending: Option<Kind>, doc: NodeId, tag: nat, sets: TagSets, n: nat)
    requires Callable(st, pending, doc, tag, sets) && OnSpine(st.nodes, st.open, doc) && Lettered(st.open, pending)
    requires Brief(st, pending, tag, sets, n)
    ensures var r := Turns(st, pending, tag, sets, n);
            && WellFormed(st.nodes) && doc in st.nodes && WellFormed(r.nodes) && doc in r.nodes
            && Content(r, TurnsPending(st, pending, tag, sets, n), doc) == Content(st, pending, doc)
    decreases n
  {
    hide Turn, Conserves, OnSpine, Appends, LeavesBehind, Spelled, SaysPending, TurnPops, Ordered, ListOk, AllAttached;
    if n > 0 {
      TurnSpells(st, pending, doc, tag, sets);
      TurnGrows(st, pending, doc, tag, sets);
      TurnKeeps(st, pending, doc, tag, sets);
      var o := Turn(st, pending, tag, sets);
      assert SaysPending(None) == [] by { NonePending(); }
      if o.Again? {
        LetteredOn(o.st, pending, doc, tag, sets);
        TurnsSpell(o.st, pending, doc, tag, sets, n - 1);
      }
    }
  }

  lemma NonePending()
    ensures SaysPending(None) == []
  {}

  lemma LetteredOn(st: State, pending: Option<Kind>, doc: NodeId, tag: nat, sets: TagSets)
    requires Callable(st, pending, doc, tag, sets) && (pending.Some? ==> IsText(pending.value))
    ensures Lettered(st.open, pending)
  {
    hide Valid;
  }

  lemma AdoptSpells(st: State, pending: Option<Kind>, doc: NodeId, tag: nat, sets: TagSets)
    requires Callable(st, pending, doc, tag, sets) && OnSpine(st.nodes, st.open, doc) && Lettered(st.open, pending)
    requires PopsAtOnce(st, tag) || Brief(st, pending, tag, sets, 8)
    ensures var r := Adopt(st, pending, tag, sets);
            && WellFormed(st.nodes) && doc in st.nodes && WellFormed(r.nodes) && doc in r.nodes
            && Content(r, AdoptPending(st, pending, tag, sets), doc) == Content(st, pending, doc)
  {
    hide Turns, TurnsPending, OnSpine, Brief, Spelled, SaysPending, Flush, Ordered, ListOk, AllAttached;
    if PopsAtOnce(st, tag) {
      PopSpells(st, pending, doc, |st.open| - 1);
    } else {
      TurnsSpell(st, pending, doc, tag, sets, 8);
    }
  }

  lemma PopSpells(st: State, pending: Option<Kind>, doc: NodeId, k: nat)
    requires Valid(st, doc) && OnSpine(st.nodes, st.open, doc) && Lettered(st.open, pending) && k < |st.open|
    ensures var r := PopTo(st, pending, k);
            && WellFormed(st.nodes) && doc in st.nodes && WellFormed(r.nodes) && doc in r.nodes
            && Content(r, None, doc) == Content(st, pending, doc)
  {
    hide OnSpine, Spelled, Flush, Valid;
    FlushSpells(st, pending, doc);
    var f := Flush(st, pending);
    NothingMore(f, f.open[..k], f.formatting, doc);
  }

  lemma {:induction false} RebuildSpells(st: State, doc: NodeId, i: nat)
    requires Valid(st, doc) && st.open != [] && OnSpine(st.nodes, st.open, doc)
    requires forall j :: i <= j < |st.formatting| ==> st.formatting[j].Ref?
    ensures var r := RebuildFrom(st, i);
            && WellFormed(st.nodes) && doc in st.nodes && WellFormed(r.nodes) && doc in r.nodes
            && Spelled(r, doc) == Spelled(st, doc)
    decreases |st.formatting| - i
  {
    hide WellFormed, Ordered, AllAttached, OnSpine, Appends, Attach, Add, Conserves, Spelled;
    if i < |st.formatting| {
      var r, kind := RebuildOne(st, i), KindOf(st.nodes, st.formatting[i].id);
      GraftGrows(st, doc, kind, r.open, r.formatting);
      GraftSpells(st, doc, kind, r.open, r.formatting);
      assert kind.IsTag();
      RebuildOneValid(st, doc, i);
      RebuildSpells(r, doc, i + 1);
    }
  }

  // ---------------------------------------------------------------------------------------
  // Every action, every run

  /** Text is buffered only while something is open, as the handlers do. */
  predicate Housed(b: Builder, a: Action) { a.BufferText? ==> b.st.open != [] }

  ghost predicate Speaks(b: Builder, b': Builder, doc: NodeId, a: Action) {
    && WellFormed(b.st.nodes) && doc in b.st.nodes && WellFormed(b'.st.nodes) && doc in b'.st.nodes
    && Content(b'.st, b'.pending, doc) == Content(b.st, b.pending, doc) + Said(a)
    && Lettered(b'.st.open, b'.pending)
  }

  lemma InsertSpeaks(b: Builder, doc: NodeId, kind: Kind, open: seq<NodeId>, list: seq<Entry>)
    requires Sound(b, doc) && OnSpine(b.st.nodes, b.st.open, doc) && Lettered(b.st.open, b.pending)
    ensures var f, w := Flush(b.st, b.pending), Current(b.st.open, doc);
            var r := State(Attach(Add(f.nodes, f.nextId, kind), w, f.nextId), f.nextId + 1, open, list);
            && WellFormed(b.st.nodes) && doc in b.st.nodes && WellFormed(r.nodes) && doc in r.nodes
            && Content(r, None, doc) == Content(b.st, b.pending, doc) + Says(kind)
  {
    hide Valid, OnSpine, Flush, Appends, Attach, Add, Spelled, Says, SaysPending, ChildrenLinked, ParentsLinked, LeavesBare;
    hide Acyclic, Conserves, Current, HtmlTagIs;
    var f := Flush(b.st, b.pending);
    NonePending();
    FlushValid(b.st, b.pending, doc);
    FlushGrows(b.st, b.pending, doc);
    FlushSpells(b.st, b.pending, doc);
    GraftSpells(f, doc, kind, open, list);
  }

  lemma TextSpeaks(b: Builder, doc: NodeId, text: Kind)
    requires Sound(b, doc) && Lettered(b.st.open, b.pending) && IsText(text) && b.st.open != []
    ensures Speaks(b, Builder(b.st, Buffered(b.pending, text)), doc, BufferText(text))
  {
    hide WellFormed, Ordered, ListOk, AllAttached, Spelled, SaysPending, Letters;
    BufferSpells(b.pending, text);
  }

  lemma CommentFlushed(f: State, comment: Kind, doc: NodeId)
    requires f.open != []
    ensures Flush(f, Some(comment))
         == State(Attach(Add(f.nodes, f.nextId, comment), Current(f.open, doc), f.nextId), f.nextId + 1, f.open, f.formatting)
  {}

  lemma StillSpeaks(b: Builder, b': Builder, doc: NodeId, a: Action)
    requires Sound(b, doc) && Lettered(b.st.open, b.pending) && b'.pending == b.pending && Said(a) == []
    requires b'.st.nodes == b.st.nodes && (b'.st.open == [] ==> b.st.open == [])
    ensures Speaks(b, b', doc, a)
  {
    hide WellFormed, Ordered, ListOk, AllAttached, Leaves, SaysAll;
  }

  /** The actions that make a node. */
  lemma NodeSpeaks(b: Builder, b': Builder, doc: NodeId, sets: TagSets, a: Action)
    requires Sound(b, doc) && OnSpine(b.st.nodes, b.st.open, doc) && Lettered(b.st.open, b.pending)
    requires Allowed(b, sets, a) && Does(b, b', doc, sets, a) && Mild(b, sets, a)
    requires a.InsertRoot? || a.InsertElement? || a.InsertComment? || a.DocumentComment? || a.RootComment?
    ensures Speaks(b, b', doc, a)
  {
    hide Valid, OnSpine, Flush, Attach, Add, Spelled, SaysPending, HtmlTagIs, ChildrenLinked, ParentsLinked, LeavesBare, Acyclic;
    var st := b.st;
    var kind := if a.InsertRoot? then a.root else if a.InsertElement? then a.element else a.comment;
    NothingFlushed(st);
    if a.InsertComment? { CommentFlushed(Flush(st, b.pending), kind, doc); }
    InsertSpeaks(b, doc, kind, b'.st.open, b'.st.formatting);
  }

  lemma PopSpeaks(b: Builder, doc: NodeId, height: nat)
    requires Sound(b, doc) && OnSpine(b.st.nodes, b.st.open, doc) && Lettered(b.st.open, b.pending) && height < |b.st.open|
    ensures Speaks(b, Builder(PopTo(b.st, b.pending, height), None), doc, PopDown(height))
  {
    hide Valid, OnSpine, Flush, Spelled, SaysPending, HtmlTagIs, ChildrenLinked, ParentsLinked, LeavesBare, Acyclic;
    PopSpells(b.st, b.pending, doc, height);
  }

  lemma ActionSpeaks(b: Builder, b': Builder, doc: NodeId, sets: TagSets, a: Action)
    requires Sound(b, doc) && OnSpine(b.st.nodes, b.st.open, doc) && Lettered(b.st.open, b.pending)
    requires Allowed(b, sets, a) && Does(b, b', doc, sets, a) && Mild(b, sets, a) && Housed(b, a)
    ensures Speaks(b, b', doc, a)
  {
    hide Valid, OnSpine, Adopt, Reconstruct, Flush, PopTo, AddEntry, ClearToMarker, RemoveAt, Brief, Attach, Add, Speaks;
    hide Buffered, AdoptPending, PopsAtOnce, Lettered, Opened, Aside;
    match a
    case BufferText(text) => TextSpeaks(b, doc, text);
    case InsertRoot(_) => NodeSpeaks(b, b', doc, sets, a);
    case InsertElement(_) => NodeSpeaks(b, b', doc, sets, a);
    case InsertComment(_) => NodeSpeaks(b, b', doc, sets, a);
    case DocumentComment(_) => NodeSpeaks(b, b', doc, sets, a);
    case RootComment(_) => NodeSpeaks(b, b', doc, sets, a);
    case PopDown(height) => PopSpeaks(b, doc, height);
    case ReenterHead(head) =>
      NothingFlushed(b.st);
      StillSpeaks(b, b', doc, a);
    case CloseFormatting(tag) => CloseSpeaks(b, b', doc, sets, tag);
    case Reopen => ReopenSpeaks(b, doc);
    case _ => StillSpeaks(b, b', doc, a);
  }

  lemma CloseSpeaks(b: Builder, b': Builder, doc: NodeId, sets: TagSets, tag: nat)
    requires Sound(b, doc) && OnSpine(b.st.nodes, b.st.open, doc) && Lettered(b.st.open, b.pending)
    requires Allowed(b, sets, CloseFormatting(tag)) && Mild(b, sets, CloseFormatting(tag))
    requires Does(b, b', doc, sets, CloseFormatting(tag))
    ensures Speaks(b, b', doc, CloseFormatting(tag))
  {
    hide Valid, OnSpine, Adopt, Brief, Spelled, SaysPending, TurnsPending, PopsAtOnce;
    AdoptSpells(b.st, b.pending, doc, tag, sets);
    AdoptBottom(b.st, b.pending, doc, tag, sets);
    PendingStays(b.st, b.pending, tag, sets, 8);
  }

  lemma ReopenSpeaks(b: Builder, doc: NodeId)
    requires Sound(b, doc) && OnSpine(b.st.nodes, b.st.open, doc) && Lettered(b.st.open, b.pending) && b.st.open != []
    ensures Speaks(b, Builder(Reconstruct(b.st), b.pending), doc, Reopen)
  {
    hide Valid, OnSpine, RebuildFrom, Spelled, SaysPending, Conserves, SameLinks, Rebuilt, EntryKind;
    RebuildSpells(b.st, doc, RebuildStart(b.st.open, b.st.formatting));
    ReconstructResult(b.st, doc);
  }

  /** In every mild run from an empty document, with text only where something is open: what the document
      says in document order, followed by the text in the buffer, is what the actions said, in the order
      in which they said it. */
  lemma {:induction false} RunSpells(run: seq<Builder>, actions: seq<Action>, doc: NodeId, sets: TagSets, i: nat)
    requires MildRun(run, actions, doc, sets) && run[0] == Fresh(doc) && i < |run|
    requires forall j :: 0 <= j < |actions| ==> Housed(run[j], actions[j])
    ensures WellFormed(run[i].st.nodes) && doc in run[i].st.nodes && Lettered(run[i].st.open, run[i].pending)
    ensures Content(run[i].st, run[i].pending, doc) == SaidAll(actions[..i])
  {
    hide Valid, Conserves, Does, Allowed, Mild, OnSpine, Appends, Spelled, SaysPending, Said, Housed;
    if i == 0 {
      FreshSpells(doc);
      assert actions[..0] == [];
    } else {
      RunSpells(run, actions, doc, sets, i - 1);
      RunSound(run, actions, doc, sets, i - 1, i - 1);
      RunOnSpine(run, actions, doc, sets, i - 1, i - 1);
      ActionSpeaks(run[i - 1], run[i], doc, sets, actions[i - 1]);
      assert actions[..i][..i - 1] == actions[..i - 1];
    }
  }

  lemma FreshSpells(doc: NodeId)
    ensures var b := Fresh(doc); WellFormed(b.st.nodes) && doc in b.st.nodes && Content(b.st, b.pending, doc) == []
  {
    hide ChildrenLinked, ParentsLinked, LeavesBare, Acyclic, Leaves;
    FreshSpine(doc);
  }
}
