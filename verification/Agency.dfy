/** The whole adoption agency algorithm on values: the search for the formatting element, the
    early exits, and up to eight rounds. */
module Agency {
  import opened Options
  import opened Dom
  import opened DomOps
  import opened OpenStack
  import opened Sequences
  import opened Adoption

  const HTML_TAG: nat := 0

  /** The tag sets the algorithm consults. */
  datatype TagSets = TagSets(special: set<QName>, scope: set<QName>)

  predicate NameIn(h: Heap, n: NodeId, names: set<QName>) {
    n in h && h[n].kind.IsTag() && h[n].kind.name in names
  }

  predicate HtmlTagIs(h: Heap, n: NodeId, tag: nat) {
    NameIn(h, n, {QName(Html, tag)})
  }

  // ---------------------------------------------------------------------------------------
  // Pending text

  /** `maybe_flush_text_node_buffer`: the buffered characters become a text node, the last child
      of the current node. */
  function Flush(st: State, pending: Option<Kind>): (r: State)
    ensures r.open == st.open && r.formatting == st.formatting
  {
    if pending.None? || st.open == [] then st
    else
      var c := st.nextId;
      st.(nodes := Attach(Add(st.nodes, c, pending.value), st.open[|st.open| - 1], c), nextId := c + 1)
  }

  /** `insert_text_token`: the buffer grows by the token's text. It starts as white space, which a
      character turns into text and a CDATA character into CDATA; other tokens leave its type. */
  function Buffered(pending: Option<Kind>, token: Kind): (r: Option<Kind>)
    requires token.Text? || token.Whitespace? || token.Cdata?
    ensures r == pending || (r.Some? && !r.value.HasChildren())
  {
    if token.text == "" then pending
    else
      var s := BufferedText(pending) + token.text;
      if token.Text? then Some(Text(s))
      else if token.Cdata? then Some(Cdata(s))
      else if pending.Some? && pending.value.Text? then Some(Text(s))
      else if pending.Some? && pending.value.Cdata? then Some(Cdata(s))
      else Some(Whitespace(s))
  }

  /** The text in the buffer. */
  function BufferedText(pending: Option<Kind>): string {
    if pending.Some? && !pending.value.HasChildren() then pending.value.text else ""
  }

  /** Pop the stack down to length `k`; the first pop flushes the text. */
  function PopTo(st: State, pending: Option<Kind>, k: nat): (r: State)
    requires k < |st.open|
  {
    var f := Flush(st, pending);
    f.(open := f.open[..k])
  }

  // ---------------------------------------------------------------------------------------
  // Searches

  /** Step 5: the last entry with the subject's tag, unless a marker comes first; -1 if none. */
  function FindFormatting(h: Heap, list: seq<Entry>, tag: nat): (i: int)
    ensures -1 <= i < |list|
    ensures i >= 0 ==> list[i].Ref? && HtmlTagIs(h, list[i].id, tag)
    ensures forall j :: i < j < |list| && i >= 0 ==> list[j].Ref? && !HtmlTagIs(h, list[j].id, tag)
    ensures i == -1 ==> forall j: nat :: Unmarked(list, j) ==> !HtmlTagIs(h, list[j].id, tag)
  {
    if list == [] || list[|list| - 1].Marker? then -1
    else if HtmlTagIs(h, list[|list| - 1].id, tag) then |list| - 1
    else FindFormatting(h, list[..|list| - 1], tag)
  }

  /** An HTML element with one of the expected tags. */
  predicate Wanted(h: Heap, n: NodeId, expected: seq<nat>) {
    exists j :: 0 <= j < |expected| && HtmlTagIs(h, n, expected[j])
  }

  /** What ends a scope: an element with a name of the set or, negated, any other element. */
  predicate EndsScope(h: Heap, n: NodeId, negate: bool, limits: set<QName>) {
    n in h && h[n].kind.IsTag() && negate != NameIn(h, n, limits)
  }

  /** `has_an_element_in_specific_scope`. */
  predicate InScope(h: Heap, open: seq<NodeId>, expected: seq<nat>, negate: bool, limits: set<QName>)
  {
    open != [] &&
    var n := open[|open| - 1];
    if Wanted(h, n, expected) then true
    else if EndsScope(h, n, negate, limits) then false
    else InScope(h, open[..|open| - 1], expected, negate, limits)
  }

  /** The topmost wanted element is at `t`, and nothing above it ends the scope. */
  ghost predicate ScopeFound(h: Heap, open: seq<NodeId>, expected: seq<nat>, negate: bool, limits: set<QName>, t: nat) {
    && t < |open| && Wanted(h, open[t], expected)
    && forall j :: t < j < |open| ==> !EndsScope(h, open[j], negate, limits) && !Wanted(h, open[j], expected)
  }

  /** An element is in scope exactly when a wanted one is open and nothing above it ends the scope. */
  lemma {:induction false} ScopeMeaning(h: Heap, open: seq<NodeId>, expected: seq<nat>, negate: bool, limits: set<QName>)
    ensures InScope(h, open, expected, negate, limits)
       <==> exists t: nat :: ScopeFound(h, open, expected, negate, limits, t)
  {
    hide Wanted, EndsScope;
    if open != [] {
      var n := |open| - 1;
      var rest := open[..n];
      ScopeMeaning(h, rest, expected, negate, limits);
      if Wanted(h, open[n], expected) {
        assert ScopeFound(h, open, expected, negate, limits, n);
      } else if !EndsScope(h, open[n], negate, limits) {
        if InScope(h, rest, expected, negate, limits) {
          var t: nat :| ScopeFound(h, rest, expected, negate, limits, t);
          assert ScopeFound(h, open, expected, negate, limits, t) by {
            assert forall j :: t <= j < |rest| ==> open[j] == rest[j];
          }
        }
        if t: nat :| ScopeFound(h, open, expected, negate, limits, t) {
          assert ScopeFound(h, rest, expected, negate, limits, t) by {
            assert forall j :: t <= j < |rest| ==> rest[j] == open[j];
          }
        }
      }
    }
  }

  /** Step 9: the first special element at or above `k` on the stack, or -1. */
  function FurthestBlock(h: Heap, open: seq<NodeId>, k: nat, special: set<QName>): (m: int)
    requires k <= |open|
    ensures m == -1 || (k <= m < |open| && NameIn(h, open[m], special))
    ensures forall j :: k <= j < (if m == -1 then |open| else m) ==> !NameIn(h, open[j], special)
    decreases |open| - k
  {
    if k == |open| then -1
    else if NameIn(h, open[k], special) then k
    else FurthestBlock(h, open, k + 1, special)
  }

  // ---------------------------------------------------------------------------------------
  // Rounds

  datatype Outcome = Done(st: State) | Again(st: State)

  /** One turn of the outer loop. */
  function Turn(st: State, pending: Option<Kind>, tag: nat, sets: TagSets): Outcome {
    var t := FindFormatting(st.nodes, st.formatting, tag);
    if t == -1 then Done(st)
    else
      var fe := st.formatting[t].id;
      var k := IndexOf(st.open, fe);
      if k == -1 then Done(st.(formatting := RemoveFirst(st.formatting, Ref(fe))))
      else if !InScope(st.nodes, st.open, [tag], false, sets.scope) then Done(st)
      else
        var m := FurthestBlock(st.nodes, st.open, k, sets.special);
        if m == -1 then
          var r := PopTo(st, pending, k);
          Done(r.(formatting := RemoveFirst(r.formatting, Ref(fe))))
        else if 0 < k < m then Again(Round(st, k, m))
        else Done(st)
  }

  /** At most `n` turns. */
  function Turns(st: State, pending: Option<Kind>, tag: nat, sets: TagSets, n: nat): State
    decreases n
  {
    if n == 0 then st
    else
      match Turn(st, pending, tag, sets)
      case Done(r) => r
      case Again(r) => Turns(r, pending, tag, sets, n - 1)
  }

  /** Whether `n` turns in a row all end with a full round. */
  predicate Exhausts(st: State, pending: Option<Kind>, tag: nat, sets: TagSets, n: nat)
    decreases n
  {
    n == 0 ||
    match Turn(st, pending, tag, sets)
    case Done(_) => false
    case Again(r) => Exhausts(r, pending, tag, sets, n - 1)
  }

  /** Step 1: the current node is the subject and is not a formatting element. */
  predicate PopsAtOnce(st: State, tag: nat) {
    && st.open != [] && HtmlTagIs(st.nodes, st.open[|st.open| - 1], tag)
    && Ref(st.open[|st.open| - 1]) !in st.formatting
  }

  /** `adoption_agency_algorithm` for the given tag. */
  function Adopt(st: State, pending: Option<Kind>, tag: nat, sets: TagSets): State {
    if PopsAtOnce(st, tag) then PopTo(st, pending, |st.open| - 1)
    else Turns(st, pending, tag, sets, 8)
  }

  /** The turn ends by popping through the formatting element, which empties the text buffer. */
  predicate TurnPops(st: State, tag: nat, sets: TagSets) {
    var t := FindFormatting(st.nodes, st.formatting, tag);
    t != -1 &&
    var k := IndexOf(st.open, st.formatting[t].id);
    && k != -1 && InScope(st.nodes, st.open, [tag], false, sets.scope)
    && FurthestBlock(st.nodes, st.open, k, sets.special) == -1
  }

  /** The text buffer after at most `n` turns. */
  function TurnsPending(st: State, pending: Option<Kind>, tag: nat, sets: TagSets, n: nat): Option<Kind>
    decreases n
  {
    if n == 0 then pending
    else
      match Turn(st, pending, tag, sets)
      case Done(_) => if TurnPops(st, tag, sets) then None else pending
      case Again(r) => TurnsPending(r, pending, tag, sets, n - 1)
  }

  /** The text buffer after the algorithm. */
  function AdoptPending(st: State, pending: Option<Kind>, tag: nat, sets: TagSets): Option<Kind> {
    if PopsAtOnce(st, tag) then None else TurnsPending(st, pending, tag, sets, 8)
  }

  lemma {:induction false} PendingStays(st: State, pending: Option<Kind>, tag: nat, sets: TagSets, n: nat)
    ensures TurnsPending(st, pending, tag, sets, n) == pending || TurnsPending(st, pending, tag, sets, n) == None
    decreases n
  {
    hide Turn, TurnPops;
    if n > 0 && Turn(st, pending, tag, sets).Again? { PendingStays(Turn(st, pending, tag, sets).st, pending, tag, sets, n - 1); }
  }

  // ---------------------------------------------------------------------------------------
  // What the algorithm keeps

  /** What the parser relies on when it runs the algorithm: the bottom of the stack is the html
      element, and the subject is a formatting tag, so neither html nor special. */
  ghost predicate Callable(st: State, pending: Option<Kind>, doc: NodeId, tag: nat, sets: TagSets) {
    && Valid(st, doc) && st.open != [] && HtmlTagIs(st.nodes, st.open[0], HTML_TAG)
    && tag != HTML_TAG && QName(Html, tag) !in sets.special
    && (pending.Some? ==> !pending.value.HasChildren())
  }

  /** Nodes are only added, and below the document; none that hung there is lost. */
  ghost predicate Conserves(h: Heap, h': Heap, doc: NodeId) {
    && WellFormed(h) && WellFormed(h') && Keeps(h, h')
    && (forall x :: x in h && RootOf(h, x) == doc ==> RootOf(h', x) == doc)
    && (forall x :: x in h' && x !in h ==> RootOf(h', x) == doc)
  }

  lemma ConservesTrans(h: Heap, h': Heap, h'': Heap, doc: NodeId)
    requires Conserves(h, h', doc) && Conserves(h', h'', doc)
    ensures Conserves(h, h'', doc)
  {
    hide ChildrenLinked, ParentsLinked, LeavesBare, Acyclic;
    KeepsTrans(h, h', h'');
  }

  /** A new node as last child of `w`: every other path stays. */
  lemma GraftFresh(h: Heap, w: NodeId, c: NodeId, kind: Kind, x: NodeId)
    requires WellFormed(h) && w in h && h[w].kind.HasChildren() && c !in h && (x in h || x == c)
    ensures var h' := Attach(Add(h, c, kind), w, c);
            && WellFormed(h') && x in h'
            && PathOf(h', x) == if x == c then PathOf(h, w) + [c] else PathOf(h, x)
  {
    hide ChildrenLinked, ParentsLinked, LeavesBare, Acyclic;
    AddPaths(h, c, kind);
    OutsideHeap(h, w, c);
    AttachPath(Add(h, c, kind), w, c, x);
    if x in h && RootOf(h, x) == c { UnderRoot(h, x); OutsideHeap(h, x, c); }
  }

  lemma FlushKeeps(st: State, pending: Option<Kind>)
    requires st.nextId !in st.nodes
    ensures var r := Flush(st, pending); Keeps(st.nodes, r.nodes)
    ensures pending.Some? && st.open != [] ==> Flush(st, pending).nodes.Keys == st.nodes.Keys + {st.nextId}
    ensures !(pending.Some? && st.open != []) ==> Flush(st, pending) == st
  {
  }

  lemma FlushPath(st: State, pending: Option<Kind>, x: NodeId)
    requires WellFormed(st.nodes) && AllTags(st.nodes, st.open) && st.nextId !in st.nodes
    requires pending.Some? && !pending.value.HasChildren() && st.open != [] && (x in st.nodes || x == st.nextId)
    ensures var r, w, c := Flush(st, pending).nodes, st.open[|st.open| - 1], st.nextId;
            && WellFormed(r) && x in r
            && PathOf(r, x) == if x == c then PathOf(st.nodes, w) + [c] else PathOf(st.nodes, x)
  {
    GraftFresh(st.nodes, st.open[|st.open| - 1], st.nextId, pending.value, x);
  }

  lemma FlushOrdered(st: State, pending: Option<Kind>)
    requires WellFormed(st.nodes) && Ordered(st.nodes, st.open) && AllTags(st.nodes, st.open) && st.nextId !in st.nodes
    requires pending.Some? && !pending.value.HasChildren() && st.open != []
    ensures Ordered(Flush(st, pending).nodes, st.open)
  {
    hide ChildrenLinked, ParentsLinked, LeavesBare, Acyclic, Flush;
    FlushPath(st, pending, st.nextId);
    FlushKeeps(st, pending);
    forall i, j | 0 <= i < j < |st.open| ensures !Under(Flush(st, pending).nodes, st.open[i], st.open[j]) {
      assert !Under(st.nodes, st.open[i], st.open[j]);
      FlushPath(st, pending, st.open[i]);
    }
  }

  lemma FlushRoot(st: State, pending: Option<Kind>, doc: NodeId, x: NodeId)
    requires WellFormed(st.nodes) && AllTags(st.nodes, st.open) && AllAttached(st.nodes, st.open, doc)
    requires st.nextId !in st.nodes && pending.Some? && !pending.value.HasChildren() && st.open != []
    requires x in st.nodes || x == st.nextId
    ensures var r := Flush(st, pending).nodes;
            WellFormed(r) && x in r && RootOf(r, x) == if x == st.nextId then doc else RootOf(st.nodes, x)
  {
    hide ChildrenLinked, ParentsLinked, LeavesBare, Acyclic, Flush;
    FlushPath(st, pending, x);
  }

  lemma FlushConserves(st: State, pending: Option<Kind>, doc: NodeId)
    requires WellFormed(st.nodes) && AllTags(st.nodes, st.open) && AllAttached(st.nodes, st.open, doc)
    requires st.nextId !in st.nodes && (pending.Some? ==> !pending.value.HasChildren())
    ensures Conserves(st.nodes, Flush(st, pending).nodes, doc)
    ensures AllAttached(Flush(st, pending).nodes, st.open, doc)
  {
    hide ChildrenLinked, ParentsLinked, LeavesBare, Acyclic, Flush, RootOf, Keeps;
    FlushKeeps(st, pending);
    if pending.Some? && st.open != [] {
      var r := Flush(st, pending).nodes;
      FlushRoot(st, pending, doc, st.nextId);
      forall x | x in st.nodes ensures x in r && RootOf(r, x) == RootOf(st.nodes, x) {
        FlushRoot(st, pending, doc, x);
      }
    } else {
      ConservesSelf(st.nodes, doc);
    }
  }

  /** Flushing keeps every fact about the tree and the stack, and adds at most one leaf. */
  lemma FlushValid(st: State, pending: Option<Kind>, doc: NodeId)
    requires Valid(st, doc) && (pending.Some? ==> !pending.value.HasChildren())
    ensures Valid(Flush(st, pending), doc) && Conserves(st.nodes, Flush(st, pending).nodes, doc)
  {
    hide ChildrenLinked, ParentsLinked, LeavesBare, Acyclic, Attach, Add, Ordered;
    FlushKeeps(st, pending);
    FlushConserves(st, pending, doc);
    if pending.Some? && st.open != [] {
      FlushOrdered(st, pending);
      RootPathOf(st.nodes, doc);
      RootIsParentless(Flush(st, pending).nodes, doc);
    }
  }

  lemma PopToValid(st: State, pending: Option<Kind>, k: nat, doc: NodeId)
    requires Valid(st, doc) && (pending.Some? ==> !pending.value.HasChildren()) && k < |st.open|
    ensures Valid(PopTo(st, pending, k), doc) && Conserves(st.nodes, PopTo(st, pending, k).nodes, doc)
  {
    hide ChildrenLinked, ParentsLinked, LeavesBare, Acyclic, Flush, Conserves;
    FlushValid(st, pending, doc);
    OrderedPrefix(Flush(st, pending).nodes, st.open, k);
  }

  lemma OrderedPrefix(h: Heap, stack: seq<NodeId>, k: nat)
    requires Ordered(h, stack) && k <= |stack|
    ensures Ordered(h, stack[..k])
  {
    var s := stack[..k];
    forall i, j | 0 <= i < j < |s| ensures !Under(h, s[i], s[j]) {
      assert !Under(h, stack[i], stack[j]);
    }
  }

  lemma ConservesSelf(h: Heap, doc: NodeId)
    requires WellFormed(h)
    ensures Conserves(h, h, doc)
  {
  }

  /** The formatting element a turn settles on is above the html element and below the block. */
  lemma TurnPositions(st: State, pending: Option<Kind>, doc: NodeId, tag: nat, sets: TagSets)
    requires Callable(st, pending, doc, tag, sets)
    ensures var t := FindFormatting(st.nodes, st.formatting, tag);
            t != -1 ==>
              var k := IndexOf(st.open, st.formatting[t].id);
              k != -1 ==>
                && 0 < k && Ref(st.open[k]) in st.formatting
                && var m := FurthestBlock(st.nodes, st.open, k, sets.special); m != -1 ==> k < m
  {
    hide Valid;
  }

  lemma RoundBottom(st: State, doc: NodeId, k: nat, m: nat)
    requires Valid(st, doc) && 0 < k < m < |st.open| && Ref(st.open[k]) in st.formatting
    ensures Round(st, k, m).open != [] && Round(st, k, m).open[0] == st.open[0]
  {
    hide Moved, Interpose, Add, Walked, Valid, Round;
    var q, b := RoundPieces(st, doc, k, m);
    var w := Walked(st, k, m);
    assert w.st.open[..k + 1][0] == st.open[0] by { var q', b' := WalkedOpen(st, doc, k, m); }
  }

  lemma TurnKeeps(st: State, pending: Option<Kind>, doc: NodeId, tag: nat, sets: TagSets)
    requires Callable(st, pending, doc, tag, sets)
    ensures var r := Turn(st, pending, tag, sets).st; Valid(r, doc) && Conserves(st.nodes, r.nodes, doc)
    ensures Turn(st, pending, tag, sets).Again? ==> Callable(Turn(st, pending, tag, sets).st, pending, doc, tag, sets)
  {
    hide ChildrenLinked, ParentsLinked, LeavesBare, Acyclic, Round, PopTo, Ordered, AllTags, AllAttached, InScope,
      RemoveFirst, ListOk;
    TurnPositions(st, pending, doc, tag, sets);
    ConservesSelf(st.nodes, doc);
    var t := FindFormatting(st.nodes, st.formatting, tag);
    if t != -1 {
      var fe := st.formatting[t].id;
      var k := IndexOf(st.open, fe);
      ListWithout(st.nodes, st.formatting, Ref(fe));
      if k != -1 {
        var m := FurthestBlock(st.nodes, st.open, k, sets.special);
        if m == -1 {
          PopToValid(st, pending, k, doc);
          ListWithout(PopTo(st, pending, k).nodes, PopTo(st, pending, k).formatting, Ref(fe));
        } else {
          RoundKeepsValid(st, doc, k, m);
          RoundBottom(st, doc, k, m);
          KeepsAt(st.nodes, Round(st, k, m).nodes, st.open[0]);
        }
      }
    }
  }

  lemma {:induction false} TurnsKeep(st: State, pending: Option<Kind>, doc: NodeId, tag: nat, sets: TagSets, n: nat)
    requires Callable(st, pending, doc, tag, sets)
    ensures var r := Turns(st, pending, tag, sets, n); Valid(r, doc) && Conserves(st.nodes, r.nodes, doc)
    decreases n
  {
    hide Valid, Conserves, Turn, Callable;
    CallableValid(st, pending, doc, tag, sets);
    if n > 0 {
      TurnKeeps(st, pending, doc, tag, sets);
      var o := Turn(st, pending, tag, sets);
      if o.Again? {
        TurnsKeep(o.st, pending, doc, tag, sets, n - 1);
        ConservesTrans(st.nodes, o.st.nodes, Turns(o.st, pending, tag, sets, n - 1).nodes, doc);
      }
    }
  }

  lemma CallableValid(st: State, pending: Option<Kind>, doc: NodeId, tag: nat, sets: TagSets)
    requires Callable(st, pending, doc, tag, sets)
    ensures Valid(st, doc) && Conserves(st.nodes, st.nodes, doc)
  {
    ConservesSelf(st.nodes, doc);
  }

  /** The whole algorithm: the tree stays well formed and the stack in order, no node is lost or
      cut off from the document, and every node it adds hangs below the document. */
  lemma AdoptKeeps(st: State, pending: Option<Kind>, doc: NodeId, tag: nat, sets: TagSets)
    requires Callable(st, pending, doc, tag, sets)
    ensures var r := Adopt(st, pending, tag, sets); Valid(r, doc) && Conserves(st.nodes, r.nodes, doc)
  {
    hide Valid, Conserves, Turns, PopTo;
    if PopsAtOnce(st, tag) {
      PopToValid(st, pending, |st.open| - 1, doc);
    } else {
      TurnsKeep(st, pending, doc, tag, sets, 8);
    }
  }
}
