/** Text does get reordered: the run of `<i><b><u><span><span><span><div><!--x--></b></div><div><!--y--></i>`,
    in which a round leaves an element behind on the stack and a later one moves text past other text. */
module Reordering {
  import opened Options
  import opened Sequences
  import opened Dom
  import opened DomOps
  import opened DocumentOrder
  import opened LeafOrder
  import opened Adoption
  import opened AdoptionLeaves
  import opened Agency
  import opened FormattingList
  import opened TreeRuns
  import opened Spine
  import opened InsertionOrder

  /** A state some run from the empty document ends in. */
  ghost predicate Reached(b: Builder, sets: TagSets) {
    exists actions :: Leads(Fresh(0), actions, b, 0, sets)
  }

  lemma StartReached(sets: TagSets)
    ensures Reached(Fresh(0), sets)
  {
    LeadsNowhere(Fresh(0), 0, sets);
  }

  lemma StepReached(b: Builder, b': Builder, sets: TagSets, a: Action)
    requires Reached(b, sets) && Allowed(b, sets, a) && Does(b, b', 0, sets, a)
    ensures Reached(b', sets)
  {
    hide Allowed, Does, Leads, Fresh;
    var actions :| Leads(Fresh(0), actions, b, 0, sets);
    LeadsOn(b, a, b', 0, sets);
    LeadsTrans(Fresh(0), actions, b, [a], b', 0, sets);
  }

  // ---------------------------------------------------------------------------------------
  // The tags

  const BODY: nat := 1
  const I: nat := 2
  const B: nat := 3
  const U: nat := 4
  const SPAN: nat := 5
  const DIV: nat := 6

  function Tag(tag: nat): Kind { Element(QName(Html, tag), []) }

  const Sets := TagSets({QName(Html, HTML_TAG), QName(Html, BODY), QName(Html, DIV)}, {QName(Html, HTML_TAG)})

  // ---------------------------------------------------------------------------------------
  // One element inside the other

  /** A heap whose identifiers are positions. */
  function Heaped(s: seq<Node>): Heap { map n: NodeId | n < |s| :: s[n] }

  function KindAt(n: nat): Kind {
    if n == 0 then Document
    else if n == 10 then Comment("x")
    else Tag([HTML_TAG, BODY, I, B, U, SPAN, SPAN, SPAN, DIV][if n < 10 then n - 1 else 0])
  }

  /** The first `n` nodes, each the only child of the one before. */
  function Nested(n: nat): (r: seq<Node>)
    ensures |r| == n
  {
    seq(n, i requires 0 <= i < n =>
      Node(KindAt(i), if i == 0 then None else Some(i - 1), if i == 0 then -1 else 0, if i + 1 < n then [i + 1] else []))
  }

  /** The heap with one more node, the last child of `w`. */
  function Grown(s: seq<Node>, w: nat, kind: Kind): seq<Node>
    requires w < |s|
  {
    s[w := s[w].(children := s[w].children + [|s|])] + [Node(kind, Some(w), |s[w].children|, [])]
  }

  lemma GraftHeaped(s: seq<Node>, w: nat, kind: Kind)
    requires w < |s|
    ensures Attach(Add(Heaped(s), |s|, kind), w, |s|) == Heaped(Grown(s, w, kind))
  {
    var h, h' := Attach(Add(Heaped(s), |s|, kind), w, |s|), Heaped(Grown(s, w, kind));
    assert h.Keys == h'.Keys;
    forall x | x in h ensures h[x] == h'[x] { }
  }

  lemma NestedGrows(n: nat)
    requires n > 0
    ensures Grown(Nested(n), n - 1, KindAt(n)) == Nested(n + 1)
  {
    hide KindAt;
    var s, s' := Grown(Nested(n), n - 1, KindAt(n)), Nested(n + 1);
    forall i | 0 <= i < n + 1 ensures s[i] == s'[i] { }
  }

  /** The first `n` nodes made, all elements open. */
  function Opens(n: nat, list: seq<Entry>): Builder
    requires n > 0
  {
    Builder(State(Heaped(Nested(n)), n, Ids(1, n - 1), list), None)
  }

  lemma OpensNext(n: nat, list: seq<Entry>)
    requires 2 <= n < 10 && Reached(Opens(n, list), Sets)
    ensures Reached(Opens(n + 1, list), Sets)
  {
    hide Reached, Nested, Heaped, Attach, Add;
    var b, b' := Opens(n, list), Opens(n + 1, list);
    assert b.st.open[|b.st.open| - 1] == n - 1;
    assert b.st.open + [n] == b'.st.open;
    NestedGrows(n);
    GraftHeaped(Nested(n), n - 1, KindAt(n));
    StepReached(b, b', Sets, InsertElement(KindAt(n)));
  }

  lemma OpensListed(n: nat, list: seq<Entry>)
    requires 4 <= n < 10 && |list| < 3 && Reached(Opens(n, list), Sets)
    ensures Reached(Opens(n, list + [Ref(n - 1)]), Sets)
  {
    hide Reached, Ids;
    StepReached(Opens(n, list), Opens(n, list + [Ref(n - 1)]), Sets, ListElement(n - 1));
  }

  lemma RootReached()
    ensures Reached(Opens(2, []), Sets)
  {
    hide Reached, Attach, Add;
    StartReached(Sets);
    NestedGrows(1);
    GraftHeaped(Nested(1), 0, KindAt(1));
    assert Fresh(0).st.nodes == Heaped(Nested(1));
    StepReached(Fresh(0), Opens(2, []), Sets, InsertRoot(KindAt(1)));
  }

  /** `<i><b><u><span><span><span><div><!--x-->` */
  function Before(): Builder {
    Builder(State(Heaped(Nested(11)), 11, [1, 2, 3, 4, 5, 6, 7, 8, 9], [Ref(3), Ref(4), Ref(5)]), None)
  }

  lemma BeforeReached()
    ensures Reached(Before(), Sets)
  {
    hide Reached, Nested, Heaped, Attach, Add, Opens, Before;
    RootReached();
    OpensNext(2, []);
    OpensNext(3, []);
    OpensListed(4, []);
    assert [] + [Ref(3)] == [Ref(3)];
    OpensNext(4, [Ref(3)]);
    OpensListed(5, [Ref(3)]);
    assert [Ref(3)] + [Ref(4)] == [Ref(3), Ref(4)];
    OpensNext(5, [Ref(3), Ref(4)]);
    OpensListed(6, [Ref(3), Ref(4)]);
    var list := [Ref(3), Ref(4), Ref(5)];
    assert [Ref(3), Ref(4)] + [Ref(5)] == list;
    OpensNext(6, list);
    OpensNext(7, list);
    OpensNext(8, list);
    OpensNext(9, list);
    CommentReached(list);
  }

  lemma CommentReached(list: seq<Entry>)
    requires list == [Ref(3), Ref(4), Ref(5)] && Reached(Opens(10, list), Sets)
    ensures Reached(Before(), Sets)
  {
    hide Reached, Nested, Heaped, Attach, Add;
    var b := Opens(10, list);
    assert b.st.open == [1, 2, 3, 4, 5, 6, 7, 8, 9];
    NestedGrows(10);
    GraftHeaped(Nested(10), 9, KindAt(10));
    StepReached(b, Before(), Sets, InsertComment(KindAt(10)));
  }

  // ---------------------------------------------------------------------------------------
  // `</b>` leaves the `u` element behind

  function Stacked(open: seq<NodeId>, list: seq<Entry>): State {
    State(Heaped(Nested(11)), 11, open, list)
  }

  lemma Skipped(open: seq<NodeId>, list: seq<Entry>, last: NodeId, bookmark: int, i: nat, pass: nat)
    requires i < |open| && Ref(open[i]) !in list
    ensures Visit(Walk(Stacked(open, list), last, bookmark), i, pass, 9) == Walk(Stacked(RemoveAt(open, i), list), last, bookmark)
  {
    hide Heaped, Nested;
  }

  /** The spans go, the listed `u` element is met at pass 4. */
  lemma BeforeWalked()
    ensures Walked(Before().st, 3, 8) == Walk(Stacked([1, 2, 3, 4, 5, 9], [Ref(3), Ref(4)]), 9, 2)
  {
    hide Heaped, Nested, IndexOf, RemoveAt, Visit, Stacked;
    var list := [Ref(3), Ref(4), Ref(5)];
    assert Before().st == Stacked([1, 2, 3, 4, 5, 6, 7, 8, 9], list) by { BeforeStacked(); }
    FirstIndex(list, Ref(4), 1);
    SpanSkipped([1, 2, 3, 4, 5, 6, 7], 8, [9], 1);
    SpanSkipped([1, 2, 3, 4, 5, 6], 7, [9], 2);
    SpanSkipped([1, 2, 3, 4, 5], 6, [9], 3);
    Dropped();
    assert [1, 2, 3, 4, 5, 6, 7] + [8] + [9] == [1, 2, 3, 4, 5, 6, 7, 8, 9];
    assert [1, 2, 3, 4, 5, 6, 7] + [9] == [1, 2, 3, 4, 5, 6] + [7] + [9];
    assert [1, 2, 3, 4, 5, 6] + [9] == [1, 2, 3, 4, 5] + [6] + [9];
    assert [1, 2, 3, 4, 5] + [9] == [1, 2, 3, 4, 5, 9];
  }

  lemma BeforeStacked()
    ensures Before().st == Stacked([1, 2, 3, 4, 5, 6, 7, 8, 9], [Ref(3), Ref(4), Ref(5)])
  {}

  lemma SpanSkipped(s: seq<NodeId>, x: NodeId, t: seq<NodeId>, pass: nat)
    requires x > 5
    ensures var list := [Ref(3), Ref(4), Ref(5)];
            Visit(Walk(Stacked(s + [x] + t, list), 9, 2), |s|, pass, 9) == Walk(Stacked(s + t, list), 9, 2)
  {
    hide Stacked;
    Skipped(s + [x] + t, [Ref(3), Ref(4), Ref(5)], 9, 2, |s|, pass);
    assert RemoveAt(s + [x] + t, |s|) == s + t;
  }

  lemma Dropped()
    ensures Visit(Walk(Stacked([1, 2, 3, 4, 5, 9], [Ref(3), Ref(4), Ref(5)]), 9, 2), 4, 4, 9)
         == Walk(Stacked([1, 2, 3, 4, 5, 9], [Ref(3), Ref(4)]), 9, 2)
  {
    hide Heaped, Nested, IndexOf;
    FirstIndex([Ref(3), Ref(4), Ref(5)], Ref(5), 2);
    assert RemoveAt([Ref(3), Ref(4), Ref(5)], 2) == [Ref(3), Ref(4)];
  }

  /** The block moves below the `i` element, and a new `b` element goes between it and the comment. */
  function Moved1(): seq<Node> {
    var s := Nested(11);
    s[3 := s[3].(children := [4, 9])]
     [8 := s[8].(children := [])]
     [9 := Node(Tag(DIV), Some(3), 1, [11])]
     [10 := Node(Comment("x"), Some(11), 0, [])]
    + [Node(Tag(B), Some(9), 0, [10])]
  }

  /** Taking a last child off. */
  lemma DetachHeaped(s: seq<Node>, p: nat, v: nat)
    requires p < |s| && v < |s| && p != v && s[v].parent == Some(p) && 0 <= s[v].index == |s[p].children| - 1
    requires forall n :: 0 <= n < |s| && s[n].parent == Some(p) ==> s[n].index <= s[v].index
    ensures Detach(Heaped(s), v)
         == Heaped(s[v := s[v].(parent := None, index := -1)][p := s[p].(children := s[p].children[..|s[p].children| - 1])])
  {
    var k := |s[p].children| - 1;
    assert RemoveAt(s[p].children, k) == s[p].children[..k];
    var h, s' := Detach(Heaped(s), v), s[v := s[v].(parent := None, index := -1)][p := s[p].(children := s[p].children[..k])];
    assert Hangs(Heaped(s), v);
    assert h.Keys == Heaped(s').Keys;
    forall n | n in h ensures h[n] == s'[n] { }
  }

  lemma AttachHeaped(s: seq<Node>, w: nat, v: nat)
    requires w < |s| && v < |s| && v != w
    ensures Attach(Heaped(s), w, v)
         == Heaped(s[v := s[v].(parent := Some(w), index := |s[w].children|)][w := s[w].(children := s[w].children + [v])])
  {
    var h := Attach(Heaped(s), w, v);
    var s' := s[v := s[v].(parent := Some(w), index := |s[w].children|)][w := s[w].(children := s[w].children + [v])];
    assert h.Keys == Heaped(s').Keys;
    forall n | n in h ensures h[n] == s'[n] { }
  }

  /** A new node between an element and its only child. */
  lemma InterposeHeaped(s: seq<Node>, b: nat, x: nat, kind: Kind)
    requires b < |s| && x < |s| && b != x && s[b].children == [x]
    requires forall n :: 0 <= n < |s| ==> (s[n].parent == Some(b) <==> n == x)
    ensures Interpose(Add(Heaped(s), |s|, kind), b, |s|)
         == Heaped(s[b := s[b].(children := [|s|])][x := s[x].(parent := Some(|s|))] + [Node(kind, Some(b), 0, [x])])
  {
    var h := Interpose(Add(Heaped(s), |s|, kind), b, |s|);
    var s' := s[b := s[b].(children := [|s|])][x := s[x].(parent := Some(|s|))] + [Node(kind, Some(b), 0, [x])];
    assert h.Keys == Heaped(s').Keys;
    forall n | n in h ensures h[n] == s'[n] { }
  }

  /** Step 14 on the tree. */
  function Hung(): (r: seq<Node>)
    ensures |r| == 11
  {
    var s := Nested(11);
    s[3 := s[3].(children := [4, 9])][8 := s[8].(children := [])][9 := s[9].(parent := Some(3), index := 1)]
  }

  lemma HungHeap()
    ensures Moved(Heaped(Nested(11)), 3, 9) == Heaped(Hung())
  {
    hide KindAt, Heaped;
    var s := Nested(11);
    DetachHeaped(s, 8, 9);
    var d := s[9 := s[9].(parent := None, index := -1)][8 := s[8].(children := s[8].children[..0])];
    AttachHeaped(d, 3, 9);
    assert [4] + [9] == [4, 9];
    assert d[9 := d[9].(parent := Some(3), index := 1)][3 := d[3].(children := [4, 9])] == Hung();
  }

  lemma MovedHeap()
    ensures Interpose(Add(Moved(Heaped(Nested(11)), 3, 9), 11, Tag(B)), 9, 11) == Heaped(Moved1())
    ensures KindOf(Moved(Heaped(Nested(11)), 3, 9), 4) == Tag(B)
  {
    hide Interpose, Add, Moved;
    HungHeap();
    InterposeHeaped(Hung(), 9, 10, Tag(B));
    var s := Hung();
    assert s[9 := s[9].(children := [11])][10 := s[10].(parent := Some(11))] + [Node(Tag(B), Some(9), 0, [10])] == Moved1();
  }

  /** After the round: the new `b` element is current, and the `u` element still open. */
  function Between1(): State {
    State(Heaped(Moved1()), 12, [1, 2, 3, 5, 9, 11], [Ref(3), Ref(11)])
  }

  lemma FirstRound()
    ensures Round(Before().st, 3, 8) == Between1()
  {
    hide Walked, Moved, Interpose, Add, Heaped, Nested, IndexOf, Moved1;
    BeforeWalked();
    MovedHeap();
    FirstIndex([1, 2, 3, 4, 5, 9], 4, 3);
    FirstIndex([1, 2, 3, 5, 9], 9, 4);
    FirstIndex([Ref(3), Ref(4)], Ref(4), 1);
    assert RemoveAt([1, 2, 3, 4, 5, 9], 3) == [1, 2, 3, 5, 9];
    assert InsertAt([1, 2, 3, 5, 9], 5, 11) == [1, 2, 3, 5, 9, 11];
    assert RemoveAt([Ref(3), Ref(4)], 1) == [Ref(3)];
    assert InsertAt([Ref(3)], 1, Ref(11)) == [Ref(3), Ref(11)];
  }

  /** A turn that finds its formatting element at `t` on the list and `k` on the stack, with the first
      special element, if any, at `m`. */
  lemma TurnAt(st: State, tag: nat, t: nat, k: nat, m: int)
    requires t < |st.formatting| && st.formatting[t].Ref? && HtmlTagIs(st.nodes, st.formatting[t].id, tag)
    requires forall j :: t < j < |st.formatting| ==> st.formatting[j].Ref? && !HtmlTagIs(st.nodes, st.formatting[j].id, tag)
    requires k < |st.open| && st.open[k] == st.formatting[t].id && st.open[k] !in st.open[..k]
    requires forall j :: k < j < |st.open| ==> !EndsScope(st.nodes, st.open[j], false, Sets.scope)
    requires forall j :: k < j < |st.open| ==> !HtmlTagIs(st.nodes, st.open[j], tag)
    requires m == -1 || (k <= m < |st.open| && NameIn(st.nodes, st.open[m], Sets.special))
    requires forall j :: k <= j < (if m == -1 then |st.open| else m) ==> !NameIn(st.nodes, st.open[j], Sets.special)
    ensures FindFormatting(st.nodes, st.formatting, tag) == t && IndexOf(st.open, st.formatting[t].id) == k
    ensures InScope(st.nodes, st.open, [tag], false, Sets.scope)
    ensures FurthestBlock(st.nodes, st.open, k, Sets.special) == m
  {
    hide HtmlTagIs, NameIn, EndsScope;
    var i := FindFormatting(st.nodes, st.formatting, tag);
    assert Unmarked(st.formatting, t);
    FirstIndex(st.open, st.open[k], k);
    assert [tag][0] == tag;
    assert Wanted(st.nodes, st.open[k], [tag]);
    assert ScopeFound(st.nodes, st.open, [tag], false, Sets.scope, k);
    ScopeMeaning(st.nodes, st.open, [tag], false, Sets.scope);
  }

  lemma FirstTurn()
    ensures Turn(Before().st, None, B, Sets) == Again(Between1())
  {
    hide Round, InScope, IndexOf, FindFormatting, FurthestBlock, Heaped, Nested;
    FirstFound();
    FirstRound();
  }

  lemma FirstFound()
    ensures var st := Before().st;
            && FindFormatting(st.nodes, st.formatting, B) == 1 && IndexOf(st.open, 4) == 3
            && InScope(st.nodes, st.open, [B], false, Sets.scope) && FurthestBlock(st.nodes, st.open, 3, Sets.special) == 8
  {
    hide InScope, IndexOf, FindFormatting, FurthestBlock, Heaped;
    var st := Before().st;
    NestedNames();
    assert 4 !in [1, 2, 3, 4, 5, 6, 7, 8, 9][..3];
    TurnAt(st, B, 1, 3, 8);
  }

  lemma NestedNames()
    ensures var h := Heaped(Nested(11));
            && (forall n: nat :: 1 <= n < 10 ==> n in h) && h[4].kind == Tag(B) && h[5].kind == Tag(U)
            && h[6].kind == h[7].kind == h[8].kind == Tag(SPAN) && h[9].kind == Tag(DIV)
  {
  }

  lemma SecondTurn()
    ensures Turn(Between1(), None, B, Sets) == Done(State(Heaped(Moved1()), 12, [1, 2, 3, 5, 9], [Ref(3)]))
  {
    hide Round, InScope, IndexOf, FindFormatting, FurthestBlock;
    TurnAt(Between1(), B, 1, 5, -1);
    assert [1, 2, 3, 5, 9, 11][..5] == [1, 2, 3, 5, 9];
    FirstIndex([Ref(3), Ref(11)], Ref(11), 1);
    assert RemoveAt([Ref(3), Ref(11)], 1) == [Ref(3)];
  }

  // ---------------------------------------------------------------------------------------
  // `</div><div><!--y-->`, which goes into the `u` element

  function Final(): (s: seq<Node>)
    ensures |s| == 14
  {
    Grown(Grown(Moved1(), 5, Tag(DIV)), 12, Comment("y"))
  }

  function After(): Builder {
    Builder(State(Heaped(Final()), 14, [1, 2, 3, 5, 12], [Ref(3)]), None)
  }

  lemma ClosedReached()
    ensures Reached(Builder(State(Heaped(Moved1()), 12, [1, 2, 3, 5, 9], [Ref(3)]), None), Sets)
  {
    hide Reached, Turn, Heaped, Moved1;
    BeforeReached();
    FirstTurn();
    SecondTurn();
    assert !PopsAtOnce(Before().st, B) by { NotB(); }
    PendingStays(Before().st, None, B, Sets, 8);
    StepReached(Before(), Builder(State(Heaped(Moved1()), 12, [1, 2, 3, 5, 9], [Ref(3)]), None), Sets, CloseFormatting(B));
  }

  lemma NotB()
    ensures !PopsAtOnce(Before().st, B)
  {
  }

  lemma AfterReached()
    ensures Reached(After(), Sets)
  {
    hide Reached, Heaped, Moved1, Attach, Add;
    ClosedReached();
    GrownSize();
    var h1, h2 := Heaped(Moved1()), Heaped(Grown(Moved1(), 5, Tag(DIV)));
    var b := Builder(State(h1, 12, [1, 2, 3, 5, 9], [Ref(3)]), None);
    var b1 := Builder(State(h1, 12, [1, 2, 3, 5], [Ref(3)]), None);
    var b2 := Builder(State(h2, 13, [1, 2, 3, 5, 12], [Ref(3)]), None);
    assert [1, 2, 3, 5, 9][..4] == [1, 2, 3, 5];
    StepReached(b, b1, Sets, PopDown(4));
    GraftHeaped(Moved1(), 5, Tag(DIV));
    assert [1, 2, 3, 5] + [12] == [1, 2, 3, 5, 12];
    StepReached(b1, b2, Sets, InsertElement(Tag(DIV)));
    GraftHeaped(Grown(Moved1(), 5, Tag(DIV)), 12, Comment("y"));
    StepReached(b2, After(), Sets, InsertComment(Comment("y")));
  }

  lemma GrownSize()
    ensures |Moved1()| == 12 && |Grown(Moved1(), 5, Tag(DIV))| == 13
  {}

  // ---------------------------------------------------------------------------------------
  // `</i>` moves the second comment behind the first

  lemma SoleLeaves(h: Heap, n: NodeId, c: NodeId)
    requires WellFormed(h) && n in h && h[n].kind.HasChildren() && h[n].children == [c]
    ensures c in h && Leaves(h, n) == Leaves(h, c)
  {
    hide ChildrenLinked, ParentsLinked, LeavesBare, Acyclic, Leaves, LeavesUpTo;
    LeavesAll(h, n);
    UpToStep(h, n, 0);
  }

  lemma UpToStep(h: Heap, n: NodeId, k: nat)
    requires WellFormed(h) && n in h && k < |h[n].children|
    ensures h[n].children[k] in h && LeavesUpTo(h, n, 0) == []
    ensures LeavesUpTo(h, n, k + 1) == LeavesUpTo(h, n, k) + Leaves(h, h[n].children[k])
  {
    hide ChildrenLinked, ParentsLinked, LeavesBare, Acyclic, Leaves;
    ChildRoom(h, n, k);
  }

  lemma EndLeaves(h: Heap, n: NodeId)
    requires WellFormed(h) && n in h && h[n].children == []
    ensures Leaves(h, n) == if h[n].kind.HasChildren() then [] else [n]
  {
    hide ChildrenLinked, ParentsLinked, LeavesBare, Acyclic;
  }

  lemma TwoLeaves(h: Heap, n: NodeId, c: NodeId, d: NodeId)
    requires WellFormed(h) && n in h && h[n].kind.HasChildren() && h[n].children == [c, d]
    ensures c in h && d in h && Leaves(h, n) == Leaves(h, c) + Leaves(h, d)
  {
    hide ChildrenLinked, ParentsLinked, LeavesBare, Acyclic, Leaves, LeavesUpTo;
    LeavesAll(h, n);
    UpToStep(h, n, 0);
    UpToStep(h, n, 1);
  }

  /** The tree `</i>` finds. */
  lemma FinalTree()
    ensures var h := Heaped(Final());
            && (forall n: nat :: n < 14 ==> n in h)
            && (forall n: nat :: n < 13 && n != 10 ==> h[n].kind.HasChildren()) && h[10].kind.Comment? && h[13].kind.Comment?
            && h[0].children == [1] && h[1].children == [2] && h[2].children == [3] && h[3].children == [4, 9]
            && h[4].children == [5] && h[5].children == [6, 12] && h[6].children == [7] && h[7].children == [8]
            && h[8].children == [] && h[10].children == [] && h[13].children == []
            && h[9].children == [11] && h[11].children == [10] && h[12].children == [13]
            && h[3].parent == Some(2) && h[4].parent == Some(3) && h[5].parent == Some(4) && h[12].parent == Some(5)
            && h[3].index == 0 && h[4].index == 0 && h[5].index == 0 && h[12].index == 1
  {
    assert [6] + [12] == [6, 12];
  }

  lemma FinalLeaves()
    requires WellFormed(Heaped(Final()))
    ensures var h := Heaped(Final());
            && 0 in h && 9 in h && 12 in h && Leaves(h, 0) == [13, 10] && Leaves(h, 9) == [10] && Leaves(h, 12) == [13]
  {
    hide ChildrenLinked, ParentsLinked, LeavesBare, Acyclic, Heaped, Final, Leaves;
    FinalTree();
    var h := Heaped(Final());
    EndLeaves(h, 8);
    EndLeaves(h, 10);
    EndLeaves(h, 13);
    SoleLeaves(h, 7, 8);
    SoleLeaves(h, 6, 7);
    SoleLeaves(h, 12, 13);
    TwoLeaves(h, 5, 6, 12);
    SoleLeaves(h, 4, 5);
    SoleLeaves(h, 11, 10);
    SoleLeaves(h, 9, 11);
    TwoLeaves(h, 3, 4, 9);
    SoleLeaves(h, 2, 3);
    SoleLeaves(h, 1, 2);
    SoleLeaves(h, 0, 1);
  }

  /** The first comment follows the second block inside the body. */
  lemma FinalBehind()
    requires WellFormed(Heaped(Final()))
    ensures var h := Heaped(Final()); 2 in h && 12 in h && Under(h, 12, 2) && LeavesAfter(h, 2, 12) != []
  {
    hide ChildrenLinked, ParentsLinked, LeavesBare, Acyclic, Heaped, Final, Leaves;
    FinalTree();
    FinalLeaves();
    var h := Heaped(Final());
    SelfIn(h, 2);
    ChildPath(h, 2, 3);
    ChildPath(h, 3, 4);
    ChildPath(h, 4, 5);
    ChildPath(h, 5, 12);
    FromStep(h, 3, 1);
    assert Under(h, 3, 2) && Under(h, 4, 2) && Under(h, 5, 2) && Under(h, 12, 2);
    assert LeavesAfter(h, 2, 4) == LeavesFrom(h, 3, 1) + LeavesAfter(h, 2, 3);
    assert LeavesAfter(h, 2, 5) == LeavesFrom(h, 4, 1) + LeavesAfter(h, 2, 4);
    assert LeavesAfter(h, 2, 12) == LeavesFrom(h, 5, 2) + LeavesAfter(h, 2, 5);
  }

  lemma ReachedSound(b: Builder, sets: TagSets)
    requires Reached(b, sets)
    ensures Sound(b, 0)
  {
    hide Allowed, Does, Sound;
    var actions :| Leads(Fresh(0), actions, b, 0, sets);
    var run :| Run(run, actions, 0, sets) && run[0] == Fresh(0) && run[|run| - 1] == b;
    RunSound(run, actions, 0, sets, |run| - 1, |run| - 1);
  }

  /** A reachable state in which a turn of the adoption agency changes the order of text: the comments
      13 and 10 become 10 and 13. The run is not mild: its first round meets the `u` element, still
      listed, at pass 4. */
  lemma TextIsReordered()
    ensures Reached(Before(), Sets) && Allowed(Before(), Sets, CloseFormatting(B)) && !Mild(Before(), Sets, CloseFormatting(B))
    ensures var st := After().st;
            && Reached(After(), Sets) && Ready(st, 0, 2, 4) && Turn(st, None, I, Sets) == Again(Round(st, 2, 4))
            && WellFormed(st.nodes) && 0 in st.nodes && WellFormed(Round(st, 2, 4).nodes) && 0 in Round(st, 2, 4).nodes
            && Leaves(st.nodes, 0) == [13, 10] && Leaves(Round(st, 2, 4).nodes, 0) == [10, 13]
  {
    hide WellFormed, Reached, Heaped, Leaves, Round, Turn, LeavesBefore, LeavesAfter, Valid, Nested, Final;
    var st := After().st;
    BeforeReached();
    BeforeLingers();
    AfterReached();
    ReachedSound(After(), Sets);
    assert Ready(st, 0, 2, 4) && WellFormed(st.nodes) by { AfterReady(); }
    FinalLeaves();
    FinalBehind();
    RoundLeavesInside(st, 0, 2, 4);
    LastTurn();
    var h := st.nodes;
    Swapped(LeavesBefore(h, 0, 2), LeavesBefore(h, 2, 12), LeavesAfter(h, 2, 12), LeavesAfter(h, 0, 2));
  }

  lemma BeforeLingers()
    ensures Allowed(Before(), Sets, CloseFormatting(B)) && !Mild(Before(), Sets, CloseFormatting(B))
  {
    hide Heaped, Nested, InScope, IndexOf, FindFormatting, FurthestBlock, HtmlTagIs, Turn;
    NotB();
    assert LeavesBehind(Before().st, B, Sets) by {
      FirstFound();
      assert Ref(Before().st.open[4]) in Before().st.formatting;
    }
  }

  lemma AfterReady()
    requires Valid(After().st, 0)
    ensures Ready(After().st, 0, 2, 4) && WellFormed(After().st.nodes)
  {}

  lemma LastTurn()
    ensures Turn(After().st, None, I, Sets) == Again(Round(After().st, 2, 4))
  {
    hide Round, InScope, IndexOf, FindFormatting, FurthestBlock;
    TurnAt(After().st, I, 0, 2, 4);
  }

  lemma Swapped(p: seq<NodeId>, x: seq<NodeId>, y: seq<NodeId>, s: seq<NodeId>)
    requires p + (x + [13] + y) + s == [13, 10] && y != []
    ensures p + (x + y + [13]) + s == [10, 13]
  {
    assert |p| == 0 && |x| == 0 && |s| == 0 && |y| == 1;
    assert (p + (x + [13] + y) + s)[1] == y[0];
  }
}
