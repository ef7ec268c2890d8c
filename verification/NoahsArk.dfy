/** The Noah's Ark clause through the adoption agency: the agency moves an entry of the list of active
    formatting elements, and still no segment comes to hold four identical ones. */
module NoahsArk {
  import opened Options
  import opened Sequences
  import opened Dom
  import opened OpenStack
  import opened Adoption
  import opened Agency
  import opened FormattingList
  import opened ListOrder

  // ---------------------------------------------------------------------------------------
  // A round, and what it does to the counts

  lemma VisitKeepsList(st0: State, w: Walk, doc: NodeId, i: nat, pass: nat, block: NodeId)
    requires WellFormed(st0.nodes) && TreeOk(st0, w, doc, i + 1, block) && ListInv(w.st)
    ensures ListInv(Visit(w, i, pass, block).st)
  {
    hide TreeOk, Wrap, AtMostThree, NamesOk, RemoveAt, KindOf, WellFormed;
    LastKnown(st0, w, doc, i, block);
    var h, list, n, c := w.st.nodes, w.st.formatting, w.st.open[i], w.st.nextId;
    var f := IndexOf(list, Ref(n));
    if f != -1 && pass > 3 {
      RemoveKeepsInv(w.st, f);
      SameListInv(w.st.(formatting := RemoveAt(list, f)), Visit(w, i, pass, block).st);
    } else if f == -1 {
      SameListInv(w.st, Visit(w, i, pass, block).st);
    } else {
      WrapKeeps(h, w.last, c, KindOf(h, n));
      CloneKeepsInv(w.st, Visit(w, i, pass, block).st, f, c);
    }
  }

  lemma SameListInv(st: State, st': State)
    requires ListInv(st) && st'.formatting == st.formatting && Keeps(st.nodes, st'.nodes)
    ensures ListInv(st')
  {
    hide AtMostThree, NamesOk;
    SameKindsKeepInv(st, st');
  }

  lemma CloneKeepsInv(st: State, st': State, f: nat, c: NodeId)
    requires ListInv(st) && f < |st.formatting| && st.formatting[f].Ref? && st'.formatting == st.formatting[f := Ref(c)]
    requires Keeps(st.nodes, st'.nodes) && c in st'.nodes && st'.nodes[c].kind == KindOf(st.nodes, st.formatting[f].id)
    ensures ListInv(st')
  {
    hide AtMostThree, NamesOk;
    SameKindsKeepInv(st, st');
  }

  lemma {:induction false} WalkKeepsList(st0: State, w: Walk, doc: NodeId, k: nat, i: nat, pass: nat, block: NodeId)
    requires WellFormed(st0.nodes) && TreeOk(st0, w, doc, i, block) && k < i && ListInv(w.st)
    ensures i <= |w.st.open| && ListInv(WalkDown(w, k, i, pass, block).st)
    decreases i
  {
    hide TreeOk, WellFormed, Visit, ListInv;
    TreeOkBounds(st0, w, doc, k, i, block);
    if i > k + 1 {
      VisitTreeOk(st0, w, doc, i - 1, pass, block);
      VisitKeepsList(st0, w, doc, i - 1, pass, block);
      WalkKeepsList(st0, Visit(w, i - 1, pass, block), doc, k, i - 1, pass + 1, block);
    }
  }

  lemma WalkedKeepsList(st: State, doc: NodeId, k: nat, m: nat)
    requires Ready(st, doc, k, m) && ListInv(st)
    ensures ListInv(Walked(st, k, m).st)
  {
    hide WellFormed, TreeOk, WalkDown, ListInv, Valid, BookmarkOk;
    WalkStarts(st, doc, k, m);
    WalkKeepsList(st, Walk(st, st.open[m], IndexOf(st.formatting, Ref(st.open[k])) + 1), doc, k, m, 1, st.open[m]);
  }

  /** The list without the formatting element, after the walk. */
  function Rest(st: State, k: nat, m: nat): seq<Entry>
    requires k < m < |st.open|
  {
    RemoveFirst(Walked(st, k, m).st.formatting, Ref(st.open[k]))
  }

  /** Where the new element goes. */
  function Place(st: State, k: nat, m: nat): int
    requires k < m < |st.open|
  {
    FinalBookmark(Walked(st, k, m), st.open[k])
  }

  /** A round keeps every segment free of four identical entries exactly when the segment that the new
      element goes to holds, without the old one, at most two like it. */
  lemma RoundKeepsThreeExactly(st: State, doc: NodeId, k: nat, m: nat)
    requires Ready(st, doc, k, m) && ListInv(st)
    ensures 0 <= Place(st, k, m) <= |Rest(st, k, m)|
    ensures var r, rest := Round(st, k, m), Rest(st, k, m);
            AtMostThree(r.nodes, r.formatting) <==>
            Count(r.nodes, rest[..SegmentEnd(rest, Place(st, k, m))], IdentityOf(KindOf(st.nodes, st.open[k]))) <= 2
  {
    hide WellFormed, Valid, Round, Walked, AtMostThree, ListNamesOk, Count, RemoveFirst, InsertAt, SegmentEnd, IdentityOf;
    var r, rest, w := Round(st, k, m), Rest(st, k, m), Walked(st, k, m);
    var q, b := RoundPieces(st, doc, k, m);
    RestKeepsThree(st, doc, k, m);
    RoundTree(st, doc, k, m);
    InsertKeepsExactly(r.nodes, rest, Place(st, k, m), Ref(w.st.nextId));
  }

  lemma RestKeepsThree(st: State, doc: NodeId, k: nat, m: nat)
    requires Ready(st, doc, k, m) && ListInv(st)
    ensures ListInv(State(Round(st, k, m).nodes, 0, [], Rest(st, k, m)))
    ensures ListInv(State(Round(st, k, m).nodes, 0, [], Walked(st, k, m).st.formatting))
  {
    hide WellFormed, Valid, Round, Walked, ListInv, Keeps;
    var w, r := Walked(st, k, m), Round(st, k, m);
    WalkedKeepsList(st, doc, k, m);
    RoundTree(st, doc, k, m);
    SameListInv(w.st, State(r.nodes, 0, [], w.st.formatting));
    var f := IndexOf(w.st.formatting, Ref(st.open[k]));
    if f != -1 { RemoveKeepsInv(State(r.nodes, 0, [], w.st.formatting), f); }
  }

  /** No marker lies between the formatting element's entry and the new one's. */
  ghost predicate SameSegment(list: seq<Entry>, f: int, place: int) {
    forall t {:trigger list[t]} :: 0 <= t < |list| && (f <= t < place || place <= t < f) ==> list[t].Ref?
  }

  /** Then the old element makes room for the new one. */
  lemma MakesRoom(h: Heap, list: seq<Entry>, f: nat, place: nat)
    requires AtMostThree(h, list) && f < |list| && list[f].Ref? && place < |list|
    requires SameSegment(RemoveAt(list, f), f, place)
    ensures var rest := RemoveAt(list, f);
            Count(h, rest[..SegmentEnd(rest, place)], IdentityOf(EntryKind(h, list[f]))) <= 2
  {
    hide Count, EntryKind, IdentityOf;
    var rest, own := RemoveAt(list, f), IdentityOf(EntryKind(h, list[f]));
    var e := SegmentEnd(rest, place);
    assert e < |rest| ==> rest[e].Marker?;
    var upto := list[..e + 1];
    assert RemoveAt(upto, f) == rest[..e];
    forall j | f <= j < |upto| ensures upto[j].Ref? { if j > f { assert upto[j] == rest[j - 1]; } }
    CountRemove(h, upto, f, own);
    assert upto[f] == list[f] && Count(h, upto, own) <= 3;
  }

  /** A round that moves the entry within its segment keeps the list invariant. */
  lemma RoundKeepsList(st: State, doc: NodeId, k: nat, m: nat)
    requires Ready(st, doc, k, m) && ListInv(st)
    requires SameSegment(Rest(st, k, m), IndexOf(Walked(st, k, m).st.formatting, Ref(st.open[k])), Place(st, k, m))
    ensures ListInv(Round(st, k, m))
  {
    hide WellFormed, Valid, Round, Walked, AtMostThree, Count, SegmentEnd, IdentityOf, Keeps, SameSegment;
    var w, r, fe := Walked(st, k, m), Round(st, k, m), st.open[k];
    var list := w.st.formatting;
    var f := IndexOf(list, Ref(fe));
    BookmarkHolds(st, doc, k, m);
    RoundKeepsThreeExactly(st, doc, k, m);
    RestKeepsThree(st, doc, k, m);
    MakesRoom(r.nodes, list, f, Place(st, k, m));
    OldKind(st, doc, k, m);
    RoundEntries(st, doc, k, m);
  }

  lemma OldKind(st: State, doc: NodeId, k: nat, m: nat)
    requires Ready(st, doc, k, m)
    ensures EntryKind(Round(st, k, m).nodes, Ref(st.open[k])) == KindOf(st.nodes, st.open[k])
  {
    hide WellFormed, Round, Ordered, AllAttached, ListOk;
    RoundTree(st, doc, k, m);
  }

  /** Every entry of the new list is one of the rest, or the new element. */
  lemma RoundEntries(st: State, doc: NodeId, k: nat, m: nat)
    requires Ready(st, doc, k, m) && ListInv(st)
    ensures var r := Round(st, k, m);
            && (forall i :: 0 <= i < |r.formatting| && r.formatting[i].Ref? ==> r.formatting[i].id in r.nodes)
            && ListNamesOk(r.nodes, r.formatting)
  {
    hide WellFormed, Valid, Round, Walked, AtMostThree, Keeps, NamesOk, KindOf, Ordered, Settled, Drawn, FinalBookmark;
    var r, w, rest := Round(st, k, m), Walked(st, k, m), Rest(st, k, m);
    var c, place := w.st.nextId, Place(st, k, m);
    var q, b := RoundPieces(st, doc, k, m);
    RestKeepsThree(st, doc, k, m);
    RoundTree(st, doc, k, m);
    NewNamesOk(st, doc, k, m);
    forall i | 0 <= i < |r.formatting|
      ensures (r.formatting[i].Ref? ==> r.formatting[i].id in r.nodes) && NamesOk(EntryKind(r.nodes, r.formatting[i]))
    {
      if i != place { assert r.formatting[i] == rest[if i < place then i else i - 1]; }
    }
  }

  lemma NewNamesOk(st: State, doc: NodeId, k: nat, m: nat)
    requires Ready(st, doc, k, m) && ListInv(st)
    ensures NamesOk(KindOf(st.nodes, st.open[k]))
    ensures EntryKind(Round(st, k, m).nodes, Ref(Walked(st, k, m).st.nextId)) == KindOf(st.nodes, st.open[k])
  {
    hide WellFormed, Valid, Round, Walked, AtMostThree, Keeps, NamesOk;
    RoundTree(st, doc, k, m);
    var t :| 0 <= t < |st.formatting| && st.formatting[t] == Ref(st.open[k]);
  }

  // ---------------------------------------------------------------------------------------
  // A round, and what it does to the order

  /** The walk, with the furthest block wherever it has moved to. */
  ghost predicate WalkBooked(w: Walk, k: nat, i: nat, block: NodeId) {
    block in w.st.open
    && Booked(w.st.open, w.st.formatting, w.bookmark, w.last == block, k, i, IndexOf(w.st.open, block))
  }

  lemma VisitBooked(st0: State, w: Walk, doc: NodeId, k: nat, x: nat, pass: nat, block: NodeId)
    requires WellFormed(st0.nodes) && TreeOk(st0, w, doc, x + 1, block) && ListOk(w.st.nodes, w.st.formatting)
    requires WalkBooked(w, k, x + 1, block) && k < x
    ensures WalkBooked(Visit(w, x, pass, block), k, x, block)
  {
    hide TreeOk, Wrap, WellFormed, KindOf, Booked, RemoveAt, IndexOf;
    LastKnown(st0, w, doc, x, block);
    NewToBoth(st0, w, doc, x, block);
    var open, list, b := w.st.open, w.st.formatting, IndexOf(w.st.open, block);
    var f := IndexOf(list, Ref(open[x]));
    BookedBounds(open, list, w.bookmark, w.last == block, k, x + 1, b);
    if f != -1 && pass > 3 {
      BookedDrop(open, list, w.bookmark, w.last == block, k, x, b, f);
    } else if f == -1 {
      BookedSkip(open, list, w.bookmark, w.last == block, k, x, b);
      LaterIndex(open, x, b);
    } else {
      BookedClone(open, list, w.bookmark, w.last == block, k, x, b, f, w.st.nextId);
      OtherIndex(open, x, b, w.st.nextId);
    }
  }

  lemma BookedBounds(open: seq<NodeId>, list: seq<Entry>, bookmark: int, first: bool, k: nat, i: nat, b: nat)
    requires Booked(open, list, bookmark, first, k, i, b)
    ensures Distinct(open) && k < i <= b < |open|
  {}

  /** The next identifier is neither on the stack nor in the list. */
  lemma NewToBoth(st0: State, w: Walk, doc: NodeId, x: nat, block: NodeId)
    requires WellFormed(st0.nodes) && TreeOk(st0, w, doc, x + 1, block) && ListOk(w.st.nodes, w.st.formatting)
    ensures w.st.nextId !in w.st.open && Ref(w.st.nextId) !in w.st.formatting && (block in w.st.open ==> block != w.st.nextId)
  {
    hide WellFormed, Ordered, Settled, Drawn, HeldFrom, Keeps;
  }

  lemma LaterIndex(open: seq<NodeId>, x: nat, b: nat)
    requires Distinct(open) && x < b < |open|
    ensures open[b] in RemoveAt(open, x) && IndexOf(RemoveAt(open, x), open[b]) == b - 1
  {
    var r := RemoveAt(open, x);
    assert r[b - 1] == open[b];
    assert open[b] !in r[..b - 1];
    FirstIndex(r, open[b], b - 1);
  }

  lemma OtherIndex(open: seq<NodeId>, x: nat, b: nat, c: NodeId)
    requires Distinct(open) && x < b < |open| && c != open[b]
    ensures open[b] in open[x := c] && IndexOf(open[x := c], open[b]) == b
  {
    var r := open[x := c];
    assert r[b] == open[b];
    assert open[b] !in r[..b];
    FirstIndex(r, open[b], b);
  }

  lemma {:induction false} WalkStaysBooked(st0: State, w: Walk, doc: NodeId, k: nat, i: nat, pass: nat, block: NodeId)
    requires WellFormed(st0.nodes) && TreeOk(st0, w, doc, i, block) && k < i && BookmarkOk(w, st0.open[k])
    requires WalkBooked(w, k, i, block)
    ensures i <= |w.st.open| && WalkBooked(WalkDown(w, k, i, pass, block), k, k + 1, block)
    decreases i
  {
    hide TreeOk, WellFormed, Visit, WalkBooked, ListOk;
    TreeOkBounds(st0, w, doc, k, i, block);
    if i > k + 1 {
      VisitTreeOk(st0, w, doc, i - 1, pass, block);
      VisitBookmarkOk(st0, w, doc, i - 1, pass, block, st0.open[k]);
      VisitBooked(st0, w, doc, k, i - 1, pass, block);
      WalkStaysBooked(st0, Visit(w, i - 1, pass, block), doc, k, i - 1, pass + 1, block);
    }
  }

  /** A round keeps stack and list in the same order, and moves the entry within its segment, if the
      furthest block is not listed and no marker follows the formatting element's entry. */
  lemma RoundKeepsOrder(st: State, doc: NodeId, k: nat, m: nat)
    requires Ready(st, doc, k, m) && Orderly(st.open, st.formatting) && Ref(st.open[m]) !in st.formatting
    requires forall j :: IndexOf(st.formatting, Ref(st.open[k])) < j < |st.formatting| ==> st.formatting[j].Ref?
    ensures Orderly(Round(st, k, m).open, Round(st, k, m).formatting)
    ensures SameSegment(Rest(st, k, m), IndexOf(Walked(st, k, m).st.formatting, Ref(st.open[k])), Place(st, k, m))
  {
    hide WellFormed, Round, TreeOk, BookmarkOk, Walked, Orderly, Booked, RemoveAt, InsertAt, Valid;
    var w, fe, block := Walked(st, k, m), st.open[k], st.open[m];
    WalkedBooked(st, doc, k, m);
    WalkedOk(st, doc, k, m);
    var q, b := WalkedOpen(st, doc, k, m);
    var q', b' := RoundPieces(st, doc, k, m);
    BookmarkHolds(st, doc, k, m);
    WalkedNew(st, doc, k, m);
    var open, list := w.st.open, w.st.formatting;
    var f := IndexOf(list, Ref(fe));
    BlockAt(open, list, w, k, block, b, b');
    BookedEnd(open, list, w.bookmark, w.last == block, k, b, f, w.st.nextId);
    TailSegment(list, f, w.bookmark - 1);
  }

  /** The new entry comes behind the last marker. */
  lemma NewEntryUnmarked(st: State, doc: NodeId, k: nat, m: nat)
    requires Ready(st, doc, k, m) && Orderly(st.open, st.formatting) && Ref(st.open[m]) !in st.formatting
    requires forall j :: IndexOf(st.formatting, Ref(st.open[k])) < j < |st.formatting| ==> st.formatting[j].Ref?
    ensures var r, place := Round(st, k, m).formatting, Place(st, k, m);
            0 <= place < |r| && Unmarked(r, place) && r[place] == Ref(Walked(st, k, m).st.nextId)
  {
    hide WellFormed, Round, TreeOk, BookmarkOk, Walked, Orderly, Booked, Valid;
    var w, fe, block := Walked(st, k, m), st.open[k], st.open[m];
    WalkedBooked(st, doc, k, m);
    WalkedOk(st, doc, k, m);
    var q, b := WalkedOpen(st, doc, k, m);
    var q', b' := RoundPieces(st, doc, k, m);
    BookmarkHolds(st, doc, k, m);
    WalkedNew(st, doc, k, m);
    var list := w.st.formatting;
    var f := IndexOf(list, Ref(fe));
    BlockAt(w.st.open, list, w, k, block, b, b');
    BookedEnd(w.st.open, list, w.bookmark, w.last == block, k, b, f, w.st.nextId);
    InsertedTail(list, f, w.bookmark - 1, Ref(w.st.nextId));
  }

  lemma InsertedTail(list: seq<Entry>, f: nat, place: nat, e: Entry)
    requires f <= place < |list| && e.Ref? && forall j :: f < j < |list| ==> list[j].Ref?
    ensures Unmarked(InsertAt(RemoveAt(list, f), place, e), place) && InsertAt(RemoveAt(list, f), place, e)[place] == e
  {
    var r := InsertAt(RemoveAt(list, f), place, e);
    forall j | place <= j < |r| ensures r[j].Ref? { assert j > place ==> r[j] == list[j]; }
  }

  lemma BlockAt(open: seq<NodeId>, list: seq<Entry>, w: Walk, k: nat, block: NodeId, b: nat, b': nat)
    requires open == w.st.open && list == w.st.formatting && WalkBooked(w, k, k + 1, block)
    requires b < |open| && open[b] == block && b' < |open| && open[b'] == block
    ensures b == b' == IndexOf(open, block) && Booked(open, list, w.bookmark, w.last == block, k, k + 1, b)
  {
    DistinctIndex(open, b);
    DistinctIndex(open, b');
  }

  lemma TailSegment(list: seq<Entry>, f: nat, place: int)
    requires f < |list| && f <= place && forall j :: f < j < |list| ==> list[j].Ref?
    ensures SameSegment(RemoveAt(list, f), f, place)
  {
    var r := RemoveAt(list, f);
    forall t | 0 <= t < |r| && f <= t < place ensures r[t].Ref? { assert r[t] == list[t + 1]; }
  }

  lemma WalkedBooked(st: State, doc: NodeId, k: nat, m: nat)
    requires Ready(st, doc, k, m) && Orderly(st.open, st.formatting) && Ref(st.open[m]) !in st.formatting
    requires forall j :: IndexOf(st.formatting, Ref(st.open[k])) < j < |st.formatting| ==> st.formatting[j].Ref?
    ensures WalkBooked(Walked(st, k, m), k, k + 1, st.open[m])
  {
    hide WellFormed, TreeOk, WalkDown, Valid, BookmarkOk, Booked;
    var f := IndexOf(st.formatting, Ref(st.open[k]));
    WalkStarts(st, doc, k, m);
    BookedStart(st.open, st.formatting, k, m, f);
    DistinctIndex(st.open, m);
    WalkStaysBooked(st, Walk(st, st.open[m], f + 1), doc, k, m, 1, st.open[m]);
  }

  lemma WalkedNew(st: State, doc: NodeId, k: nat, m: nat)
    requires Ready(st, doc, k, m)
    ensures var w := Walked(st, k, m); w.st.nextId !in w.st.open && Ref(w.st.nextId) !in w.st.formatting
    ensures var w := Walked(st, k, m); 0 <= w.bookmark <= |w.st.formatting|
  {
    hide WellFormed, Walked, Valid, Ordered, Settled, Drawn, HeldFrom, Keeps;
    WalkedOk(st, doc, k, m);
  }

  // ---------------------------------------------------------------------------------------
  // The whole algorithm

  /** Special elements are not listed. */
  ghost predicate NoSpecial(h: Heap, list: seq<Entry>, special: set<QName>) {
    forall i :: 0 <= i < |list| && list[i].Ref? ==> !NameIn(h, list[i].id, special)
  }

  /** What every step of the parser keeps about the list: it names each element once, in stack order, none
      of them special, and no segment holds four alike. */
  ghost predicate Tidy(st: State, special: set<QName>) {
    ListInv(st) && Orderly(st.open, st.formatting) && NoSpecial(st.nodes, st.formatting, special)
  }

  lemma RoundTidy(st: State, doc: NodeId, k: nat, m: nat, special: set<QName>)
    requires Ready(st, doc, k, m) && Tidy(st, special) && NameIn(st.nodes, st.open[m], special)
    requires forall j :: IndexOf(st.formatting, Ref(st.open[k])) < j < |st.formatting| ==> st.formatting[j].Ref?
    ensures Tidy(Round(st, k, m), special)
  {
    hide WellFormed, Valid, Round, Walked, ListInv, Orderly, SameSegment, Place, Rest, NameIn;
    RoundKeepsOrder(st, doc, k, m);
    RoundKeepsList(st, doc, k, m);
    RoundNoSpecial(st, doc, k, m, special);
  }

  /** The entries of the new list are clones of old entries. */
  lemma RoundNoSpecial(st: State, doc: NodeId, k: nat, m: nat, special: set<QName>)
    requires Ready(st, doc, k, m) && NoSpecial(st.nodes, st.formatting, special)
    ensures NoSpecial(Round(st, k, m).nodes, Round(st, k, m).formatting, special)
  {
    hide WellFormed, Valid, Round, Walked, Keeps, NoSpecial, RemoveFirst, InsertAt, ListOk, NameIn, KindOf;
    var r, w := Round(st, k, m), Walked(st, k, m);
    WalkedNoSpecial(st, doc, k, m, special);
    var q, b := RoundPieces(st, doc, k, m);
    RoundTree(st, doc, k, m);
    WalkedListed(st, doc, k, m);
    SpecialKept(w.st.nodes, r.nodes, w.st.formatting, special);
    SpecialWithout(r.nodes, w.st.formatting, Ref(st.open[k]), special);
    CloneNotSpecial(st, doc, k, m, r.nodes, w.st.nextId, special);
    SpecialInsert(r.nodes, Rest(st, k, m), Place(st, k, m), w.st.nextId, special);
  }

  lemma CloneNotSpecial(st: State, doc: NodeId, k: nat, m: nat, h: Heap, c: NodeId, special: set<QName>)
    requires Ready(st, doc, k, m) && NoSpecial(st.nodes, st.formatting, special)
    requires c in h && h[c].kind == KindOf(st.nodes, st.open[k])
    ensures !NameIn(h, c, special)
  {
    hide WellFormed, Ordered, AllAttached, ListOk;
    var t :| 0 <= t < |st.formatting| && st.formatting[t] == Ref(st.open[k]);
    assert !NameIn(st.nodes, st.open[k], special);
  }

  lemma SpecialInsert(h: Heap, list: seq<Entry>, place: nat, c: NodeId, special: set<QName>)
    requires NoSpecial(h, list, special) && place <= |list| && !NameIn(h, c, special)
    ensures NoSpecial(h, InsertAt(list, place, Ref(c)), special)
  {
    hide NameIn;
    var r := InsertAt(list, place, Ref(c));
    forall i | 0 <= i < |r| && r[i].Ref? ensures !NameIn(h, r[i].id, special) {
      if i != place { assert r[i] == list[if i < place then i else i - 1]; }
    }
  }

  lemma WalkedListed(st: State, doc: NodeId, k: nat, m: nat)
    requires Ready(st, doc, k, m)
    ensures ListOk(Walked(st, k, m).st.nodes, Walked(st, k, m).st.formatting)
  {
    hide WellFormed, Walked, Valid, TreeOk;
    WalkedOk(st, doc, k, m);
  }

  lemma SpecialKept(h: Heap, h': Heap, list: seq<Entry>, special: set<QName>)
    requires NoSpecial(h, list, special) && ListOk(h, list) && Keeps(h, h')
    ensures NoSpecial(h', list, special)
  {}

  lemma SpecialWithout(h: Heap, list: seq<Entry>, e: Entry, special: set<QName>)
    requires NoSpecial(h, list, special)
    ensures NoSpecial(h, RemoveFirst(list, e), special)
  {
    var f := IndexOf(list, e);
    if f != -1 {
      var r := RemoveAt(list, f);
      assert forall i :: 0 <= i < |r| ==> r[i] == list[if i < f then i else i + 1];
    }
  }

  lemma VisitNoSpecial(st0: State, w: Walk, doc: NodeId, i: nat, pass: nat, block: NodeId, special: set<QName>)
    requires WellFormed(st0.nodes) && TreeOk(st0, w, doc, i + 1, block)
    requires ListOk(w.st.nodes, w.st.formatting) && NoSpecial(w.st.nodes, w.st.formatting, special)
    ensures NoSpecial(Visit(w, i, pass, block).st.nodes, Visit(w, i, pass, block).st.formatting, special)
  {
    hide WellFormed, TreeOk, Wrap, IndexOf;
    LastKnown(st0, w, doc, i, block);
    var h, list, n, c := w.st.nodes, w.st.formatting, w.st.open[i], w.st.nextId;
    var f := IndexOf(list, Ref(n));
    if f != -1 && pass > 3 {
      var r := RemoveAt(list, f);
      assert forall j :: 0 <= j < |r| ==> r[j] == list[if j < f then j else j + 1];
    } else if f != -1 {
      WrapKeeps(h, w.last, c, KindOf(h, n));
      var h' := Wrap(h, w.last, c, KindOf(h, n));
      SpecialKept(h, h', list, special);
      assert !NameIn(h, n, special);
    }
  }

  lemma {:induction false} WalkNoSpecial(st0: State, w: Walk, doc: NodeId, k: nat, i: nat, pass: nat, block: NodeId, special: set<QName>)
    requires WellFormed(st0.nodes) && TreeOk(st0, w, doc, i, block) && k < i && BookmarkOk(w, st0.open[k])
    requires NoSpecial(w.st.nodes, w.st.formatting, special)
    ensures i <= |w.st.open|
    ensures var r := WalkDown(w, k, i, pass, block).st; NoSpecial(r.nodes, r.formatting, special)
    decreases i
  {
    hide TreeOk, WellFormed, Visit, NoSpecial, ListOk;
    TreeOkBounds(st0, w, doc, k, i, block);
    if i > k + 1 {
      VisitTreeOk(st0, w, doc, i - 1, pass, block);
      VisitBookmarkOk(st0, w, doc, i - 1, pass, block, st0.open[k]);
      VisitNoSpecial(st0, w, doc, i - 1, pass, block, special);
      WalkNoSpecial(st0, Visit(w, i - 1, pass, block), doc, k, i - 1, pass + 1, block, special);
    }
  }

  lemma WalkedNoSpecial(st: State, doc: NodeId, k: nat, m: nat, special: set<QName>)
    requires Ready(st, doc, k, m) && NoSpecial(st.nodes, st.formatting, special)
    ensures NoSpecial(Walked(st, k, m).st.nodes, Walked(st, k, m).st.formatting, special)
  {
    hide WellFormed, TreeOk, WalkDown, Valid, BookmarkOk, NoSpecial;
    WalkStarts(st, doc, k, m);
    WalkNoSpecial(st, Walk(st, st.open[m], IndexOf(st.formatting, Ref(st.open[k])) + 1), doc, k, m, 1, st.open[m], special);
  }

  /** Tree building that keeps the list, and at most pops. */
  lemma TidyPopped(st: State, st': State, n: nat, special: set<QName>)
    requires Tidy(st, special) && Keeps(st.nodes, st'.nodes) && st'.formatting == st.formatting
    requires n <= |st.open| && st'.open == st.open[..n]
    ensures Tidy(st', special)
  {
    hide Orderly, AtMostThree, NamesOk, ListNamesOk;
    SameListInv(st, st');
    OrderlyPrefix(st.open, st.formatting, n);
    forall i | 0 <= i < |st.formatting| && st.formatting[i].Ref? ensures !NameIn(st'.nodes, st.formatting[i].id, special) {
      assert st.formatting[i].id in st.nodes && !NameIn(st.nodes, st.formatting[i].id, special);
    }
  }

  lemma TidyUnlisted(st: State, e: Entry, special: set<QName>)
    requires Tidy(st, special) && e.Ref?
    ensures Tidy(st.(formatting := RemoveFirst(st.formatting, e)), special)
  {
    hide Orderly, ListInv, NoSpecial, RemoveAt;
    var f := IndexOf(st.formatting, e);
    SpecialWithout(st.nodes, st.formatting, e, special);
    if f != -1 {
      OrderlyUnlisted(st.open, st.formatting, f);
      RemoveKeepsInv(st, f);
    }
  }

  lemma TurnTidy(st: State, pending: Option<Kind>, doc: NodeId, tag: nat, sets: TagSets)
    requires Callable(st, pending, doc, tag, sets) && Tidy(st, sets.special)
    ensures Tidy(Turn(st, pending, tag, sets).st, sets.special)
  {
    hide Valid, Round, PopTo, InScope, RemoveFirst, Tidy, NameIn;
    TurnPositions(st, pending, doc, tag, sets);
    var t := FindFormatting(st.nodes, st.formatting, tag);
    if t != -1 {
      var fe := st.formatting[t].id;
      var k := IndexOf(st.open, fe);
      if k == -1 {
        TidyUnlisted(st, Ref(fe), sets.special);
      } else {
        var m := FurthestBlock(st.nodes, st.open, k, sets.special);
        if m == -1 {
          PopTidy(st, pending, doc, k, sets.special);
          TidyUnlisted(PopTo(st, pending, k), Ref(fe), sets.special);
        } else {
          FoundLast(st, t, sets.special);
          RoundTidy(st, doc, k, m, sets.special);
        }
      }
    }
  }

  lemma PopTidy(st: State, pending: Option<Kind>, doc: NodeId, k: nat, special: set<QName>)
    requires Valid(st, doc) && (pending.Some? ==> !pending.value.HasChildren()) && k < |st.open| && Tidy(st, special)
    ensures Tidy(PopTo(st, pending, k), special)
  {
    hide Valid, Tidy, Flush;
    PopToValid(st, pending, k, doc);
    TidyPopped(st, PopTo(st, pending, k), k, special);
  }

  lemma FoundLast(st: State, t: nat, special: set<QName>)
    requires Tidy(st, special) && t < |st.formatting| && st.formatting[t].Ref?
    ensures IndexOf(st.formatting, st.formatting[t]) == t && st.formatting[t] in st.formatting
  {
    hide ListInv, NoSpecial;
    FirstIndex(st.formatting, st.formatting[t], t);
  }

  lemma {:induction false} TurnsTidy(st: State, pending: Option<Kind>, doc: NodeId, tag: nat, sets: TagSets, n: nat)
    requires Callable(st, pending, doc, tag, sets) && Tidy(st, sets.special)
    ensures Tidy(Turns(st, pending, tag, sets, n), sets.special)
    decreases n
  {
    hide Valid, Turn, Conserves, Tidy, Callable;
    if n > 0 {
      TurnTidy(st, pending, doc, tag, sets);
      TurnKeeps(st, pending, doc, tag, sets);
      var o := Turn(st, pending, tag, sets);
      if o.Again? { TurnsTidy(o.st, pending, doc, tag, sets, n - 1); }
    }
  }

  /** The adoption agency keeps the list tidy: each element once, in stack order, and no segment with
      four alike. */
  lemma AdoptTidy(st: State, pending: Option<Kind>, doc: NodeId, tag: nat, sets: TagSets)
    requires Callable(st, pending, doc, tag, sets) && Tidy(st, sets.special)
    ensures Tidy(Adopt(st, pending, tag, sets), sets.special)
  {
    hide Valid, Turns, Tidy, PopTo;
    if PopsAtOnce(st, tag) { PopTidy(st, pending, doc, |st.open| - 1, sets.special); }
    else { TurnsTidy(st, pending, doc, tag, sets, 8); }
  }
}
