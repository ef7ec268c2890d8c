/** What a round of the adoption agency leaves on the stack and in the list, entry by entry. */
module RoundExactly {
  import opened Sequences
  import opened Dom
  import opened DomOps
  import opened OpenStack
  import opened Adoption
  import opened ListOrder
  import opened Spine

  predicate Listed(st: State, i: nat)
    requires i < |st.open|
  {
    Ref(st.open[i]) in st.formatting
  }

  /** Of the elements the walk from `m` visits, the listed ones of its first three passes are cloned. */
  predicate Cloned(st: State, i: nat, m: nat)
    requires i < |st.open|
  {
    m - 3 <= i && Listed(st, i)
  }

  /** How many from `i` up are. */
  function CloneCount(st: State, i: nat, m: nat): nat
    requires i <= m <= |st.open|
    decreases m - i
  {
    if i == m then 0 else CloneCount(st, i + 1, m) + if Cloned(st, i, m) then 1 else 0
  }

  /** The clones are numbered from the furthest block down. */
  function CloneId(st: State, i: nat, m: nat): NodeId
    requires i < m <= |st.open|
  {
    st.nextId + CloneCount(st, i + 1, m)
  }

  /** What stands on the stack for the elements from `i` up to the block: clones; the listed ones of later
      passes themselves; nothing for the others. */
  function Middle(st: State, i: nat, m: nat): seq<NodeId>
    requires i <= m <= |st.open|
    decreases m - i
  {
    if i == m then []
    else (if Cloned(st, i, m) then [CloneId(st, i, m)] else if Listed(st, i) then [st.open[i]] else []) + Middle(st, i + 1, m)
  }

  /** What stands in the list for an entry: a clone for a cloned element, nothing for one visited later. */
  function Relist(st: State, e: Entry, i: nat, m: nat): seq<Entry>
    requires i <= m <= |st.open|
  {
    if e.Marker? then [e]
    else
      var j := IndexOf(st.open, e.id);
      if i <= j < m then if Cloned(st, j, m) then [Ref(CloneId(st, j, m))] else [] else [e]
  }

  function RelistAll(st: State, list: seq<Entry>, i: nat, m: nat): seq<Entry>
    requires i <= m <= |st.open|
  {
    if list == [] then [] else RelistAll(st, list[..|list| - 1], i, m) + Relist(st, list[|list| - 1], i, m)
  }

  // ---------------------------------------------------------------------------------------
  // The list

  /** Visiting one more element edits its entry. */
  ghost predicate Edited(st: State, a: seq<Entry>, b: seq<Entry>, i: nat, m: nat)
    requires i < m <= |st.open|
  {
    var f := IndexOf(a, Ref(st.open[i]));
    if f == -1 then b == a
    else if Cloned(st, i, m) then b == a[f := Ref(CloneId(st, i, m))]
    else b == RemoveAt(a, f)
  }

  lemma RelistOther(st: State, e: Entry, i: nat, m: nat)
    requires i < m <= |st.open| && Distinct(st.open) && e != Ref(st.open[i]) && st.open[i] < st.nextId
    ensures Relist(st, e, i, m) == Relist(st, e, i + 1, m) && Ref(st.open[i]) !in Relist(st, e, i, m)
  {
    hide Cloned;
  }

  lemma RelistOwn(st: State, i: nat, m: nat)
    requires i < m <= |st.open| && Distinct(st.open)
    ensures Relist(st, Ref(st.open[i]), i + 1, m) == [Ref(st.open[i])]
    ensures Relist(st, Ref(st.open[i]), i, m) == if Cloned(st, i, m) then [Ref(CloneId(st, i, m))] else []
  {
    hide Cloned;
    DistinctIndex(st.open, i);
  }

  lemma {:induction false} RelistStep(st: State, list: seq<Entry>, i: nat, m: nat)
    requires i < m <= |st.open| && Distinct(st.open) && Unique(list) && st.open[i] < st.nextId
    ensures Edited(st, RelistAll(st, list, i + 1, m), RelistAll(st, list, i, m), i, m)
    ensures Ref(st.open[i]) in RelistAll(st, list, i + 1, m) <==> Ref(st.open[i]) in list
    ensures Ref(st.open[i]) !in list ==> RelistAll(st, list, i, m) == RelistAll(st, list, i + 1, m)
    decreases |list|
  {
    hide Cloned, Relist, CloneId, IndexOf, RemoveAt;
    if list != [] {
      var n := |list| - 1;
      var l, e, x := list[..n], list[n], Ref(st.open[i]);
      assert list == l + [e];
      RelistStep(st, l, i, m);
      var a, b := RelistAll(st, l, i + 1, m), RelistAll(st, l, i, m);
      if e == x {
        RelistOwn(st, i, m);
        assert x !in l by { OnceOnly(list, n); }
        EditLast(a, x, Ref(CloneId(st, i, m)));
      } else {
        RelistOther(st, e, i, m);
        EditEarlier(st, a, b, Relist(st, e, i, m), i, m);
      }
    }
  }

  lemma OnceOnly(list: seq<Entry>, n: nat)
    requires Unique(list) && n < |list| && list[n].Ref?
    ensures list[n] !in list[..n]
  {}

  lemma EditLast(a: seq<Entry>, x: Entry, y: Entry)
    requires x !in a
    ensures IndexOf(a + [x], x) == |a| && (a + [x])[|a| := y] == a + [y] && RemoveAt(a + [x], |a|) == a + []
    ensures x in a + [x]
  {
    assert (a + [x])[..|a|] == a;
    FirstIndex(a + [x], x, |a|);
  }

  lemma EditEarlier(st: State, a: seq<Entry>, b: seq<Entry>, e: seq<Entry>, i: nat, m: nat)
    requires i < m <= |st.open| && Edited(st, a, b, i, m) && Ref(st.open[i]) !in e
    ensures Edited(st, a + e, b + e, i, m) && (Ref(st.open[i]) in a + e <==> Ref(st.open[i]) in a)
  {
    hide Cloned, CloneId;
    var x := Ref(st.open[i]);
    var f := IndexOf(a, x);
    if f != -1 {
      assert (a + e)[..f] == a[..f];
      FirstIndex(a + e, x, f);
      assert (a + e)[f := Ref(CloneId(st, i, m))] == a[f := Ref(CloneId(st, i, m))] + e;
      assert RemoveAt(a + e, f) == RemoveAt(a, f) + e;
    }
  }

  // ---------------------------------------------------------------------------------------
  // The walk

  /** While step 13 has still to visit the positions below `i`. */
  ghost predicate Exact(st: State, w: Walk, i: nat, m: nat) {
    && i <= m < |st.open|
    && w.st.open == st.open[..i] + Middle(st, i, m) + st.open[m..]
    && w.st.nextId == st.nextId + CloneCount(st, i, m)
    && w.st.formatting == RelistAll(st, st.formatting, i, m)
    && forall j :: i <= j < m && Cloned(st, j, m) ==> IsClone(st, w.st.nodes, j, m)
  }

  /** The clone of the element at `j` has its tag, namespace and attributes. */
  ghost predicate IsClone(st: State, h: Heap, j: nat, m: nat)
    requires j < m <= |st.open|
  {
    CloneId(st, j, m) in h && st.open[j] in st.nodes && h[CloneId(st, j, m)].kind == st.nodes[st.open[j]].kind
  }

  /** The bookmark stands behind the entry of the first clone or, before there is one, of the formatting
      element. */
  ghost predicate Marks(st: State, w: Walk, fe: NodeId, block: NodeId) {
    && 0 < w.bookmark <= |w.st.formatting| && st.nextId <= w.st.nextId && block < st.nextId
    && (w.st.nextId == st.nextId ==> IndexOf(w.st.formatting, Ref(fe)) == w.bookmark - 1)
    && (w.st.nextId != st.nextId ==> w.st.formatting[w.bookmark - 1] == Ref(st.nextId))
    && (w.last == block <==> w.st.nextId == st.nextId)
  }

  lemma OpenSplit(open: seq<NodeId>, mid: seq<NodeId>, i: nat, m: nat)
    requires i < m <= |open|
    ensures var s := open[..i + 1] + mid + open[m..];
            && s[i] == open[i] && RemoveAt(s, i) == open[..i] + mid + open[m..]
            && (forall c :: s[i := c] == open[..i] + ([c] + mid) + open[m..])
            && s == open[..i] + ([open[i]] + mid) + open[m..]
  {
    var s := open[..i + 1] + mid + open[m..];
    assert open[..i + 1] == open[..i] + [open[i]];
    forall c ensures s[i := c] == open[..i] + ([c] + mid) + open[m..] { }
  }

  /** What the walk starts from. */
  ghost predicate Begins(st: State, m: nat) {
    && Distinct(st.open) && Unique(st.formatting) && m < |st.open| && AllTags(st.nodes, st.open)
    && forall i :: 0 <= i < |st.open| ==> st.open[i] < st.nextId
  }

  lemma VisitExact(st: State, w: Walk, doc: NodeId, i: nat, m: nat, block: NodeId)
    requires WellFormed(st.nodes) && TreeOk(st, w, doc, i + 1, block) && Begins(st, m) && i < m && Exact(st, w, i + 1, m)
    ensures Exact(st, Visit(w, i, m - i, block), i, m)
  {
    hide WellFormed, TreeOk, Visit, Exact;
    if Cloned(st, i, m) { VisitClones(st, w, doc, i, m, block); } else { VisitDrops(st, w, doc, i, m, block); }
  }

  lemma VisitDrops(st: State, w: Walk, doc: NodeId, i: nat, m: nat, block: NodeId)
    requires WellFormed(st.nodes) && TreeOk(st, w, doc, i + 1, block) && Begins(st, m) && i < m && Exact(st, w, i + 1, m)
    requires !Cloned(st, i, m)
    ensures Exact(st, Visit(w, i, m - i, block), i, m)
  {
    hide WellFormed, TreeOk, Wrap, RelistAll, IndexOf, RemoveAt, KindOf, Unique, Distinct, AllTags, Middle, CloneCount, IsClone;
    OpenSplit(st.open, Middle(st, i + 1, m), i, m);
    RelistStep(st, st.formatting, i, m);
    MiddleStep(st, i, m);
    assert w.st.open[i] == st.open[i];
    hide Cloned;
    OldClones(st, w, i, m);
  }

  lemma MiddleStep(st: State, i: nat, m: nat)
    requires i < m <= |st.open| && !Cloned(st, i, m)
    ensures CloneCount(st, i, m) == CloneCount(st, i + 1, m)
    ensures Middle(st, i, m) == (if Listed(st, i) then [st.open[i]] else []) + Middle(st, i + 1, m)
    ensures Listed(st, i) ==> m - i > 3
  {}

  /** An element without a clone adds none to those there are. */
  lemma OldClones(st: State, w: Walk, i: nat, m: nat)
    requires i < m < |st.open| && !Cloned(st, i, m)
    requires forall j :: i + 1 <= j < m && Cloned(st, j, m) ==> IsClone(st, w.st.nodes, j, m)
    ensures forall j :: i <= j < m && Cloned(st, j, m) ==> IsClone(st, w.st.nodes, j, m)
  {
    hide Cloned, IsClone;
  }

  lemma VisitClones(st: State, w: Walk, doc: NodeId, i: nat, m: nat, block: NodeId)
    requires WellFormed(st.nodes) && TreeOk(st, w, doc, i + 1, block) && Begins(st, m) && i < m && Exact(st, w, i + 1, m)
    requires Cloned(st, i, m)
    ensures Exact(st, Visit(w, i, m - i, block), i, m)
  {
    hide WellFormed, TreeOk, Wrap, RelistAll, Relist, IndexOf, RemoveAt, KindOf, Unique, Distinct, HeldFrom, IsClone;
    var open, c := w.st.open, w.st.nextId;
    OpenSplit(st.open, Middle(st, i + 1, m), i, m);
    RelistStep(st, st.formatting, i, m);
    LastKnown(st, w, doc, i, block);
    assert open[i] == st.open[i];
    var kind := KindOf(w.st.nodes, open[i]);
    WrapKeeps(w.st.nodes, w.last, c, kind);
    var h' := Wrap(w.st.nodes, w.last, c, kind);
    forall j | i <= j < m && Cloned(st, j, m) ensures IsClone(st, h', j, m) {
      if j == i { NewClone(st, w, doc, i, m, block, h'); } else { CloneStays(st, w.st.nodes, h', j, m); }
    }
  }

  lemma NewClone(st: State, w: Walk, doc: NodeId, i: nat, m: nat, block: NodeId, h: Heap)
    requires WellFormed(st.nodes) && TreeOk(st, w, doc, i + 1, block) && Begins(st, m) && i < m
    requires w.st.nextId == CloneId(st, i, m) && w.st.open[i] == st.open[i]
    requires w.st.nextId in h && h[w.st.nextId].kind == KindOf(w.st.nodes, w.st.open[i])
    ensures IsClone(st, h, i, m)
  {
    hide WellFormed, Ordered, Settled, HeldFrom, Drawn, CloneId;
  }

  lemma CloneStays(st: State, h: Heap, h': Heap, j: nat, m: nat)
    requires j < m <= |st.open| && IsClone(st, h, j, m) && Keeps(h, h')
    ensures IsClone(st, h', j, m)
  {
    hide CloneId;
  }

  lemma VisitMarks(st: State, w: Walk, doc: NodeId, i: nat, pass: nat, block: NodeId, fe: NodeId)
    requires WellFormed(st.nodes) && TreeOk(st, w, doc, i + 1, block) && Marks(st, w, fe, block)
    requires w.st.open[i] != fe && w.st.open[i] < st.nextId
    ensures Marks(st, Visit(w, i, pass, block), fe, block)
  {
    hide WellFormed, TreeOk, Wrap, KindOf, RemoveAt, IndexOf;
    LastKnown(st, w, doc, i, block);
    var list, f := w.st.formatting, IndexOf(w.st.formatting, Ref(w.st.open[i]));
    if pass > 3 && f != -1 {
      RemovedLength(list, f);
      BehindStays(list, f, w.bookmark - 1);
      if w.st.nextId == st.nextId { FirstStays(list, f, Ref(fe)); }
    }
  }

  lemma FirstStays<T>(s: seq<T>, f: nat, x: T)
    requires f < |s| && s[f] != x && x in s
    ensures IndexOf(RemoveAt(s, f), x) == IndexOf(s, x) - if f < IndexOf(s, x) then 1 else 0
  {
    hide IndexOf;
    var i := IndexOf(s, x);
    var j := if f < i then i - 1 else i;
    var r := RemoveAt(s, f);
    forall q | 0 <= q < j ensures r[..j][q] != x {
      var o := if q < f then q else q + 1;
      assert r[q] == s[o] == s[..i][o];
    }
    FirstIndex(r, x, j);
  }

  lemma {:induction false} WalkExact(st: State, w: Walk, doc: NodeId, k: nat, i: nat, m: nat, block: NodeId)
    requires WellFormed(st.nodes) && TreeOk(st, w, doc, i, block) && Begins(st, m) && k < i && Exact(st, w, i, m)
    requires Marks(st, w, st.open[k], block)
    ensures i <= |w.st.open|
    ensures var r := WalkDown(w, k, i, m - i + 1, block); Exact(st, r, k + 1, m) && Marks(st, r, st.open[k], block)
    decreases i
  {
    hide TreeOk, WellFormed, Visit, Exact, Marks;
    assert i <= m by { ExactBound(st, w, i, m); }
    TreeOkBounds(st, w, doc, k, i, block);
    if i > k + 1 {
      VisitTreeOk(st, w, doc, i - 1, m - (i - 1), block);
      VisitExact(st, w, doc, i - 1, m, block);
      assert w.st.open[i - 1] == st.open[i - 1] by { OriginalKnown(st, w, doc, i - 1, block, i - 1); }
      VisitMarks(st, w, doc, i - 1, m - (i - 1), block, st.open[k]);
      WalkExact(st, Visit(w, i - 1, m - (i - 1), block), doc, k, i - 1, m, block);
    }
  }

  lemma ExactBound(st: State, w: Walk, i: nat, m: nat)
    requires Exact(st, w, i, m)
    ensures i <= m
  {}

  lemma ReadyBegins(st: State, doc: NodeId, k: nat, m: nat)
    requires Ready(st, doc, k, m) && Unique(st.formatting)
    ensures WellFormed(st.nodes) && Begins(st, m)
  {
    hide WellFormed, Settled, ListOk, AllAttached;
    OrderedDistinct(st.nodes, st.open);
  }

  lemma WalkedExact(st: State, doc: NodeId, k: nat, m: nat)
    requires Ready(st, doc, k, m) && Unique(st.formatting)
    ensures Exact(st, Walked(st, k, m), k + 1, m) && Marks(st, Walked(st, k, m), st.open[k], st.open[m])
  {
    hide TreeOk, BookmarkOk, WalkDown, WellFormed, Begins, Unique, Valid, Exact, Marks;
    ReadyBegins(st, doc, k, m);
    WalkStarts(st, doc, k, m);
    StartExact(st, k, m);
    WalkExact(st, Walk(st, st.open[m], IndexOf(st.formatting, Ref(st.open[k])) + 1), doc, k, m, m, st.open[m]);
  }

  lemma StartExact(st: State, k: nat, m: nat)
    requires Begins(st, m) && k < m && Ref(st.open[k]) in st.formatting
    ensures var w := Walk(st, st.open[m], IndexOf(st.formatting, Ref(st.open[k])) + 1);
            Exact(st, w, m, m) && Marks(st, w, st.open[k], st.open[m])
  {
    hide Distinct, Unique, AllTags, RelistAll;
    assert st.open[..m] + [] + st.open[m..] == st.open;
    RelistNothing(st, st.formatting, m);
  }

  lemma {:induction false} RelistNothing(st: State, list: seq<Entry>, m: nat)
    requires m <= |st.open|
    ensures RelistAll(st, list, m, m) == list
  {
    if list != [] {
      RelistNothing(st, list[..|list| - 1], m);
      assert list == list[..|list| - 1] + [list[|list| - 1]];
    }
  }

  // ---------------------------------------------------------------------------------------
  // The round

  /** Where the new entry `c` goes among the others: behind that of the first clone or, if there is none,
      where the formatting element's was. */
  ghost predicate Placed(st: State, list: seq<Entry>, fe: NodeId, c: NodeId, r: seq<Entry>) {
    var f := IndexOf(list, Ref(fe));
    f != -1 &&
    if c == st.nextId then r == list[f := Ref(c)]
    else
      var rest := RemoveAt(list, f);
      exists p :: 0 < p <= |rest| && rest[p - 1] == Ref(st.nextId) && r == rest[..p] + [Ref(c)] + rest[p..]
  }

  /** The result `r` of a round with formatting element at `k` and furthest block at `m`: on the stack, clones
      for the listed elements of the first three passes, the listed ones of later passes as they were, and the
      new element `c` behind the block; in the list, clones in place of those entries, none for the listed ones
      of later passes, and `c` behind the first clone or where the formatting element was; every clone like its
      original. */
  ghost predicate Outcome(st: State, k: nat, m: nat, r: State)
    requires k < m < |st.open|
  {
    var c := st.nextId + CloneCount(st, k + 1, m);
    && r.open == st.open[..k] + Middle(st, k + 1, m) + [st.open[m], c] + st.open[m + 1..]
    && Placed(st, RelistAll(st, st.formatting, k + 1, m), st.open[k], c, r.formatting)
    && r.nextId == c + 1
    && Copied(st, k, m, r.nodes)
  }

  ghost predicate Copied(st: State, k: nat, m: nat, h: Heap)
    requires k < m < |st.open|
  {
    var c := st.nextId + CloneCount(st, k + 1, m);
    && (forall j :: k < j < m && Cloned(st, j, m) ==> IsClone(st, h, j, m))
    && c in h && h[c].kind == KindOf(st.nodes, st.open[k])
  }

  lemma RoundIs(st: State, doc: NodeId, k: nat, m: nat)
    requires Ready(st, doc, k, m) && Unique(st.formatting)
    ensures Outcome(st, k, m, Round(st, k, m))
  {
    hide WellFormed, Round, Valid, RelistAll, Middle, Cloned, IsClone, Placed;
    RoundStack(st, doc, k, m);
    RoundList(st, doc, k, m);
    RoundClones(st, doc, k, m);
  }

  lemma RoundStack(st: State, doc: NodeId, k: nat, m: nat)
    requires Ready(st, doc, k, m) && Unique(st.formatting)
    ensures var r, c := Round(st, k, m), st.nextId + CloneCount(st, k + 1, m);
            r.open == st.open[..k] + Middle(st, k + 1, m) + [st.open[m], c] + st.open[m + 1..] && r.nextId == c + 1
  {
    hide WellFormed, Round, Walked, Valid, RelistAll, Middle, IsClone, IndexOf, RemoveAt, InsertAt, Marks;
    WalkedExact(st, doc, k, m);
    var q, b := RoundPieces(st, doc, k, m);
    StackSpliced(st, doc, k, m, b);
  }

  lemma RoundList(st: State, doc: NodeId, k: nat, m: nat)
    requires Ready(st, doc, k, m) && Unique(st.formatting)
    ensures Placed(st, RelistAll(st, st.formatting, k + 1, m), st.open[k], st.nextId + CloneCount(st, k + 1, m),
                   Round(st, k, m).formatting)
  {
    hide WellFormed, Round, Walked, Valid, RelistAll, Middle, IsClone, IndexOf, RemoveAt, InsertAt, Marks, Placed,
      RemoveFirst, FinalBookmark;
    WalkedExact(st, doc, k, m);
    var q, b := RoundPieces(st, doc, k, m);
    BookmarkHolds(st, doc, k, m);
    OldEntry(st, doc, k, m);
    ListPlaced(st, Walked(st, k, m), st.open[k], st.open[m]);
  }

  lemma OldEntry(st: State, doc: NodeId, k: nat, m: nat)
    requires Ready(st, doc, k, m) && Unique(st.formatting)
    ensures st.open[k] < st.nextId
  {
    hide WellFormed, Valid;
    ReadyBegins(st, doc, k, m);
  }

  lemma RoundClones(st: State, doc: NodeId, k: nat, m: nat)
    requires Ready(st, doc, k, m) && Unique(st.formatting)
    ensures Copied(st, k, m, Round(st, k, m).nodes)
  {
    hide WellFormed, Round, Walked, Valid, RelistAll, Middle, Cloned, IsClone, Keeps, Ordered, AllTags, Drawn, Settled, Marks;
    hide Unique, FreshFrom, CloneCount, KindOf;
    WalkedExact(st, doc, k, m);
    RoundTree(st, doc, k, m);
    forall j | k < j < m && Cloned(st, j, m) ensures IsClone(st, Round(st, k, m).nodes, j, m) {
      CloneStays(st, Walked(st, k, m).st.nodes, Round(st, k, m).nodes, j, m);
    }
  }

  lemma StackSpliced(st: State, doc: NodeId, k: nat, m: nat, b: nat)
    requires Ready(st, doc, k, m) && Exact(st, Walked(st, k, m), k + 1, m)
    requires var open := Walked(st, k, m).st.open; k < b < |open| && open[b] == st.open[m]
    ensures var open, c := Walked(st, k, m).st.open, Walked(st, k, m).st.nextId;
            InsertAt(RemoveAt(open, k), b, c) == st.open[..k] + Middle(st, k + 1, m) + [st.open[m], c] + st.open[m + 1..]
  {
    hide WellFormed, Walked, Settled, Drawn, Keeps, ListOk, AllTags, HeldFrom, Middle, RelistAll, IsClone, Valid, Ordered;
    var w, mid := Walked(st, k, m), Middle(st, k + 1, m);
    WalkedOk(st, doc, k, m);
    OrderedDistinct(w.st.nodes, w.st.open);
    var open := w.st.open;
    assert open[k + 1 + |mid|] == st.open[m];
    assert b == k + 1 + |mid|;
    assert RemoveAt(open, k) == st.open[..k] + mid + st.open[m..];
    assert st.open[m..] == [st.open[m]] + st.open[m + 1..];
  }

  lemma ListPlaced(st: State, w: Walk, fe: NodeId, block: NodeId)
    requires Marks(st, w, fe, block) && Ref(fe) in w.st.formatting && fe < st.nextId
    ensures 0 <= FinalBookmark(w, fe) <= |RemoveFirst(w.st.formatting, Ref(fe))|
    ensures Placed(st, w.st.formatting, fe, w.st.nextId,
                   InsertAt(RemoveFirst(w.st.formatting, Ref(fe)), FinalBookmark(w, fe), Ref(w.st.nextId)))
  {
    hide RemoveAt, InsertAt, IndexOf;
    var list, c, b := w.st.formatting, w.st.nextId, w.bookmark;
    var f := IndexOf(list, Ref(fe));
    RemovedLength(list, f);
    if c == st.nextId { SetIs(list, f, Ref(c)); }
    else {
      BehindStays(list, f, b - 1);
      InsertIs(RemoveAt(list, f), FinalBookmark(w, fe), Ref(c));
    }
  }

  lemma RemovedLength<T>(s: seq<T>, f: nat)
    requires f < |s|
    ensures |RemoveAt(s, f)| == |s| - 1
  {}

  lemma SetIs<T>(s: seq<T>, f: nat, x: T)
    requires f < |s|
    ensures f <= |RemoveAt(s, f)| && InsertAt(RemoveAt(s, f), f, x) == s[f := x]
  {}

  lemma InsertIs<T>(s: seq<T>, p: nat, x: T)
    requires p <= |s|
    ensures InsertAt(s, p, x) == s[..p] + [x] + s[p..]
  {}

  /** Another element, when the one at `f` is removed. */
  lemma BehindStays<T>(s: seq<T>, f: nat, b: nat)
    requires f < |s| && b < |s| && b != f
    ensures RemoveAt(s, f)[if f < b then b - 1 else b] == s[b]
  {}
}
