/** The list of active formatting elements and the stack of open elements list the same elements in
    the same order, and the adoption agency keeps it so. */
module ListOrder {
  import opened Sequences
  import opened Dom
  import opened Adoption

  /** The element at `a` on the stack is listed at `i`. */
  ghost predicate Lists(open: seq<NodeId>, list: seq<Entry>, a: int, i: int) {
    0 <= a < |open| && 0 <= i < |list| && list[i] == Ref(open[a])
  }

  /** No element is listed twice. */
  ghost predicate Unique(list: seq<Entry>) {
    forall i, j :: 0 <= i < j < |list| && list[i].Ref? ==> list[i] != list[j]
  }

  /** Open elements are listed in stack order. */
  ghost predicate Aligned(open: seq<NodeId>, list: seq<Entry>) {
    forall a, b, i, j {:trigger Lists(open, list, a, i), Lists(open, list, b, j)} ::
      a < b && Lists(open, list, a, i) && Lists(open, list, b, j) ==> i < j
  }

  ghost predicate Orderly(open: seq<NodeId>, list: seq<Entry>) {
    Distinct(open) && Unique(list) && Aligned(open, list)
  }

  lemma ListedOnce(open: seq<NodeId>, list: seq<Entry>, a: int, i: int, j: int)
    requires Unique(list) && Lists(open, list, a, i) && Lists(open, list, a, j)
    ensures i == j
  {}

  // ---------------------------------------------------------------------------------------
  // Edits

  lemma OrderlyLess(open: seq<NodeId>, list: seq<Entry>, k: nat)
    requires Orderly(open, list) && k < |open|
    ensures Orderly(RemoveAt(open, k), list)
    ensures forall a, i {:trigger Lists(RemoveAt(open, k), list, a, i)} ::
      Lists(RemoveAt(open, k), list, a, i) ==> Lists(open, list, if a < k then a else a + 1, i)
  {
    var r := RemoveAt(open, k);
    assert forall a :: 0 <= a < |r| ==> r[a] == open[if a < k then a else a + 1];
    forall a, i | Lists(r, list, a, i) ensures Lists(open, list, if a < k then a else a + 1, i) {}
    forall a, b, i, j | a < b && Lists(r, list, a, i) && Lists(r, list, b, j) ensures i < j {
      assert Lists(open, list, if a < k then a else a + 1, i) && Lists(open, list, if b < k then b else b + 1, j);
    }
  }

  lemma OrderlyPrefix(open: seq<NodeId>, list: seq<Entry>, k: nat)
    requires Orderly(open, list) && k <= |open|
    ensures Orderly(open[..k], list)
  {
    assert forall a, i :: Lists(open[..k], list, a, i) ==> Lists(open, list, a, i);
  }

  lemma OrderlyUnlisted(open: seq<NodeId>, list: seq<Entry>, f: nat)
    requires Orderly(open, list) && f < |list|
    ensures Orderly(open, RemoveAt(list, f))
    ensures forall a, i {:trigger Lists(open, RemoveAt(list, f), a, i)} ::
      Lists(open, RemoveAt(list, f), a, i) ==> Lists(open, list, a, if i < f then i else i + 1)
  {
    var r := RemoveAt(list, f);
    assert forall i :: 0 <= i < |r| ==> r[i] == list[if i < f then i else i + 1];
    forall a, i | Lists(open, r, a, i) ensures Lists(open, list, a, if i < f then i else i + 1) {}
    forall a, b, i, j | a < b && Lists(open, r, a, i) && Lists(open, r, b, j) ensures i < j {
      assert Lists(open, list, a, if i < f then i else i + 1) && Lists(open, list, b, if j < f then j else j + 1);
    }
  }

  lemma OrderlyCut(open: seq<NodeId>, list: seq<Entry>, n: nat)
    requires Orderly(open, list) && n <= |list|
    ensures Orderly(open, list[..n])
  {
    assert forall a, i :: Lists(open, list[..n], a, i) ==> Lists(open, list, a, i);
  }

  lemma OrderlyReplace(open: seq<NodeId>, list: seq<Entry>, x: nat, f: nat, c: NodeId)
    requires Orderly(open, list) && Lists(open, list, x, f) && c !in open && Ref(c) !in list
    ensures Orderly(open[x := c], list[f := Ref(c)])
    ensures forall a, i {:trigger Lists(open[x := c], list[f := Ref(c)], a, i)} ::
      Lists(open[x := c], list[f := Ref(c)], a, i) <==> Lists(open, list, a, i)
  {
    var open', list' := open[x := c], list[f := Ref(c)];
    forall a, i ensures Lists(open', list', a, i) <==> Lists(open, list, a, i) {
      if 0 <= a < |open| && 0 <= i < |list| {
        assert open[a] in open && list[i] in list;
        if a == x && Lists(open, list, a, i) { ListedOnce(open, list, x, f, i); }
      }
    }
    assert Distinct(open') && Unique(list');
  }

  /** Putting a new element into both, at places that agree. */
  lemma OrderlyInsert(open: seq<NodeId>, list: seq<Entry>, p: nat, q: nat, c: NodeId)
    requires Orderly(open, list) && p <= |open| && q <= |list| && c !in open && Ref(c) !in list
    requires forall a, i {:trigger Lists(open, list, a, i)} ::
      Lists(open, list, a, i) ==> (a < p ==> i < q) && (a >= p ==> i >= q)
    ensures Orderly(InsertAt(open, p, c), InsertAt(list, q, Ref(c)))
  {
    var open', list' := InsertAt(open, p, c), InsertAt(list, q, Ref(c));
    NewIsOther(open, p, c);
    NewEntryIsOther(list, q, c);
    forall a, i | Lists(open', list', a, i)
      ensures if a == p then i == q
              else i != q && Lists(open, list, if a < p then a else a - 1, if i < q then i else i - 1)
    {
      assert a != p ==> open'[a] == open[if a < p then a else a - 1] && open'[a] in open;
      assert i != q ==> list'[i] == list[if i < q then i else i - 1] && list'[i] in list;
    }
  }

  lemma NewIsOther(open: seq<NodeId>, p: nat, c: NodeId)
    requires Distinct(open) && p <= |open| && c !in open
    ensures Distinct(InsertAt(open, p, c))
  {
    var r := InsertAt(open, p, c);
    assert forall a :: 0 <= a < |r| && a != p ==> r[a] == open[if a < p then a else a - 1] && r[a] in open;
  }

  lemma NewEntryIsOther(list: seq<Entry>, q: nat, c: NodeId)
    requires Unique(list) && q <= |list| && Ref(c) !in list
    ensures Unique(InsertAt(list, q, Ref(c)))
  {
    var r := InsertAt(list, q, Ref(c));
    assert forall i :: 0 <= i < |r| && i != q ==> r[i] == list[if i < q then i else i - 1] && r[i] in list;
  }

  lemma OrderlyPush(open: seq<NodeId>, list: seq<Entry>, c: NodeId)
    requires Orderly(open, list) && c !in open && Ref(c) !in list
    ensures Orderly(open + [c], list)
  {
    forall a, i | Lists(open + [c], list, a, i) ensures Lists(open, list, a, i) { assert list[i] in list; }
    forall i | 0 <= i < |open| ensures open[i] != c { assert open[i] in open; }
  }

  /** Listing the current node. */
  lemma OrderlyListed(open: seq<NodeId>, list: seq<Entry>, e: Entry)
    requires Orderly(open, list) && e !in list
    requires e.Ref? ==> open != [] && e == Ref(open[|open| - 1])
    ensures Orderly(open, list + [e])
  {
    var r := list + [e];
    forall a, i | Lists(open, r, a, i)
      ensures Lists(open, list, a, i) || (i == |list| && a == |open| - 1)
    {
    }
    forall i | 0 <= i < |list| ensures list[i] != e { assert list[i] in list; }
  }

  lemma OrderlyMarked(open: seq<NodeId>, list: seq<Entry>)
    requires Orderly(open, list)
    ensures Orderly(open, list + [Marker])
  {
    forall a, i | Lists(open, list + [Marker], a, i) ensures Lists(open, list, a, i) {}
  }

  // ---------------------------------------------------------------------------------------
  // The walk of the adoption agency

  /** What is listed above the block comes from the bookmark on; what is below the formatting element,
      or has been visited and left listed below the block, comes before it. Up to the first clone no
      visited element is left listed. */
  ghost predicate Parted(open: seq<NodeId>, list: seq<Entry>, bookmark: int, first: bool, k: nat, i: nat, b: nat) {
    forall a, j {:trigger Lists(open, list, a, j)} :: Lists(open, list, a, j) ==>
      (b < a ==> bookmark <= j) && (i <= a < b ==> j < bookmark && !first) && (a <= k ==> j < bookmark)
  }

  /** Some element between is listed at `j`. */
  ghost predicate Anchored(open: seq<NodeId>, list: seq<Entry>, i: nat, b: nat, j: int) {
    exists a :: i <= a < b && Lists(open, list, a, j)
  }

  /** No marker comes behind the entry of the element at `k`. */
  ghost predicate LastSegment(open: seq<NodeId>, list: seq<Entry>, k: nat) {
    forall f, j {:trigger Lists(open, list, k, f), list[j]} ::
      Lists(open, list, k, f) && f < j < |list| ==> list[j].Ref?
  }

  /** While the walk has still to visit the positions below `i`, with the formatting element at `k` and
      the furthest block at `b`. */
  ghost predicate Booked(open: seq<NodeId>, list: seq<Entry>, bookmark: int, first: bool, k: nat, i: nat, b: nat) {
    && Orderly(open, list) && k < i <= b < |open| && Ref(open[k]) in list && Ref(open[b]) !in list
    && Parted(open, list, bookmark, first, k, i, b) && (!first ==> Anchored(open, list, i, b, bookmark - 1))
    && LastSegment(open, list, k)
  }

  lemma BookedStart(open: seq<NodeId>, list: seq<Entry>, k: nat, m: nat, f: nat)
    requires Orderly(open, list) && k < m < |open| && Lists(open, list, k, f) && Ref(open[m]) !in list
    requires forall j :: f < j < |list| ==> list[j].Ref?
    ensures Booked(open, list, f + 1, true, k, m, m)
  {
    assert list[f] in list;
    forall a, j | Lists(open, list, a, j) ensures (m < a ==> f + 1 <= j) && (a <= k ==> j < f + 1) {
      if a == k { ListedOnce(open, list, k, f, j); }
    }
    forall f', j | Lists(open, list, k, f') && f' < j < |list| ensures list[j].Ref? { ListedOnce(open, list, k, f, f'); }
  }

  /** An element that is not listed leaves the stack. */
  lemma BookedSkip(open: seq<NodeId>, list: seq<Entry>, bookmark: int, first: bool, k: nat, x: nat, b: nat)
    requires Booked(open, list, bookmark, first, k, x + 1, b) && k < x && Ref(open[x]) !in list
    ensures Booked(RemoveAt(open, x), list, bookmark, first, k, x, b - 1)
  {
    var r := RemoveAt(open, x);
    OrderlyLess(open, list, x);
    assert r[k] == open[k] && r[b - 1] == open[b];
    forall a, j | Lists(r, list, a, j)
      ensures (b - 1 < a ==> bookmark <= j) && (x <= a < b - 1 ==> j < bookmark && !first) && (a <= k ==> j < bookmark)
    {
      assert Lists(open, list, if a < x then a else a + 1, j);
    }
    if !first {
      var a :| x + 1 <= a < b && Lists(open, list, a, bookmark - 1);
      assert Lists(r, list, a - 1, bookmark - 1);
    }
    forall f, j | Lists(r, list, k, f) && f < j < |list| ensures list[j].Ref? { assert Lists(open, list, k, f); }
  }

  /** An element leaves the list. */
  lemma BookedDrop(open: seq<NodeId>, list: seq<Entry>, bookmark: int, first: bool, k: nat, x: nat, b: nat, f: nat)
    requires Booked(open, list, bookmark, first, k, x + 1, b) && k < x && Lists(open, list, x, f)
    ensures Booked(open, RemoveAt(list, f), if f < bookmark then bookmark - 1 else bookmark, first, k, x, b)
  {
    hide Orderly;
    OrderlyUnlisted(open, list, f);
    DropMembers(open, list, k, x, b, f);
    DropParted(open, list, bookmark, first, k, x, b, f);
    if !first { DropAnchored(open, list, x, b, bookmark, f); }
    DropSegment(open, list, k, f);
  }

  lemma DropMembers(open: seq<NodeId>, list: seq<Entry>, k: nat, x: nat, b: nat, f: nat)
    requires Orderly(open, list) && k < x < b < |open| && Lists(open, list, x, f)
    requires Ref(open[k]) in list && Ref(open[b]) !in list
    ensures Ref(open[k]) in RemoveAt(list, f) && Ref(open[b]) !in RemoveAt(list, f)
  {
    StillThere(list, f, Ref(open[k]));
  }

  lemma DropParted(open: seq<NodeId>, list: seq<Entry>, bookmark: int, first: bool, k: nat, x: nat, b: nat, f: nat)
    requires Orderly(open, list) && k < x && Lists(open, list, x, f) && Parted(open, list, bookmark, first, k, x + 1, b)
    ensures Parted(open, RemoveAt(list, f), if f < bookmark then bookmark - 1 else bookmark, first, k, x, b)
  {
    var r, bookmark' := RemoveAt(list, f), if f < bookmark then bookmark - 1 else bookmark;
    OrderlyUnlisted(open, list, f);
    forall a, j | Lists(open, r, a, j)
      ensures (b < a ==> bookmark' <= j) && (x <= a < b ==> j < bookmark' && !first) && (a <= k ==> j < bookmark')
    {
      var j' := if j < f then j else j + 1;
      assert Lists(open, list, a, j');
      if a == x { ListedOnce(open, list, x, f, j'); }
    }
  }

  lemma DropAnchored(open: seq<NodeId>, list: seq<Entry>, x: nat, b: nat, bookmark: int, f: nat)
    requires Orderly(open, list) && Lists(open, list, x, f) && Anchored(open, list, x + 1, b, bookmark - 1)
    ensures Anchored(open, RemoveAt(list, f), x, b, if f < bookmark then bookmark - 2 else bookmark - 1)
  {
    var a :| x + 1 <= a < b && Lists(open, list, a, bookmark - 1);
    assert f < bookmark - 1;
    assert Lists(open, RemoveAt(list, f), a, bookmark - 2);
  }

  lemma DropSegment(open: seq<NodeId>, list: seq<Entry>, k: nat, f: nat)
    requires Orderly(open, list) && f < |list| && LastSegment(open, list, k)
    ensures LastSegment(open, RemoveAt(list, f), k)
  {
    var r := RemoveAt(list, f);
    OrderlyUnlisted(open, list, f);
    forall f', j | Lists(open, r, k, f') && f' < j < |r| ensures r[j].Ref? {
      assert Lists(open, list, k, if f' < f then f' else f' + 1);
      assert r[j] == list[if j < f then j else j + 1];
    }
  }

  lemma StillThere(list: seq<Entry>, f: nat, e: Entry)
    requires f < |list| && e in list && e != list[f]
    ensures e in RemoveAt(list, f)
  {
    var t :| 0 <= t < |list| && list[t] == e;
    assert RemoveAt(list, f)[if t < f then t else t - 1] == e;
  }

  /** A clone takes an element's place on the stack and in the list. */
  lemma BookedClone(open: seq<NodeId>, list: seq<Entry>, bookmark: int, first: bool, k: nat, x: nat, b: nat, f: nat, c: NodeId)
    requires Booked(open, list, bookmark, first, k, x + 1, b) && k < x && Lists(open, list, x, f)
    requires c !in open && Ref(c) !in list
    ensures Booked(open[x := c], list[f := Ref(c)], if first then f + 1 else bookmark, false, k, x, b)
  {
    var open', list', bookmark' := open[x := c], list[f := Ref(c)], if first then f + 1 else bookmark;
    OrderlyReplace(open, list, x, f, c);
    CloneMembers(open, list, k, x, b, f, c);
    forall a, j | Lists(open', list', a, j)
      ensures (b < a ==> bookmark' <= j) && (x <= a < b ==> j < bookmark') && (a <= k ==> j < bookmark')
    {
      assert Lists(open, list, a, j);
      if a == x {
        ListedOnce(open, list, x, f, j);
        if !first { var a1 :| x + 1 <= a1 < b && Lists(open, list, a1, bookmark - 1); }
      }
    }
    if first { assert Lists(open', list', x, bookmark' - 1); }
    else {
      var a :| x + 1 <= a < b && Lists(open, list, a, bookmark - 1);
      assert Lists(open', list', a, bookmark' - 1);
    }
    forall f', j | Lists(open', list', k, f') && f' < j < |list'| ensures list'[j].Ref? {
      assert Lists(open, list, k, f');
    }
  }

  lemma CloneMembers(open: seq<NodeId>, list: seq<Entry>, k: nat, x: nat, b: nat, f: nat, c: NodeId)
    requires Orderly(open, list) && k < x < b < |open| && Lists(open, list, x, f) && c !in open
    requires Ref(open[k]) in list && Ref(open[b]) !in list
    ensures Ref(open[x := c][k]) in list[f := Ref(c)] && Ref(open[x := c][b]) !in list[f := Ref(c)]
  {
    var t :| 0 <= t < |list| && list[t] == Ref(open[k]);
    assert list[f := Ref(c)][t] == Ref(open[k]);
    assert open[b] in open;
  }

  /** Steps 18 and 19: the new element's places agree. */
  lemma BookedEnd(open: seq<NodeId>, list: seq<Entry>, bookmark: int, first: bool, k: nat, b: nat, f: nat, c: NodeId)
    requires Booked(open, list, bookmark, first, k, k + 1, b) && Lists(open, list, k, f) && bookmark <= |list|
    requires c !in open && Ref(c) !in list
    ensures f < bookmark && Orderly(InsertAt(RemoveAt(open, k), b, c), InsertAt(RemoveAt(list, f), bookmark - 1, Ref(c)))
    ensures forall j :: f < j < |list| ==> list[j].Ref?
  {
    var open', list' := RemoveAt(open, k), RemoveAt(list, f);
    OrderlyLess(open, list, k);
    OrderlyUnlisted(open', list, f);
    assert forall n :: n in open' ==> n in open;
    assert forall e :: e in list' ==> e in list;
    forall a, j | Lists(open', list', a, j)
      ensures (a < b ==> j < bookmark - 1) && (a >= b ==> j >= bookmark - 1)
    {
      var a', j' := if a < k then a else a + 1, if j < f then j else j + 1;
      assert Lists(open', list, a, j');
      assert Lists(open, list, a', j') && list[j'] in list;
    }
    OrderlyInsert(open', list', b, bookmark - 1, c);
  }
}
