/** The list of active formatting elements: the Noah's Ark clause over whole runs, and the
    reconstruction of closed formatting elements. */
module FormattingList {
  import opened Options
  import opened Dom
  import opened DomOps
  import opened OpenStack
  import opened Sequences
  import opened Attributes
  import opened Adoption
  import opened Agency

  // ---------------------------------------------------------------------------------------
  // Identity of entries

  /** What makes two formatting elements identical: tag, namespace and attribute map. */
  datatype Identity = Identity(name: QName, attributes: map<string, string>)

  /** The static scope marker is a zeroed node, so it reads as a bare html element. */
  const MARKER_KIND := Element(QName(Html, HTML_TAG), [])

  function EntryKind(h: Heap, e: Entry): Kind {
    match e
    case Marker => MARKER_KIND
    case Ref(n) => KindOf(h, n)
  }

  function IdentityOf(kind: Kind): Identity {
    if kind.IsTag() then Identity(kind.name, AsMap(kind.attributes)) else Identity(MARKER_KIND.name, map[])
  }

  /** `node_qualified_tag_is` and `all_attributes_match` together. */
  predicate Identical(kind: Kind, desired: Kind) {
    kind.IsTag() && desired.IsTag() && kind.name == desired.name && AllMatch(kind.attributes, desired.attributes)
  }

  ghost predicate NamesOk(kind: Kind) {
    kind.IsTag() && DistinctNames(kind.attributes)
  }

  lemma IdenticalIsIdentity(kind: Kind, desired: Kind)
    requires NamesOk(kind) && NamesOk(desired)
    ensures Identical(kind, desired) <==> IdentityOf(kind) == IdentityOf(desired)
  {
    MatchIsMapEquality(kind.attributes, desired.attributes);
  }

  /** Every listed element has attribute names distinct up to case, as tokens deliver them. */
  ghost predicate ListNamesOk(h: Heap, list: seq<Entry>) {
    forall i :: 0 <= i < |list| ==> NamesOk(EntryKind(h, list[i]))
  }

  // ---------------------------------------------------------------------------------------
  // Adding, with the Noah's Ark clause

  datatype Tally = Tally(count: nat, earliest: int)

  /** `count_formatting_elements_of_tag`: how many entries after the last marker are identical to
      `desired`, and the first of them. */
  function CountIdentical(h: Heap, list: seq<Entry>, desired: Kind): (t: Tally)
    ensures t.count <= |list| && (t.count == 0 ==> t.earliest == -1)
    ensures t.count > 0 ==> 0 <= t.earliest < |list| && list[t.earliest].Ref?
    ensures t.count > 0 ==> Identical(EntryKind(h, list[t.earliest]), desired)
    ensures t.count > 0 ==> Unmarked(list, t.earliest)
    ensures forall j: nat :: Unmarked(list, j) && (t.count > 0 ==> j < t.earliest) ==> !Identical(EntryKind(h, list[j]), desired)
  {
    if list == [] || list[|list| - 1].Marker? then Tally(0, -1)
    else
      var n := |list| - 1;
      var rest := CountIdentical(h, list[..n], desired);
      UnmarkedRest(list);
      if !Identical(EntryKind(h, list[n]), desired) then rest
      else Tally(rest.count + 1, if rest.count == 0 then n else rest.earliest)
  }

  /** Behind the last marker of a list that ends with an element, and of the list without it. */
  lemma UnmarkedRest(list: seq<Entry>)
    requires list != [] && list[|list| - 1].Ref?
    ensures Unmarked(list, |list| - 1)
    ensures forall j: nat {:trigger Unmarked(list, j)} {:trigger Unmarked(list[..|list| - 1], j)} ::
      j < |list| - 1 ==> (Unmarked(list, j) <==> Unmarked(list[..|list| - 1], j))
  {
    forall j: nat | j < |list| - 1 ensures Unmarked(list, j) <==> Unmarked(list[..|list| - 1], j) {
      assert forall i :: j <= i < |list| - 1 ==> list[..|list| - 1][i] == list[i];
    }
  }

  /** One entry more. */
  lemma CountStep(h: Heap, list: seq<Entry>, i: nat, desired: Kind)
    requires i < |list|
    ensures CountIdentical(h, list[..i + 1], desired)
         == if list[i].Marker? then Tally(0, -1)
            else
              var rest := CountIdentical(h, list[..i], desired);
              if !Identical(EntryKind(h, list[i]), desired) then rest
              else Tally(rest.count + 1, if rest.count == 0 then i else rest.earliest)
  {
    hide Identical, EntryKind, Unmarked;
    assert list[..i + 1][..i] == list[..i];
  }

  /** `add_formatting_element`. */
  function AddEntry(h: Heap, list: seq<Entry>, e: Entry): seq<Entry> {
    var t := CountIdentical(h, list, EntryKind(h, e));
    (if t.count >= 3 then RemoveAt(list, t.earliest) else list) + [e]
  }

  /** `clear_active_formatting_elements`: drop entries up to and including the last marker. */
  function ClearToMarker(list: seq<Entry>): (r: seq<Entry>)
    ensures |r| <= |list| && r == list[..|r|] && (list != [] ==> |r| < |list|)
    ensures |r| < |list| ==> (list[|r|].Marker? || r == []) && forall j :: |r| < j < |list| ==> list[j].Ref?
  {
    if list == [] then []
    else if list[|list| - 1].Marker? then list[..|list| - 1]
    else ClearToMarker(list[..|list| - 1])
  }

  /** How many entries after the last marker have the given identity. */
  ghost function Count(h: Heap, list: seq<Entry>, id: Identity): nat {
    if list == [] || list[|list| - 1].Marker? then 0
    else
      Count(h, list[..|list| - 1], id) + if IdentityOf(EntryKind(h, list[|list| - 1])) == id then 1 else 0
  }

  /** No identity occurs more than three times between markers: the count is taken at the end of
      every prefix, so at the end of every marker-delimited segment. */
  ghost predicate AtMostThree(h: Heap, list: seq<Entry>) {
    forall p, id :: 0 <= p <= |list| ==> Count(h, list[..p], id) <= 3
  }

  lemma {:induction false} CountAgrees(h: Heap, list: seq<Entry>, desired: Kind)
    requires ListNamesOk(h, list) && NamesOk(desired)
    ensures CountIdentical(h, list, desired).count == Count(h, list, IdentityOf(desired))
  {
    if list != [] && list[|list| - 1].Ref? {
      CountAgrees(h, list[..|list| - 1], desired);
      IdenticalIsIdentity(EntryKind(h, list[|list| - 1]), desired);
    }
  }

  /** Removing an element never raises a count, and lowers the count of its own identity if it is
      in the last segment. */
  lemma {:induction false} CountRemove(h: Heap, list: seq<Entry>, q: nat, id: Identity)
    requires q < |list| && list[q].Ref?
    ensures Count(h, RemoveAt(list, q), id) <= Count(h, list, id)
    ensures IdentityOf(EntryKind(h, list[q])) == id && (forall j :: q <= j < |list| ==> list[j].Ref?) ==>
            Count(h, RemoveAt(list, q), id) + 1 == Count(h, list, id)
  {
    hide IdentityOf, EntryKind, Count;
    var n := |list| - 1;
    assert list == list[..n] + [list[n]];
    CountPush(h, list[..n], list[n], id);
    if q == n {
      assert RemoveAt(list, q) == list[..n];
    } else {
      CountRemove(h, list[..n], q, id);
      assert RemoveAt(list, q) == RemoveAt(list[..n], q) + [list[n]];
      CountPush(h, RemoveAt(list[..n], q), list[n], id);
    }
  }

  lemma RemoveKeepsAtMostThree(h: Heap, list: seq<Entry>, q: nat)
    requires AtMostThree(h, list) && q < |list| && list[q].Ref?
    ensures AtMostThree(h, RemoveAt(list, q))
  {
    var r := RemoveAt(list, q);
    forall p, id | 0 <= p <= |r| ensures Count(h, r[..p], id) <= 3 {
      if p <= q {
        assert r[..p] == list[..p];
      } else {
        assert r[..p] == RemoveAt(list[..p + 1], q);
        CountRemove(h, list[..p + 1], q, id);
      }
    }
  }

  lemma PrefixKeepsAtMostThree(h: Heap, list: seq<Entry>, n: nat)
    requires AtMostThree(h, list) && n <= |list|
    ensures AtMostThree(h, list[..n])
  {
    forall p, id | 0 <= p <= n ensures Count(h, list[..n][..p], id) <= 3 {
      assert list[..n][..p] == list[..p];
    }
  }

  lemma AddKeepsAtMostThree(h: Heap, list: seq<Entry>, e: Entry)
    requires AtMostThree(h, list) && ListNamesOk(h, list) && NamesOk(EntryKind(h, e))
    ensures AtMostThree(h, AddEntry(h, list, e))
  {
    hide Count, CountIdentical, EntryKind, IdentityOf, NamesOk, Identical, RemoveAt, AtMostThree;
    var kind := EntryKind(h, e);
    var t := CountIdentical(h, list, kind);
    var rest := if t.count >= 3 then RemoveAt(list, t.earliest) else list;
    CountAgrees(h, list, kind);
    CountWhole(h, list, IdentityOf(kind));
    if t.count >= 3 {
      IdenticalIsIdentity(EntryKind(h, list[t.earliest]), kind);
      CountRemove(h, list, t.earliest, IdentityOf(kind));
      RemoveKeepsAtMostThree(h, list, t.earliest);
    }
    PushKeepsAtMostThree(h, rest, e);
  }

  /** The exact law of adding: with at most two like it behind the last marker the entry just follows;
      otherwise the first like it behind the last marker goes. Every other entry stays where it was. */
  lemma AddExactly(h: Heap, list: seq<Entry>, e: Entry)
    requires ListNamesOk(h, list) && NamesOk(EntryKind(h, e))
    ensures var id := IdentityOf(EntryKind(h, e));
            if Count(h, list, id) <= 2 then AddEntry(h, list, e) == list + [e]
            else exists q: nat :: FirstLike(h, list, id, q) && AddEntry(h, list, e) == list[..q] + list[q + 1..] + [e]
  {
    hide Count, CountIdentical, EntryKind, IdentityOf, NamesOk, Identical, Unmarked;
    var kind := EntryKind(h, e);
    var t := CountIdentical(h, list, kind);
    CountAgrees(h, list, kind);
    if t.count >= 3 {
      FirstIsLike(h, list, kind);
      assert FirstLike(h, list, IdentityOf(kind), t.earliest);
    }
  }

  /** The entry at `q` is the first behind the last marker with the identity. */
  ghost predicate FirstLike(h: Heap, list: seq<Entry>, id: Identity, q: nat) {
    && Unmarked(list, q) && IdentityOf(EntryKind(h, list[q])) == id
    && forall j: nat :: j < q && Unmarked(list, j) ==> IdentityOf(EntryKind(h, list[j])) != id
  }

  lemma FirstIsLike(h: Heap, list: seq<Entry>, kind: Kind)
    requires ListNamesOk(h, list) && NamesOk(kind) && CountIdentical(h, list, kind).count > 0
    ensures FirstLike(h, list, IdentityOf(kind), CountIdentical(h, list, kind).earliest)
  {
    hide CountIdentical, EntryKind, IdentityOf, NamesOk, Identical;
    var t := CountIdentical(h, list, kind);
    IdenticalIsIdentity(EntryKind(h, list[t.earliest]), kind);
    forall j: nat | j < t.earliest && Unmarked(list, j) ensures IdentityOf(EntryKind(h, list[j])) != IdentityOf(kind) {
      IdenticalIsIdentity(EntryKind(h, list[j]), kind);
    }
  }

  lemma CountWhole(h: Heap, list: seq<Entry>, id: Identity)
    requires AtMostThree(h, list)
    ensures Count(h, list, id) <= 3
  {
    hide Count;
    assert list[..|list|] == list;
  }

  lemma PushKeepsAtMostThree(h: Heap, rest: seq<Entry>, e: Entry)
    requires AtMostThree(h, rest) && Count(h, rest, IdentityOf(EntryKind(h, e))) <= 2
    ensures AtMostThree(h, rest + [e])
  {
    hide EntryKind, IdentityOf, Count;
    var r := rest + [e];
    forall p, id | 0 <= p <= |r| ensures Count(h, r[..p], id) <= 3 {
      if p <= |rest| {
        assert r[..p] == rest[..p];
      } else {
        assert r[..p] == r;
        CountWhole(h, rest, id);
        CountPush(h, rest, e, id);
      }
    }
  }

  lemma CountPush(h: Heap, rest: seq<Entry>, e: Entry, id: Identity)
    ensures Count(h, rest + [e], id)
      == if e.Marker? then 0 else Count(h, rest, id) + if IdentityOf(EntryKind(h, e)) == id then 1 else 0
  {
    hide EntryKind, IdentityOf;
    assert (rest + [e])[..|rest|] == rest;
  }

  // ---------------------------------------------------------------------------------------
  // Inserting anywhere, as the last steps of the adoption agency do

  /** The end of the segment that position `j` lies in: the next marker, or the end of the list. */
  function SegmentEnd(list: seq<Entry>, j: nat): (e: nat)
    requires j <= |list|
    ensures j <= e <= |list| && (e < |list| ==> list[e].Marker?) && forall t :: j <= t < e ==> list[t].Ref?
    decreases |list| - j
  {
    if j == |list| || list[j].Marker? then j else SegmentEnd(list, j + 1)
  }

  /** An inserted element counts up to the end of its segment. */
  lemma {:induction false} InsertCount(h: Heap, list: seq<Entry>, j: nat, e: Entry, p: nat, id: Identity)
    requires j <= p <= |list| && e.Ref?
    ensures Count(h, InsertAt(list, j, e)[..p + 1], id)
      == Count(h, list[..p], id) + if p <= SegmentEnd(list, j) && IdentityOf(EntryKind(h, e)) == id then 1 else 0
    decreases p - j
  {
    hide Count, EntryKind, IdentityOf, SegmentEnd;
    var r := InsertAt(list, j, e);
    if p == j {
      assert r[..j + 1] == list[..j] + [e];
      CountPush(h, list[..j], e, id);
    } else {
      InsertCount(h, list, j, e, p - 1, id);
      assert r[..p + 1] == r[..p] + [list[p - 1]];
      assert list[..p] == list[..p - 1] + [list[p - 1]];
      CountPush(h, r[..p], list[p - 1], id);
      CountPush(h, list[..p - 1], list[p - 1], id);
    }
  }

  /** Counts grow within a segment. */
  lemma {:induction false} CountWithin(h: Heap, list: seq<Entry>, p: nat, q: nat, id: Identity)
    requires p <= q <= |list| && forall t :: p <= t < q ==> list[t].Ref?
    ensures Count(h, list[..p], id) <= Count(h, list[..q], id)
    decreases q - p
  {
    hide Count, EntryKind, IdentityOf;
    if p < q {
      CountWithin(h, list, p, q - 1, id);
      assert list[..q] == list[..q - 1] + [list[q - 1]];
      CountPush(h, list[..q - 1], list[q - 1], id);
    }
  }

  /** Inserting an element keeps every segment free of four alike exactly when its own segment holds at
      most two like it. */
  lemma InsertKeepsExactly(h: Heap, list: seq<Entry>, j: nat, e: Entry)
    requires AtMostThree(h, list) && j <= |list| && e.Ref?
    ensures AtMostThree(h, InsertAt(list, j, e))
       <==> Count(h, list[..SegmentEnd(list, j)], IdentityOf(EntryKind(h, e))) <= 2
  {
    hide Count, EntryKind, IdentityOf, SegmentEnd;
    var r, own, end := InsertAt(list, j, e), IdentityOf(EntryKind(h, e)), SegmentEnd(list, j);
    if Count(h, list[..end], own) <= 2 {
      forall p, id | 0 <= p <= |r| ensures Count(h, r[..p], id) <= 3 {
        if p <= j {
          assert r[..p] == list[..p];
        } else {
          InsertCount(h, list, j, e, p - 1, id);
          if p - 1 <= end { CountWithin(h, list, p - 1, end, id); }
        }
      }
    } else {
      InsertCount(h, list, j, e, end, own);
      assert Count(h, r[..end + 1], own) > 3;
    }
  }

  /** Why the condition is needed: a fourth element that lands before a marker. */
  lemma FourthBeforeMarker(kind: Kind)
    requires kind.IsTag()
    ensures var h := map[0 := Node(kind, None, -1, []), 1 := Node(kind, None, -1, []),
                         2 := Node(kind, None, -1, []), 3 := Node(kind, None, -1, [])];
            var list := [Ref(0), Ref(1), Ref(2), Marker];
            AtMostThree(h, list) && AtMostThree(h, list + [Ref(3)]) && !AtMostThree(h, InsertAt(list, 3, Ref(3)))
  {
    hide Count, EntryKind, IdentityOf;
    var h: Heap := map[0 := Node(kind, None, -1, []), 1 := Node(kind, None, -1, []),
                       2 := Node(kind, None, -1, []), 3 := Node(kind, None, -1, [])];
    var own := IdentityOf(kind);
    var a: seq<Entry> := [];
    var b := a + [Ref(0)];
    var c := b + [Ref(1)];
    var d := c + [Ref(2)];
    var list := d + [Marker];
    assert forall i :: 0 <= i < 4 ==> EntryKind(h, Ref(i)) == kind by { KindOfRef(h); }
    forall id
      ensures Count(h, a, id) == 0 && Count(h, b, id) <= 1 && Count(h, c, id) <= 2 && Count(h, d, id) <= 3
      ensures Count(h, list, id) == 0 && Count(h, d, own) == 3
    {
      CountNone(h, id);
      CountNone(h, own);
      CountPush(h, a, Ref(0), own);
      CountPush(h, b, Ref(1), own);
      CountPush(h, c, Ref(2), own);
      CountPush(h, a, Ref(0), id);
      CountPush(h, b, Ref(1), id);
      CountPush(h, c, Ref(2), id);
      CountPush(h, d, Marker, id);
    }
    forall p, id | 0 <= p <= |list| ensures Count(h, list[..p], id) <= 3 {
      assert list[..p] == if p == 0 then a else if p == 1 then b else if p == 2 then c else if p == 3 then d else list;
    }
    assert [Ref(0), Ref(1), Ref(2), Marker] == list;
    PushKeepsAtMostThree(h, list, Ref(3));
    assert list[..3] == d && SegmentEnd(list, 3) == 3;
    InsertKeepsExactly(h, list, 3, Ref(3));
  }

  lemma CountNone(h: Heap, id: Identity)
    ensures Count(h, [], id) == 0
  {}

  lemma KindOfRef(h: Heap)
    ensures forall n :: n in h && h[n].kind.IsTag() ==> EntryKind(h, Ref(n)) == h[n].kind
  {}

  /** Replacing entries by entries of the same kind, in a heap that keeps every kind, changes no
      count. */
  lemma {:induction false} CountReplace(h: Heap, list: seq<Entry>, h': Heap, list': seq<Entry>, id: Identity)
    requires |list'| == |list|
    requires forall i :: 0 <= i < |list| ==>
      list'[i].Marker? == list[i].Marker? && EntryKind(h', list'[i]) == EntryKind(h, list[i])
    ensures Count(h', list', id) == Count(h, list, id)
  {
    if list != [] { CountReplace(h, list[..|list| - 1], h', list'[..|list| - 1], id); }
  }

  lemma ReplaceKeepsAtMostThree(h: Heap, list: seq<Entry>, h': Heap, list': seq<Entry>)
    requires AtMostThree(h, list) && |list'| == |list|
    requires forall i :: 0 <= i < |list| ==>
      list'[i].Marker? == list[i].Marker? && EntryKind(h', list'[i]) == EntryKind(h, list[i])
    ensures AtMostThree(h', list')
  {
    forall p, id | 0 <= p <= |list'| ensures Count(h', list'[..p], id) <= 3 {
      CountReplace(h, list[..p], h', list'[..p], id);
    }
  }

  /** Four identical entries with no marker between them never occur. */
  lemma NoFourAlike(h: Heap, list: seq<Entry>, a: nat, b: nat, c: nat, d: nat)
    requires AtMostThree(h, list) && a < b < c < d < |list|
    requires forall j :: a <= j <= d ==> list[j].Ref?
    ensures var id := (i: nat) requires i < |list| => IdentityOf(EntryKind(h, list[i]));
            !(id(a) == id(b) == id(c) == id(d))
  {
    var id := IdentityOf(EntryKind(h, list[a]));
    CountGrows(h, list, a, b, id);
    CountGrows(h, list, b, c, id);
    CountGrows(h, list, c, d, id);
    assert list[..a + 1][..a] == list[..a];
    assert Count(h, list[..d + 1], id) <= 3;
  }

  /** Without a marker in between, the count up to and including `j` has grown by `j` itself. */
  lemma {:induction false} CountGrows(h: Heap, list: seq<Entry>, i: nat, j: nat, id: Identity)
    requires i < j < |list| && forall t :: i <= t <= j ==> list[t].Ref?
    ensures Count(h, list[..j + 1], id) >=
            Count(h, list[..i + 1], id) + if IdentityOf(EntryKind(h, list[j])) == id then 1 else 0
    decreases j
  {
    assert list[..j + 1][..j] == list[..j];
    if i + 1 < j { CountGrows(h, list, i, j - 1, id); }
  }

  // ---------------------------------------------------------------------------------------
  // Reconstruction

  /** The first entry after the last one that is a marker or open. */
  function RebuildStart(open: seq<NodeId>, list: seq<Entry>): (r: nat)
    ensures r <= |list|
    ensures r > 0 ==> list[r - 1].Marker? || list[r - 1].id in open
    ensures forall j :: r <= j < |list| ==> list[j].Ref? && list[j].id !in open
  {
    if list == [] then 0
    else
      var e := list[|list| - 1];
      if e.Marker? || e.id in open then |list| else RebuildStart(open, list[..|list| - 1])
  }

  /** Steps 7 to 10 for entry `i`: a clone becomes the current node and takes its place. */
  function RebuildOne(st: State, i: nat): (r: State)
    requires i < |st.formatting| && st.open != []
    ensures |r.formatting| == |st.formatting| && r.open != []
    ensures forall j :: 0 <= j < |st.formatting| && j != i ==> r.formatting[j] == st.formatting[j]
  {
    if st.formatting[i].Marker? then st
    else
      var c := st.nextId;
      State(Attach(Add(st.nodes, c, KindOf(st.nodes, st.formatting[i].id)), st.open[|st.open| - 1], c), c + 1,
            st.open + [c], st.formatting[i := Ref(c)])
  }

  function RebuildFrom(st: State, i: nat): (r: State)
    requires st.open != []
    ensures |r.formatting| == |st.formatting|
    decreases |st.formatting| - i
  {
    if i >= |st.formatting| then st else RebuildFrom(RebuildOne(st, i), i + 1)
  }

  /** `reconstruct_active_formatting_elements`. */
  function Reconstruct(st: State): (r: State)
    requires st.open != []
    ensures |r.formatting| == |st.formatting|
  {
    RebuildFrom(st, RebuildStart(st.open, st.formatting))
  }

  /** A new node below the current node may become the current node. */
  lemma PushOrdered(h: Heap, stack: seq<NodeId>, c: NodeId, kind: Kind)
    requires WellFormed(h) && Ordered(h, stack) && AllTags(h, stack) && stack != [] && c !in h
    ensures var h' := Attach(Add(h, c, kind), stack[|stack| - 1], c);
            WellFormed(h') && Ordered(h', stack + [c])
  {
    hide ChildrenLinked, ParentsLinked, LeavesBare, Acyclic, Attach, Add;
    var w := stack[|stack| - 1];
    var h', s := Attach(Add(h, c, kind), w, c), stack + [c];
    GraftFresh(h, w, c, kind, c);
    forall i | 0 <= i < |s| ensures s[i] in h' {
      if i < |stack| { GraftFresh(h, w, c, kind, stack[i]); }
    }
    forall i, j | 0 <= i < j < |s| ensures !Under(h', s[i], s[j]) {
      GraftFresh(h, w, c, kind, stack[i]);
      if j < |stack| { assert !Under(h, stack[i], stack[j]); } else { OutsideHeap(h, stack[i], c); }
    }
  }

  lemma PushKeeps(h: Heap, w: NodeId, c: NodeId, kind: Kind)
    requires c !in h && w in h
    ensures var h' := Attach(Add(h, c, kind), w, c);
            && Keeps(h, h') && h'.Keys == h.Keys + {c} && h'[c].kind == kind && h'[c].parent == Some(w)
            && (forall x :: x in h ==> h'[x].parent == h[x].parent)
  {
  }

  lemma PushRoot(h: Heap, w: NodeId, c: NodeId, kind: Kind, x: NodeId)
    requires WellFormed(h) && w in h && h[w].kind.HasChildren() && c !in h && (x in h || x == c)
    ensures var h' := Attach(Add(h, c, kind), w, c);
            WellFormed(h') && x in h' && RootOf(h', x) == RootOf(h, if x == c then w else x)
  {
    hide ChildrenLinked, ParentsLinked, LeavesBare, Acyclic, Attach, Add;
    GraftFresh(h, w, c, kind, x);
  }

  lemma PushConserves(h: Heap, w: NodeId, c: NodeId, kind: Kind, doc: NodeId)
    requires WellFormed(h) && w in h && h[w].kind.HasChildren() && RootOf(h, w) == doc && c !in h
    ensures Conserves(h, Attach(Add(h, c, kind), w, c), doc)
  {
    hide ChildrenLinked, ParentsLinked, LeavesBare, Acyclic, Attach, Add, Keeps, RootOf;
    var h' := Attach(Add(h, c, kind), w, c);
    PushKeeps(h, w, c, kind);
    PushRoot(h, w, c, kind, c);
    forall x | x in h ensures x in h' && RootOf(h', x) == RootOf(h, x) { PushRoot(h, w, c, kind, x); }
  }

  lemma PushAttached(st: State, doc: NodeId, kind: Kind)
    requires WellFormed(st.nodes) && AllTags(st.nodes, st.open) && AllAttached(st.nodes, st.open, doc)
    requires st.open != [] && st.nextId !in st.nodes
    ensures var h' := Attach(Add(st.nodes, st.nextId, kind), st.open[|st.open| - 1], st.nextId);
            WellFormed(h') && AllAttached(h', st.open + [st.nextId], doc)
  {
    hide ChildrenLinked, ParentsLinked, LeavesBare, Acyclic, Attach, Add, RootOf;
    var w, c := st.open[|st.open| - 1], st.nextId;
    var h', s := Attach(Add(st.nodes, c, kind), w, c), st.open + [c];
    PushRoot(st.nodes, w, c, kind, c);
    forall i | 0 <= i < |s| ensures s[i] in h' && RootOf(h', s[i]) == doc {
      PushRoot(st.nodes, w, c, kind, s[i]);
    }
  }

  lemma DocumentStays(h: Heap, h': Heap, doc: NodeId)
    requires Conserves(h, h', doc) && doc in h && h[doc].parent == None
    ensures doc in h' && h'[doc].kind == h[doc].kind && h'[doc].parent == None
  {
    hide ChildrenLinked, ParentsLinked, LeavesBare, Acyclic;
    RootPathOf(h, doc);
    RootIsParentless(h', doc);
  }

  /** Inserting a new element below the current node and pushing it keeps the state valid. */
  lemma PushValid(st: State, doc: NodeId, kind: Kind)
    requires Valid(st, doc) && st.open != [] && kind.IsTag()
    ensures var c := st.nextId;
            var h' := Attach(Add(st.nodes, c, kind), st.open[|st.open| - 1], c);
            Valid(State(h', c + 1, st.open + [c], st.formatting), doc) && Conserves(st.nodes, h', doc)
  {
    hide ChildrenLinked, ParentsLinked, LeavesBare, Acyclic, Attach, Add, Ordered, AllAttached, RootOf, Conserves;
    var w, c := st.open[|st.open| - 1], st.nextId;
    assert w in st.nodes && RootOf(st.nodes, w) == doc by { AttachedAt(st.nodes, st.open, doc, |st.open| - 1); }
    PushOrdered(st.nodes, st.open, c, kind);
    PushKeeps(st.nodes, w, c, kind);
    PushConserves(st.nodes, w, c, kind, doc);
    PushAttached(st, doc, kind);
    DocumentStays(st.nodes, Attach(Add(st.nodes, c, kind), w, c), doc);
  }

  lemma AttachedAt(h: Heap, stack: seq<NodeId>, doc: NodeId, i: nat)
    requires Acyclic(h) && AllAttached(h, stack, doc) && i < |stack|
    ensures stack[i] in h && RootOf(h, stack[i]) == doc
  {
  }

  lemma RebuildOneValid(st: State, doc: NodeId, i: nat)
    requires Valid(st, doc) && st.open != [] && i < |st.formatting| && st.formatting[i].Ref?
    ensures var r := RebuildOne(st, i); Valid(r, doc) && Conserves(st.nodes, r.nodes, doc)
  {
    hide WellFormed, Ordered, AllAttached, Conserves, Attach, Add;
    var n := st.formatting[i].id;
    PushValid(st, doc, st.nodes[n].kind);
    PushKeeps(st.nodes, st.open[|st.open| - 1], st.nextId, st.nodes[n].kind);
  }

  lemma {:induction false} RebuildFromValid(st: State, doc: NodeId, i: nat)
    requires Valid(st, doc) && st.open != [] && forall j :: i <= j < |st.formatting| ==> st.formatting[j].Ref?
    ensures var r := RebuildFrom(st, i); Valid(r, doc) && Conserves(st.nodes, r.nodes, doc)
    decreases |st.formatting| - i
  {
    hide Valid, Conserves;
    if i < |st.formatting| {
      RebuildOneValid(st, doc, i);
      RebuildFromValid(RebuildOne(st, i), doc, i + 1);
      ConservesTrans(st.nodes, RebuildOne(st, i).nodes, RebuildFrom(st, i).nodes, doc);
    } else {
      ValidSelf(st, doc);
    }
  }

  lemma ValidSelf(st: State, doc: NodeId)
    requires Valid(st, doc)
    ensures Conserves(st.nodes, st.nodes, doc)
  {
  }

  /** `n` consecutive identifiers. */
  function Ids(from: NodeId, n: nat): (r: seq<NodeId>)
    ensures |r| == n
  {
    seq(n, i => from + i)
  }

  /** The clone made for entry `i` when rebuilding starts at `s`: same kind, below the clone
      before it or, for the first one, below the former current node. */
  ghost predicate Rebuilt(st: State, r: State, s: nat, i: nat)
    requires s <= i < |st.formatting| && |r.formatting| == |st.formatting| && st.open != []
  {
    var c := st.nextId + (i - s);
    && r.formatting[i] == Ref(c) && c !in st.nodes && c in r.nodes
    && r.nodes[c].kind == EntryKind(st.nodes, st.formatting[i])
    && r.nodes[c].parent == Some(if i == s then st.open[|st.open| - 1] else c - 1)
  }

  ghost predicate SameLinks(h: Heap, h': Heap) {
    forall x {:trigger h'[x]} {:trigger x in h'} :: x in h ==> x in h' && h'[x].kind == h[x].kind && h'[x].parent == h[x].parent
  }

  lemma RebuildOneResult(st: State, doc: NodeId, s: nat)
    requires Valid(st, doc) && st.open != [] && s < |st.formatting| && st.formatting[s].Ref?
    ensures var r := RebuildOne(st, s);
            && SameLinks(st.nodes, r.nodes) && Rebuilt(st, r, s, s) && r.nextId == st.nextId + 1
            && r.open == st.open + [st.nextId] && r.formatting == st.formatting[s := Ref(st.nextId)]
  {
    hide WellFormed, Ordered, AllAttached, Attach, Add;
    PushKeeps(st.nodes, st.open[|st.open| - 1], st.nextId, st.nodes[st.formatting[s].id].kind);
  }

  lemma RebuiltStep(st: State, st1: State, r: State, s: nat, i: nat)
    requires s <= i < |st.formatting| && |st1.formatting| == |st.formatting| == |r.formatting| && st.open != []
    requires st1.formatting == st.formatting[s := Ref(st.nextId)] && Rebuilt(st, st1, s, s)
    requires st1.nextId == st.nextId + 1 && st1.open == st.open + [st.nextId]
    requires SameLinks(st.nodes, st1.nodes) && SameLinks(st1.nodes, r.nodes)
    requires r.formatting[..s + 1] == st1.formatting[..s + 1] && (i > s ==> Rebuilt(st1, r, s + 1, i))
    requires st.formatting[i].Ref? && st.formatting[i].id in st.nodes && forall x :: x in st.nodes ==> x < st.nextId
    ensures Rebuilt(st, r, s, i)
  {
    if i == s {
      assert r.formatting[..s + 1][s] == st1.formatting[..s + 1][s];
    }
  }

  lemma SameLinksSelf(h: Heap)
    ensures SameLinks(h, h)
  {
  }

  lemma SameLinksTrans(a: Heap, b: Heap, c: Heap)
    requires SameLinks(a, b) && SameLinks(b, c)
    ensures SameLinks(a, c)
  {
    forall x | x in a ensures x in c && c[x].kind == a[x].kind && c[x].parent == a[x].parent { assert x in b; }
  }

  lemma {:induction false} RebuildFromResult(st: State, doc: NodeId, s: nat)
    requires Valid(st, doc) && st.open != [] && s <= |st.formatting|
    requires forall j :: s <= j < |st.formatting| ==> st.formatting[j].Ref?
    ensures var r, n := RebuildFrom(st, s), |st.formatting| - s;
            && SameLinks(st.nodes, r.nodes) && r.nextId == st.nextId + n && r.open == st.open + Ids(st.nextId, n)
            && r.formatting[..s] == st.formatting[..s]
            && forall i :: s <= i < |st.formatting| ==> Rebuilt(st, r, s, i)
    decreases |st.formatting| - s
  {
    hide Valid, RebuildOne, SameLinks, Rebuilt;
    SameLinksSelf(st.nodes);
    if s < |st.formatting| {
      var st1 := RebuildOne(st, s);
      RebuildOneValid(st, doc, s);
      RebuildOneResult(st, doc, s);
      RebuildFromResult(st1, doc, s + 1);
      var r, n := RebuildFrom(st1, s + 1), |st.formatting| - s;
      SameLinksTrans(st.nodes, st1.nodes, r.nodes);
      assert Ids(st.nextId, n) == [st.nextId] + Ids(st.nextId + 1, n - 1);
      assert r.formatting[..s] == r.formatting[..s + 1][..s] == st.formatting[..s];
      forall i | s <= i < |st.formatting| ensures Rebuilt(st, r, s, i) {
        ValidListed(st, doc, i);
        RebuiltStep(st, st1, r, s, i);
      }
    }
  }

  lemma ValidListed(st: State, doc: NodeId, i: nat)
    requires Valid(st, doc) && i < |st.formatting| && st.formatting[i].Ref?
    ensures st.formatting[i].id in st.nodes && st.nextId !in st.nodes && forall x :: x in st.nodes ==> x < st.nextId
  {
  }

  /** Reconstruction keeps the list's length and its entries up to the last marker or open one,
      puts a new clone in place of each later entry, and pushes the clones in list order. */
  lemma ReconstructResult(st: State, doc: NodeId)
    requires Valid(st, doc) && st.open != []
    ensures var r, s := Reconstruct(st), RebuildStart(st.open, st.formatting);
            var n := |st.formatting| - s;
            && Valid(r, doc) && Conserves(st.nodes, r.nodes, doc) && SameLinks(st.nodes, r.nodes)
            && r.open == st.open + Ids(st.nextId, n) && r.formatting[..s] == st.formatting[..s]
            && (forall i :: s <= i < |st.formatting| ==> Rebuilt(st, r, s, i))
            && (forall i :: 0 <= i < |st.formatting| ==>
                  r.formatting[i].Marker? == st.formatting[i].Marker?
                  && EntryKind(r.nodes, r.formatting[i]) == EntryKind(st.nodes, st.formatting[i]))
  {
    hide Conserves, WellFormed, Ordered, AllAttached;
    var r, s := Reconstruct(st), RebuildStart(st.open, st.formatting);
    RebuildFromValid(st, doc, s);
    RebuildFromResult(st, doc, s);
    forall i | 0 <= i < |st.formatting|
      ensures r.formatting[i].Marker? == st.formatting[i].Marker?
      ensures EntryKind(r.nodes, r.formatting[i]) == EntryKind(st.nodes, st.formatting[i])
    {
      if i < s {
        assert r.formatting[..s][i] == st.formatting[..s][i];
        if st.formatting[i].Ref? { ValidListed(st, doc, i); }
      } else {
        assert Rebuilt(st, r, s, i);
      }
    }
  }

  /** Reconstructing twice is reconstructing once. */
  lemma ReconstructIdempotent(st: State, doc: NodeId)
    requires Valid(st, doc) && st.open != []
    ensures Reconstruct(st).open != [] && Reconstruct(Reconstruct(st)) == Reconstruct(st)
  {
    hide Valid, Conserves, SameLinks, EntryKind, Reconstruct, RebuildStart, Rebuilt;
    ReconstructResult(st, doc);
    var r, s := Reconstruct(st), RebuildStart(st.open, st.formatting);
    var n := |st.formatting|;
    if s < n {
      assert Rebuilt(st, r, s, n - 1);
      LastRebuilt(st, r, s);
    } else {
      assert r.formatting == r.formatting[..s] == st.formatting[..s] == st.formatting;
      assert Ids(st.nextId, 0) == [] && r.open == st.open;
    }
    LastOpen(r.open, r.formatting);
    NothingToRebuild(r);
  }

  /** With its last entry a marker or open, a list has nothing to rebuild. */
  lemma LastOpen(open: seq<NodeId>, list: seq<Entry>)
    requires list == [] || list[|list| - 1].Marker? || list[|list| - 1].id in open
    ensures RebuildStart(open, list) == |list|
  {}

  lemma LastRebuilt(st: State, r: State, s: nat)
    requires st.open != [] && s < |st.formatting| == |r.formatting| && Rebuilt(st, r, s, |st.formatting| - 1)
    requires r.open == st.open + Ids(st.nextId, |st.formatting| - s)
    ensures r.formatting[|r.formatting| - 1].Ref? && r.formatting[|r.formatting| - 1].id in r.open
  {
    hide EntryKind;
    var n := |st.formatting| - s;
    assert Ids(st.nextId, n)[n - 1] == st.nextId + (n - 1);
    assert r.open[|r.open| - 1] == st.nextId + (n - 1);
  }

  lemma NothingToRebuild(st: State)
    requires st.open != [] && RebuildStart(st.open, st.formatting) == |st.formatting|
    ensures Reconstruct(st) == st
  {
    hide RebuildOne;
  }

  // ---------------------------------------------------------------------------------------
  // Runs

  /** One step of the list: an addition, the removal of an element, a clearing up to a marker, a
      reconstruction, or tree building that leaves the list alone. Heaps only grow. */
  ghost predicate ListStep(st: State, st': State) {
    || (Keeps(st.nodes, st'.nodes) && st'.formatting == st.formatting)
    || (st'.nodes == st.nodes && st'.formatting == AddEntry(st.nodes, st.formatting, Marker))
    || (st'.nodes == st.nodes && (exists n :: n in st.nodes && NamesOk(st.nodes[n].kind) &&
                                              st'.formatting == AddEntry(st.nodes, st.formatting, Ref(n))))
    || (st'.nodes == st.nodes && (exists q :: 0 <= q < |st.formatting| && st.formatting[q].Ref? &&
                                              st'.formatting == RemoveAt(st.formatting, q)))
    || (st'.nodes == st.nodes && st'.formatting == ClearToMarker(st.formatting))
    || (exists doc :: Valid(st, doc) && st.open != [] && st' == Reconstruct(st))
  }

  /** What every step keeps: listed elements exist, their names are distinct, and no segment
      holds four alike. */
  ghost predicate ListInv(st: State) {
    && (forall i :: 0 <= i < |st.formatting| && st.formatting[i].Ref? ==> st.formatting[i].id in st.nodes)
    && ListNamesOk(st.nodes, st.formatting) && AtMostThree(st.nodes, st.formatting)
  }

  lemma AddKeepsInv(st: State, e: Entry)
    requires ListInv(st) && NamesOk(EntryKind(st.nodes, e)) && (e.Ref? ==> e.id in st.nodes)
    ensures ListInv(st.(formatting := AddEntry(st.nodes, st.formatting, e)))
  {
    hide AtMostThree, NamesOk, EntryKind, AddEntry;
    AddKeepsAtMostThree(st.nodes, st.formatting, e);
    var r := AddEntry(st.nodes, st.formatting, e);
    forall i | 0 <= i < |r|
      ensures (r[i].Ref? ==> r[i].id in st.nodes) && NamesOk(EntryKind(st.nodes, r[i]))
    {
      AddedAmong(st.nodes, st.formatting, e, i);
    }
  }

  /** An entry of the longer list is the new one or an old one. */
  lemma AddedAmong(h: Heap, list: seq<Entry>, e: Entry, i: nat)
    requires i < |AddEntry(h, list, e)|
    ensures AddEntry(h, list, e)[i] == e || exists j :: 0 <= j < |list| && AddEntry(h, list, e)[i] == list[j]
  {
    hide CountIdentical, Unmarked, Identical, EntryKind;
    var t := CountIdentical(h, list, EntryKind(h, e));
    if t.count >= 3 && i < |list| - 1 {
      assert RemoveAt(list, t.earliest)[i] == list[if i < t.earliest then i else i + 1];
    }
  }

  lemma RemoveKeepsInv(st: State, q: nat)
    requires ListInv(st) && q < |st.formatting| && st.formatting[q].Ref?
    ensures ListInv(st.(formatting := RemoveAt(st.formatting, q)))
  {
    hide AtMostThree, NamesOk;
    RemoveKeepsAtMostThree(st.nodes, st.formatting, q);
  }

  lemma SameKindsKeepInv(st: State, st': State)
    requires ListInv(st) && |st'.formatting| == |st.formatting|
    requires forall i :: 0 <= i < |st.formatting| ==>
      && st'.formatting[i].Marker? == st.formatting[i].Marker?
      && (st'.formatting[i].Ref? ==> st'.formatting[i].id in st'.nodes)
      && EntryKind(st'.nodes, st'.formatting[i]) == EntryKind(st.nodes, st.formatting[i])
    ensures ListInv(st')
  {
    hide AtMostThree, NamesOk;
    ReplaceKeepsAtMostThree(st.nodes, st.formatting, st'.nodes, st'.formatting);
  }

  lemma StepKeepsInv(st: State, st': State)
    requires ListInv(st) && ListStep(st, st')
    ensures ListInv(st')
  {
    hide AtMostThree, NamesOk, AddEntry, ClearToMarker, Reconstruct, Valid, RemoveAt;
    if Keeps(st.nodes, st'.nodes) && st'.formatting == st.formatting {
      SameKindsKeepInv(st, st');
    } else if st'.nodes == st.nodes && st'.formatting == AddEntry(st.nodes, st.formatting, Marker) {
      MarkerNamesOk();
      AddKeepsInv(st, Marker);
      SameKindsKeepInv(st.(formatting := st'.formatting), st');
    } else if n :| n in st.nodes && NamesOk(st.nodes[n].kind) && st'.nodes == st.nodes
                   && st'.formatting == AddEntry(st.nodes, st.formatting, Ref(n)) {
      AddKeepsInv(st, Ref(n));
      SameKindsKeepInv(st.(formatting := st'.formatting), st');
    } else if q :| 0 <= q < |st.formatting| && st.formatting[q].Ref? && st'.nodes == st.nodes
                   && st'.formatting == RemoveAt(st.formatting, q) {
      RemoveKeepsInv(st, q);
      SameKindsKeepInv(st.(formatting := st'.formatting), st');
    } else if st'.nodes == st.nodes && st'.formatting == ClearToMarker(st.formatting) {
      PrefixKeepsAtMostThree(st.nodes, st.formatting, |ClearToMarker(st.formatting)|);
    } else {
      var doc :| Valid(st, doc) && st.open != [] && st' == Reconstruct(st);
      ReconstructResult(st, doc);
      ReconstructListed(st, doc);
      SameKindsKeepInv(st, st');
    }
  }

  lemma MarkerNamesOk()
    ensures NamesOk(EntryKind(map[], Marker)) && forall h :: EntryKind(h, Marker) == MARKER_KIND
  {
  }

  lemma ReconstructListed(st: State, doc: NodeId)
    requires Valid(st, doc) && st.open != []
    ensures var r := Reconstruct(st);
            forall i :: 0 <= i < |r.formatting| && r.formatting[i].Ref? ==> r.formatting[i].id in r.nodes
  {
    hide WellFormed, Ordered, AllAttached, Conserves;
    ReconstructResult(st, doc);
  }

  /** In every run from an empty list, no marker-delimited segment ever holds four identical
      elements. */
  lemma {:induction false} RunKeepsAtMostThree(run: seq<State>, i: nat)
    requires i < |run| && run[0].formatting == []
    requires forall k :: 0 <= k < |run| - 1 ==> ListStep(run[k], run[k + 1])
    ensures AtMostThree(run[i].nodes, run[i].formatting) && ListInv(run[i])
  {
    hide ListStep;
    if i > 0 {
      RunKeepsAtMostThree(run, i - 1);
      assert ListStep(run[i - 1], run[i - 1 + 1]);
      StepKeepsInv(run[i - 1], run[i]);
    }
  }
}
