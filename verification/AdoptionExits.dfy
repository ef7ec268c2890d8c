/** How the adoption agency ends: what it returns on each of its exits, in terms of the list, the stack and
    the tag alone, and how many rounds come before. */
module AdoptionExits {
  import opened Options
  import opened Sequences
  import opened Dom
  import opened OpenStack
  import opened Adoption
  import opened Agency

  /** The entry at `t` is the last behind the last marker whose element has the tag. */
  ghost predicate LastTagged(h: Heap, list: seq<Entry>, tag: nat, t: nat) {
    && Unmarked(list, t) && HtmlTagIs(h, list[t].id, tag)
    && forall j :: t < j < |list| ==> !(list[j].Ref? && HtmlTagIs(h, list[j].id, tag))
  }

  lemma FoundIsLast(h: Heap, list: seq<Entry>, tag: nat)
    ensures var t := FindFormatting(h, list, tag);
            if t == -1 then forall j: nat :: !LastTagged(h, list, tag, j) else LastTagged(h, list, tag, t)
  {
    hide HtmlTagIs;
  }

  lemma OneTagged(h: Heap, list: seq<Entry>, tag: nat, t: nat, u: nat)
    requires LastTagged(h, list, tag, t) && LastTagged(h, list, tag, u)
    ensures t == u
  {
    hide HtmlTagIs;
  }

  /** The list without its first entry for an element. */
  ghost predicate Without(list: seq<Entry>, n: NodeId, r: seq<Entry>) {
    exists q :: 0 <= q < |list| && list[q] == Ref(n) && Ref(n) !in list[..q] && r == list[..q] + list[q + 1..]
  }

  /** An element with the tag is in scope. */
  ghost predicate TagInScope(st: State, tag: nat, sets: TagSets) {
    exists u: nat :: ScopeFound(st.nodes, st.open, [tag], false, sets.scope, u)
  }

  /** No special element at or above position `k` of the stack. */
  ghost predicate NoneSpecial(st: State, k: nat, sets: TagSets) {
    forall j :: k <= j < |st.open| ==> !NameIn(st.nodes, st.open[j], sets.special)
  }

  /** The pending text becomes the last child of the current node. */
  ghost predicate Flushed(st: State, pending: Option<Kind>, r: State) {
    r.nodes == Flush(st, pending).nodes && r.nextId == Flush(st, pending).nextId
  }

  // ---------------------------------------------------------------------------------------
  // The exits of a turn

  /** Step 5 finds nothing. */
  ghost predicate FindsNone(st: State, tag: nat) {
    forall t: nat :: !LastTagged(st.nodes, st.formatting, tag, t)
  }

  /** Step 6: the element found is no longer open; its entry goes. */
  ghost predicate Unlists(st: State, tag: nat, t: nat, r: State) {
    && LastTagged(st.nodes, st.formatting, tag, t) && st.formatting[t].id !in st.open
    && Without(st.formatting, st.formatting[t].id, r.formatting) && r == st.(formatting := r.formatting)
  }

  /** Step 7: it is open, but none with the tag is in scope. */
  ghost predicate OutOfScope(st: State, tag: nat, sets: TagSets, t: nat) {
    LastTagged(st.nodes, st.formatting, tag, t) && st.formatting[t].id in st.open && !TagInScope(st, tag, sets)
  }

  /** Steps 9 and 10: nothing special is open from it upwards; the stack is cut below it, and its entry
      goes. */
  ghost predicate Pops(st: State, pending: Option<Kind>, tag: nat, sets: TagSets, t: nat, k: nat, r: State) {
    && LastTagged(st.nodes, st.formatting, tag, t) && k < |st.open| && st.open[k] == st.formatting[t].id
    && TagInScope(st, tag, sets) && NoneSpecial(st, k, sets)
    && Flushed(st, pending, r) && r.open == st.open[..k] && Without(st.formatting, st.open[k], r.formatting)
  }

  /** A round: the first special element above it is the furthest block. */
  ghost predicate Rounds(st: State, tag: nat, sets: TagSets, t: nat, k: nat, m: nat, r: State) {
    && LastTagged(st.nodes, st.formatting, tag, t) && 0 < k < m < |st.open| && st.open[k] == st.formatting[t].id
    && TagInScope(st, tag, sets) && NameIn(st.nodes, st.open[m], sets.special)
    && (forall j :: k <= j < m ==> !NameIn(st.nodes, st.open[j], sets.special))
    && r == Round(st, k, m)
  }

  /** A turn that ends the algorithm, with the state and the text buffer it leaves. */
  ghost predicate Exits(st: State, pending: Option<Kind>, tag: nat, sets: TagSets, r: State, rest: Option<Kind>) {
    || (FindsNone(st, tag) && r == st && rest == pending)
    || (exists t: nat :: Unlists(st, tag, t, r) && rest == pending)
    || (exists t: nat :: OutOfScope(st, tag, sets, t) && r == st && rest == pending)
    || (exists t: nat, k: nat :: Pops(st, pending, tag, sets, t, k, r) && rest == None)
  }

  /** A turn that goes on to the next. */
  ghost predicate GoesOn(st: State, tag: nat, sets: TagSets, r: State) {
    exists t: nat, k: nat, m: nat :: Rounds(st, tag, sets, t, k, m, r)
  }

  lemma RemovedFirst(list: seq<Entry>, n: NodeId)
    requires Ref(n) in list
    ensures Without(list, n, RemoveFirst(list, Ref(n)))
  {
  }

  /** What a turn does, on each of its exits and with a round. */
  lemma TurnIs(st: State, pending: Option<Kind>, doc: NodeId, tag: nat, sets: TagSets)
    requires Callable(st, pending, doc, tag, sets)
    ensures match Turn(st, pending, tag, sets)
            case Done(r) => Exits(st, pending, tag, sets, r, if TurnPops(st, tag, sets) then None else pending)
            case Again(r) => GoesOn(st, tag, sets, r)
  {
    hide Valid, Round, InScope, Flush, HtmlTagIs, NameIn, RemoveFirst, LastTagged, Without, ScopeFound;
    TurnPositions(st, pending, doc, tag, sets);
    FoundIsLast(st.nodes, st.formatting, tag);
    ScopeMeaning(st.nodes, st.open, [tag], false, sets.scope);
    var t := FindFormatting(st.nodes, st.formatting, tag);
    if t != -1 {
      var r := Turn(st, pending, tag, sets).st;
      var n := st.formatting[t].id;
      assert st.formatting[t] == Ref(n);
      RemovedFirst(st.formatting, n);
      var k := IndexOf(st.open, n);
      if k == -1 {
        assert Unlists(st, tag, t, r);
      } else if !TagInScope(st, tag, sets) {
        assert OutOfScope(st, tag, sets, t);
      } else {
        var m := FurthestBlock(st.nodes, st.open, k, sets.special);
        if m == -1 {
          assert Pops(st, pending, tag, sets, t, k, r);
        } else {
          assert Rounds(st, tag, sets, t, k, m, r);
        }
      }
    }
  }

  // ---------------------------------------------------------------------------------------
  // The whole algorithm

  /** From one state to the next by rounds. */
  ghost predicate Trail(trail: seq<State>, tag: nat, sets: TagSets) {
    trail != [] && forall i {:trigger trail[i + 1]} :: 0 <= i < |trail| - 1 ==> GoesOn(trail[i], tag, sets, trail[i + 1])
  }

  lemma {:induction false} TurnsTrail(st: State, pending: Option<Kind>, doc: NodeId, tag: nat, sets: TagSets, n: nat)
    returns (trail: seq<State>)
    requires Callable(st, pending, doc, tag, sets)
    ensures Trail(trail, tag, sets) && trail[0] == st && |trail| <= n + 1
    ensures var r, rest, last := Turns(st, pending, tag, sets, n), TurnsPending(st, pending, tag, sets, n), trail[|trail| - 1];
            if |trail| == n + 1 then r == last && rest == pending else Exits(last, pending, tag, sets, r, rest)
    decreases n
  {
    hide Valid, Turn, Conserves, Callable, Exits, GoesOn, TurnPops;
    trail := [st];
    if n > 0 {
      TurnIs(st, pending, doc, tag, sets);
      TurnKeeps(st, pending, doc, tag, sets);
      var o := Turn(st, pending, tag, sets);
      if o.Again? {
        var more := TurnsTrail(o.st, pending, doc, tag, sets, n - 1);
        trail := [st] + more;
        assert forall i :: 0 < i < |trail| ==> trail[i] == more[i - 1];
        forall i | 0 <= i < |trail| - 1 ensures GoesOn(trail[i], tag, sets, trail[i + 1]) {
          if i > 0 {
            var j := i - 1;
            assert GoesOn(more[j], tag, sets, more[j + 1]);
          }
        }
      }
    }
  }

  /** Step 1: the current node has the tag and is not listed. */
  ghost predicate AtOnce(st: State, tag: nat) {
    && st.open != [] && HtmlTagIs(st.nodes, st.open[|st.open| - 1], tag)
    && Ref(st.open[|st.open| - 1]) !in st.formatting
  }

  /** The whole algorithm. Step 1 takes the current node off, and nothing else. Otherwise rounds follow
      each other, until a turn ends the algorithm by one of its exits or eight of them have run. */
  lemma AdoptIs(st: State, pending: Option<Kind>, doc: NodeId, tag: nat, sets: TagSets) returns (trail: seq<State>)
    requires Callable(st, pending, doc, tag, sets)
    ensures var r, rest := Adopt(st, pending, tag, sets), AdoptPending(st, pending, tag, sets);
            if AtOnce(st, tag) then
              && Flushed(st, pending, r) && r.open == st.open[..|st.open| - 1] && r.formatting == st.formatting && rest == None
            else
              && Trail(trail, tag, sets) && trail[0] == st && |trail| <= 9
              && var last := trail[|trail| - 1];
                 if |trail| == 9 then r == last && rest == pending else Exits(last, pending, tag, sets, r, rest)
  {
    hide Valid, Turns, TurnsPending, Flush, Exits, Trail;
    trail := [st];
    if !AtOnce(st, tag) { trail := TurnsTrail(st, pending, doc, tag, sets, 8); }
  }

  /** An end tag whose element has left the stack takes its entry off the list. */
  lemma AdoptUnlists(st: State, pending: Option<Kind>, doc: NodeId, tag: nat, sets: TagSets, t: nat)
    requires Callable(st, pending, doc, tag, sets) && !AtOnce(st, tag)
    requires LastTagged(st.nodes, st.formatting, tag, t) && st.formatting[t].id !in st.open
    ensures var r := Adopt(st, pending, tag, sets);
            Without(st.formatting, st.formatting[t].id, r.formatting) && r == st.(formatting := r.formatting)
  {
    hide Valid, Round, HtmlTagIs, NameIn, RemoveFirst, LastTagged, Without, InScope;
    FoundIsLast(st.nodes, st.formatting, tag);
    assert Unmarked(st.formatting, t) by { TaggedThere(st.nodes, st.formatting, tag, t); }
    var u := FindFormatting(st.nodes, st.formatting, tag);
    OneTagged(st.nodes, st.formatting, tag, t, u);
    assert st.formatting[t] == Ref(st.formatting[t].id);
    RemovedFirst(st.formatting, st.formatting[t].id);
    assert Turns(st, pending, tag, sets, 8) == Turn(st, pending, tag, sets).st;
  }

  lemma TaggedThere(h: Heap, list: seq<Entry>, tag: nat, t: nat)
    requires LastTagged(h, list, tag, t)
    ensures Unmarked(list, t)
  {}
}
