/** The parser state that tree construction updates in place, and its operations. */
module TreeConstruction {
  import opened Options
  import opened Dom
  import opened DomOps
  import opened OpenStack
  import opened Sequences
  import opened Adoption
  import opened Agency
  import opened FormattingList

  class TreeBuilder {
    const document: NodeId
    const sets: TagSets

    var nodes: Heap
    var nextId: NodeId
    var open: seq<NodeId>
    var formatting: seq<Entry>
    var pending: Option<Kind>      // the text node buffer; None when it is empty

    ghost function Value(): State
      reads this
    {
      State(nodes, nextId, open, formatting)
    }

    /** A document without children, nothing open. */
    constructor (sets: TagSets)
      ensures this.sets == sets && pending == None && open == [] && formatting == []
      ensures Adoption.Valid(Value(), document)
    {
      this.sets := sets;
      document := 0;
      nodes := map[0 := Node(Document, None, -1, [])];
      nextId := 1;
      open, formatting, pending := [], [], None;
      new;
      assert PathTo(nodes, 0, [0]);
      assert Rooted(nodes, 0);
    }

    // -------------------------------------------------------------------------------------
    // Links

    method AppendNode(parent: NodeId, node: NodeId)
      requires node in nodes && parent in nodes && node != parent
      requires nodes[node].parent == None && nodes[node].index == -1
      modifies this`nodes
      ensures nodes == Attach(old(nodes), parent, node)
    {
      nodes := nodes[node := nodes[node].(parent := Some(parent))];
      nodes := nodes[node := nodes[node].(index := |nodes[parent].children|)];
      nodes := nodes[parent := nodes[parent].(children := nodes[parent].children + [node])];
    }

    /** Insert at a position, or append when it is -1. */
    method InsertNode(node: NodeId, target: NodeId, index: int)
      requires Attachable(nodes, target, node)
      requires index == -1 || 0 <= index < |nodes[target].children|
      modifies this`nodes
      ensures nodes == if index == -1 then Attach(old(nodes), target, node)
                       else InsertChild(old(nodes), target, node, index)
      ensures WellFormed(nodes)
    {
      AttachableDiffer(nodes, target, node);
      ghost var h := nodes;
      assert h[node].parent == None;
      if index == -1 {
        AppendNode(target, node);
        AttachWellFormed(h, target, node);
        return;
      }
      nodes := nodes[node := nodes[node].(parent := Some(target), index := index)];
      nodes := nodes[target := nodes[target].(children := InsertAt(nodes[target].children, index, node))];
      RenumberFrom(target, index + 1);
      RenumberInsert(h, target, node, index);
      InsertPath(h, target, node, index, node);
    }

    /** The renumbering loop of `insert_node` and `remove_from_parent`. */
    method RenumberFrom(parent: NodeId, start: nat)
      requires parent in nodes && forall i :: 0 <= i < |nodes[parent].children| ==> nodes[parent].children[i] in nodes
      modifies this`nodes
      ensures nodes == Renumber(old(nodes), old(nodes)[parent].children, start)
    {
      ghost var h, kids := nodes, nodes[parent].children;
      var i := start;
      while i < |nodes[parent].children|
        invariant start <= i && nodes.Keys == h.Keys && nodes[parent].children == kids
        invariant Renumber(nodes, kids, i) == Renumber(h, kids, start)
      {
        var child := nodes[parent].children[i];
        nodes := nodes[child := nodes[child].(index := i)];
        i := i + 1;
      }
    }

    method RemoveFromParent(node: NodeId)
      requires WellFormed(nodes) && node in nodes
      modifies this`nodes
      ensures nodes == Detach(old(nodes), node)
    {
      if nodes[node].parent.None? { return; }
      ghost var h := nodes;
      var parent := nodes[node].parent.value;
      KidIndex(h, parent, node);
      NotOwnParent(h, node);
      var index := IndexOf(nodes[parent].children, node);
      nodes := nodes[parent := nodes[parent].(children := RemoveAt(nodes[parent].children, index))];
      nodes := nodes[node := nodes[node].(parent := None, index := -1)];
      assert nodes == Unlinked(h, node);
      RenumberFrom(parent, index);
      RenumberDetach(h, node);
    }

    /** A node of the same kind, without links. */
    method CloneNode(node: NodeId) returns (clone: NodeId)
      requires node in nodes
      modifies this`nodes, this`nextId
      ensures clone == old(nextId) && nextId == clone + 1
      ensures nodes == Add(old(nodes), clone, old(nodes)[node].kind)
    {
      clone := nextId;
      nodes := nodes[clone := Node(nodes[node].kind, None, -1, [])];
      nextId := nextId + 1;
    }

    // -------------------------------------------------------------------------------------
    // The current node and the text buffer

    /** `insert_text_token`, for a token with some text. */
    method InsertTextToken(token: Kind)
      requires token.Text? || token.Whitespace? || token.Cdata?
      requires token.text != "" && (pending.Some? ==> pending.value.Text? || pending.value.Whitespace? || pending.value.Cdata?)
      modifies this`pending
      ensures pending == Buffered(old(pending), token)
      ensures BufferedText(pending) == BufferedText(old(pending)) + token.text
    {
      var text := if pending.None? then token.text else pending.value.text + token.text;
      var kind := if pending.None? then Whitespace("") else pending.value;
      if token.Text? {
        kind := Text("");
      } else if token.Cdata? {
        kind := Cdata("");
      }
      pending := Some(kind.(text := text));
      assert "" + token.text == token.text;
    }

    method FlushText()
      requires nextId !in nodes && forall i :: 0 <= i < |open| ==> open[i] in nodes
      modifies this`nodes, this`nextId, this`pending
      ensures Value() == Flush(old(Value()), old(pending)) && pending == None
    {
      if pending.None? { return; }
      if open != [] {
        var text := nextId;
        nodes := nodes[text := Node(pending.value, None, -1, [])];
        nextId := nextId + 1;
        AppendNode(open[|open| - 1], text);
      }
      pending := None;
    }

    /** Flush, then take the current node off; nothing comes off an empty stack. */
    method PopCurrentNode() returns (node: Option<NodeId>)
      requires nextId !in nodes && forall i :: 0 <= i < |open| ==> open[i] in nodes
      modifies this`nodes, this`nextId, this`open, this`pending
      ensures pending == None
      ensures old(open) == [] ==> node == None && Value() == old(Value())
      ensures old(open) != [] ==>
        && Value() == PopTo(old(Value()), old(pending), |old(open)| - 1)
        && node == Some(old(open)[|old(open)| - 1])
    {
      FlushText();
      if open == [] { return None; }
      node := Some(open[|open| - 1]);
      open := open[..|open| - 1];
    }

    /** Pop until the stack has `k` elements: at least one pop. */
    method PopThrough(target: NodeId, ghost k: nat)
      requires k < |open| && open[k] == target && forall j :: k < j < |open| ==> open[j] != target
      requires FreshFrom(nodes, nextId) && AllTags(nodes, open)
      modifies this`nodes, this`nextId, this`open, this`pending
      ensures Value() == PopTo(old(Value()), old(pending), k) && pending == None
    {
      hide AllTags, FreshFrom, Popped, Flush;
      ghost var st, p := Value(), pending;
      PoppedSelf(st, p);
      while open[|open| - 1] != target
        invariant k < |open| <= |st.open| && open == st.open[..|open|] && Popped(st, p, Value(), pending)
        decreases |open|
      {
        assert open[k] == target;
        PoppedFresh(st, p, Value(), pending);
        ghost var st1, p1 := Value(), pending;
        var _ := PopCurrentNode();
        PoppedOne(st, p, st1, p1);
      }
      assert open[|open| - 1] == st.open[|open| - 1];
      PoppedFresh(st, p, Value(), pending);
      ghost var st2, p2 := Value(), pending;
      var _ := PopCurrentNode();
      PoppedLast(st, p, st2, p2, k);
    }

    // -------------------------------------------------------------------------------------
    // Implied end tags

    /** Pop elements whose end tag may be implied, but not the exception. */
    method GenerateImpliedEndTags(implied: set<QName>, exception: nat, ghost t: nat)
      requires t < |open| && (HtmlTagIs(nodes, open[t], exception) || !NameIn(nodes, open[t], implied))
      requires FreshFrom(nodes, nextId) && AllTags(nodes, open)
      modifies this`nodes, this`nextId, this`open, this`pending
      ensures t < |open| <= |old(open)| && Popped(old(Value()), old(pending), Value(), pending)
      ensures forall j :: |open| <= j < |old(open)| ==>
        NameIn(old(nodes), old(open)[j], implied) && !HtmlTagIs(old(nodes), old(open)[j], exception)
      ensures var n := |open| - 1;
              !NameIn(old(nodes), old(open)[n], implied) || HtmlTagIs(old(nodes), old(open)[n], exception)
    {
      hide AllTags, FreshFrom, Popped, NameIn, Flush;
      PoppedSelf(Value(), pending);
      ghost var st, p := Value(), pending;
      while NameIn(nodes, open[|open| - 1], implied) && !HtmlTagIs(nodes, open[|open| - 1], exception)
        invariant t < |open| <= |st.open| && Popped(st, p, Value(), pending)
        invariant forall j :: |open| <= j < |st.open| ==>
          NameIn(st.nodes, st.open[j], implied) && !HtmlTagIs(st.nodes, st.open[j], exception)
        decreases |open|
      {
        PoppedNames(st, p, Value(), pending, |open| - 1);
        PoppedNames(st, p, Value(), pending, t);
        PoppedFresh(st, p, Value(), pending);
        ghost var st1, p1 := Value(), pending;
        var _ := PopCurrentNode();
        PoppedOne(st, p, st1, p1);
      }
      PoppedNames(st, p, Value(), pending, |open| - 1);
    }

    /** Pop until the current node is the topmost element with the target's tag. */
    method PopToTarget(target: nat, ghost t: nat)
      requires t < |open| && HtmlTagIs(nodes, open[t], target)
      requires forall j :: t < j < |open| ==> !HtmlTagIs(nodes, open[j], target)
      requires FreshFrom(nodes, nextId) && AllTags(nodes, open)
      modifies this`nodes, this`nextId, this`open, this`pending
      ensures |open| == t + 1 && Popped(old(Value()), old(pending), Value(), pending)
    {
      hide AllTags, FreshFrom;
      ghost var st, p := Value(), pending;
      while !HtmlTagIs(nodes, open[|open| - 1], target)
        invariant t < |open| <= |st.open| && Popped(st, p, Value(), pending)
        decreases |open|
      {
        PoppedNames(st, p, Value(), pending, |open| - 1);
        PoppedFresh(st, p, Value(), pending);
        var _ := PopCurrentNode();
      }
      PoppedNames(st, p, Value(), pending, |open| - 1);
    }

    /** Close open elements up to and including the topmost one with the target's tag; the result
        tells whether only elements with implied end tags were in the way. */
    method ImplicitlyCloseTags(implied: set<QName>, target: nat, ghost t: nat) returns (clean: bool)
      requires t < |open| && HtmlTagIs(nodes, open[t], target)
      requires forall j :: t < j < |open| ==> !HtmlTagIs(nodes, open[j], target)
      requires FreshFrom(nodes, nextId) && AllTags(nodes, open)
      modifies this`nodes, this`nextId, this`open, this`pending
      ensures Value() == PopTo(old(Value()), old(pending), t) && pending == None
      ensures clean <==> forall j :: t < j < |old(open)| ==> NameIn(old(nodes), old(open)[j], implied)
    {
      hide AllTags, FreshFrom, Popped, PopTo;
      ghost var st, p := Value(), pending;
      clean := true;
      GenerateImpliedEndTags(implied, target, t);
      ghost var st1, p1 := Value(), pending;
      PoppedNames(st, p, st1, p1, |open| - 1);
      PoppedFresh(st, p, st1, p1);
      forall j | t <= j < |open|
        ensures open[j] == st.open[j] && HtmlTagIs(nodes, open[j], target) == HtmlTagIs(st.nodes, st.open[j], target)
      {
        PoppedNames(st, p, st1, p1, j);
      }
      PoppedSelf(st1, p1);
      if !HtmlTagIs(nodes, open[|open| - 1], target) {
        assert !NameIn(st.nodes, st.open[|open| - 1], implied);
        PopToTarget(target, t);
        clean := false;
      }
      PoppedTwice(st, p, st1, p1, Value(), pending);
      PoppedFresh(st, p, Value(), pending);
      ghost var st2, p2 := Value(), pending;
      var _ := PopCurrentNode();
      PoppedLast(st, p, st2, p2, t);
    }

    // -------------------------------------------------------------------------------------
    // The list of active formatting elements

    method CountFormattingElements(desired: Kind) returns (count: nat, earliest: int)
      ensures var t := CountIdentical(nodes, formatting, desired); count == t.count && (count > 0 ==> earliest == t.earliest)
    {
      hide CountIdentical, Identical, EntryKind, Unmarked;
      count, earliest := 0, |formatting|;
      var i := |formatting| - 1;
      assert formatting[..i + 1] == formatting;
      while i >= 0
        invariant -1 <= i < |formatting|
        invariant var t, rest := CountIdentical(nodes, formatting, desired), CountIdentical(nodes, formatting[..i + 1], desired);
                  && t.count == rest.count + count
                  && t.earliest == if rest.count > 0 then rest.earliest else if count > 0 then earliest else -1
        decreases i
      {
        CountStep(nodes, formatting, i, desired);
        if formatting[i].Marker? {
          return;
        }
        if Identical(EntryKind(nodes, formatting[i]), desired) {
          count, earliest := count + 1, i;
        }
        i := i - 1;
      }
    }

    method AddFormattingElement(e: Entry)
      modifies this`formatting
      ensures formatting == AddEntry(nodes, old(formatting), e)
    {
      var count, earliest := CountFormattingElements(EntryKind(nodes, e));
      if count >= 3 {
        formatting := RemoveAt(formatting, earliest);
      }
      formatting := formatting + [e];
    }

    method ClearActiveFormattingElements()
      modifies this`formatting
      ensures formatting == ClearToMarker(old(formatting))
    {
      while formatting != []
        invariant ClearToMarker(formatting) == ClearToMarker(old(formatting))
        decreases |formatting|
      {
        var entry := formatting[|formatting| - 1];
        ghost var list := formatting;
        formatting := formatting[..|formatting| - 1];
        if entry.Marker? {
          return;
        }
      }
    }

    method ReconstructActiveFormattingElements()
      requires Adoption.Valid(Value(), document) && open != []
      modifies this`nodes, this`nextId, this`open, this`formatting
      ensures Value() == Reconstruct(old(Value()))
      ensures Adoption.Valid(Value(), document)
    {
      hide Valid, RebuildOne, Conserves;
      ghost var st := Value();
      ghost var start := RebuildStart(st.open, st.formatting);
      RebuildFromValid(st, document, start);
      if formatting == [] { return; }
      var i := |formatting| - 1;
      if formatting[i].Marker? || formatting[i].id in open { return; }
      while i > 0 && !(formatting[i - 1].Marker? || formatting[i - 1].id in open)
        invariant 0 <= i < |formatting| && start <= i
      {
        i := i - 1;
      }
      assert i == start;
      while i < |formatting|
        invariant i <= |formatting| == |st.formatting| && open != [] && Adoption.Valid(Value(), document)
        invariant forall j :: i <= j < |formatting| ==> formatting[j].Ref?
        invariant RebuildFrom(Value(), i) == Reconstruct(st)
      {
        RebuildOneValid(Value(), document, i);
        RebuildElement(i);
        i := i + 1;
      }
    }

    /** Steps 7 to 10 of reconstruction. */
    method RebuildElement(i: nat)
      requires Adoption.Valid(Value(), document) && open != [] && i < |formatting| && formatting[i].Ref?
      modifies this`nodes, this`nextId, this`open, this`formatting
      ensures Value() == RebuildOne(old(Value()), i)
    {
      hide WellFormed, Ordered, AllAttached;
      var clone := CloneNode(formatting[i].id);
      AppendNode(open[|open| - 1], clone);
      open := open + [clone];
      formatting := formatting[i := Ref(clone)];
    }

    // -------------------------------------------------------------------------------------
    // The adoption agency

    method MoveBelow(target: NodeId, node: NodeId)
      requires WellFormed(nodes) && target in nodes && node in nodes && target != node
      modifies this`nodes
      ensures nodes == Attach(Detach(old(nodes), node), target, node)
    {
      ghost var h := nodes;
      RemoveFromParent(node);
      DetachedRoot(h, node);
      DetachWellFormed(h, node);
      DetachKeeps(h, node);
      assert nodes[node].index == -1;
      AppendNode(target, node);
    }

    /** Steps 13.5 to 13.10 for the element `node` found at `nodeIndex`. */
    method VisitElement(node: NodeId, nodeIndex: nat, pass: nat, block: NodeId, last: NodeId, bookmark: int)
      returns (node': NodeId, last': NodeId, bookmark': int)
      requires WellFormed(nodes) && FreshFrom(nodes, nextId) && Ordered(nodes, open)
      requires nodeIndex < |open| && open[nodeIndex] == node && last in nodes
      modifies this`nodes, this`nextId, this`open, this`formatting
      ensures Walk(Value(), last', bookmark') == Visit(Walk(old(Value()), last, bookmark), nodeIndex, pass, block)
      ensures node' in open ==> nodeIndex < |open| && open[nodeIndex] == node'
    {
      node', last', bookmark' := node, last, bookmark;
      OrderedDistinct(nodes, open);
      var formattingIndex := IndexOf(formatting, Ref(node));
      if pass > 3 && formattingIndex != -1 {
        formatting := RemoveAt(formatting, formattingIndex);
        if formattingIndex < bookmark {
          bookmark' := bookmark - 1;
        }
        return;
      }
      if formattingIndex == -1 {
        RemovedIndex(open, nodeIndex, node);
        open := RemoveAt(open, nodeIndex);
        return;
      }
      assert nextId !in nodes;
      AddWellFormed(nodes, nextId, nodes[node].kind);
      node' := CloneNode(node);
      formatting := formatting[formattingIndex := Ref(node')];
      open := open[nodeIndex := node'];
      if last == block {
        bookmark' := formattingIndex + 1;
      }
      MoveBelow(node', last);
      last' := node';
    }

    /** Step 13: walk from the furthest block down to the formatting element, cloning, dropping
        and re-parenting on the way. */
    method WalkToFormatting(fe: NodeId, block: NodeId, ghost k: nat, ghost m: nat) returns (last: NodeId, bookmark: int)
      requires Adoption.Valid(Value(), document) && 0 < k < m < |open| && open[k] == fe && open[m] == block
      requires Ref(fe) in formatting
      modifies this`nodes, this`nextId, this`open, this`formatting
      ensures Walk(Value(), last, bookmark) == Walked(old(Value()), k, m)
    {
      hide ChildrenLinked, ParentsLinked, LeavesBare, Acyclic, Visit, BookmarkOk, TreeOk, Ordered, Valid, FreshFrom;
      hide IndexOf;
      ghost var st := Value();
      bookmark := IndexOf(formatting, Ref(fe)) + 1;
      var node := block;
      last := block;
      WalkStarts(st, document, k, m);
      WalkFacts(st, Walk(Value(), last, bookmark), document, k, m, block);
      DistinctIndex(open, m);
      var savedIndex := IndexOf(open, node);
      ghost var i := m;
      var pass := 0;
      while true
        invariant k < i <= m && savedIndex == i
        invariant TreeOk(st, Walk(Value(), last, bookmark), document, i, block)
        invariant BookmarkOk(Walk(Value(), last, bookmark), fe)
        invariant node in open ==> i < |open| && open[i] == node
        invariant i <= |open| && WalkDown(Walk(Value(), last, bookmark), k, i, pass + 1, block) == Walked(st, k, m)
        decreases i
      {
        ghost var w := Walk(Value(), last, bookmark);
        WalkFacts(st, w, document, k, i, block);
        pass := pass + 1;
        var nodeIndex := IndexOf(open, node);
        if nodeIndex == -1 {
          nodeIndex := savedIndex;
        }
        assert nodeIndex == i;
        nodeIndex := nodeIndex - 1;
        savedIndex := nodeIndex;
        node := open[nodeIndex];
        assert nodes[node].parent.Some?;
        if node == fe {
          break;
        }
        VisitTreeOk(st, w, document, i - 1, pass, block);
        VisitBookmarkOk(st, w, document, i - 1, pass, block, fe);
        node, last, bookmark := VisitElement(node, nodeIndex, pass, block, last, bookmark);
        i := i - 1;
      }
    }

    /** Step 16: hand the children of `block` to the childless `newNode`, and step 17. */
    method InterposeClone(block: NodeId, newNode: NodeId)
      requires Interposable(nodes, block, newNode)
      modifies this`nodes
      ensures nodes == Interpose(old(nodes), block, newNode)
    {
      ghost var h := nodes;
      assert h[newNode].parent == None;
      var temp := nodes[newNode].children;
      nodes := nodes[newNode := nodes[newNode].(children := nodes[block].children)];
      nodes := nodes[block := nodes[block].(children := temp)];
      var kids := nodes[newNode].children;
      KidIndex(h, block, newNode);
      ghost var g := nodes;
      forall n | n in h ensures Reparent(g, kids, newNode, 0).Keys == h.Keys {
        ReparentAt(g, kids, newNode, 0, n);
      }
      ReparentAt(g, kids, newNode, 0, newNode);
      var i := 0;
      while i < |kids|
        invariant 0 <= i <= |kids| && nodes.Keys == h.Keys
        invariant Reparent(nodes, kids, newNode, i) == Reparent(g, kids, newNode, 0)
      {
        assert kids[i] in h by { assert h[block].children[i] == kids[i]; }
        nodes := nodes[kids[i] := nodes[kids[i]].(parent := Some(newNode))];
        i := i + 1;
      }
      AppendNode(block, newNode);
      ReparentInterpose(h, block, newNode);
    }

    /** Steps 14 to 17: hang the chain below the common ancestor, then put a clone of the
        formatting element between the furthest block and its children. */
    method FinishTree(fe: NodeId, block: NodeId, ancestor: NodeId, last: NodeId) returns (newNode: NodeId)
      requires WellFormed(nodes) && ancestor in nodes && last in nodes && ancestor != last
      requires fe in Moved(nodes, ancestor, last)
      requires Interposable(Add(Moved(nodes, ancestor, last), nextId, Moved(nodes, ancestor, last)[fe].kind), block, nextId)
      modifies this`nodes, this`nextId
      ensures newNode == old(nextId) && nextId == newNode + 1
      ensures var moved := Moved(old(nodes), ancestor, last);
              nodes == Interpose(Add(moved, newNode, moved[fe].kind), block, newNode)
    {
      hide WellFormed, Interposable, Interpose, Add, Attach, Detach;
      MoveBelow(ancestor, last);
      newNode := CloneNode(fe);
      InterposeClone(block, newNode);
    }

    /** Steps 18 and 19: the new element takes the formatting element's place. */
    method FinishLists(fe: NodeId, block: NodeId, newNode: NodeId, bookmark: int)
      requires Ref(fe) in formatting && fe in open && block in open && fe != block
      requires 0 <= bookmark <= |formatting|
      requires IndexOf(formatting, Ref(fe)) < bookmark || bookmark < |formatting|
      modifies this`open, this`formatting
      ensures var b := if IndexOf(old(formatting), Ref(fe)) < bookmark then bookmark - 1 else bookmark;
              formatting == InsertWithin(RemoveFirst(old(formatting), Ref(fe)), b, Ref(newNode))
      ensures var rest := RemoveFirst(old(open), fe);
              open == InsertWithin(rest, IndexOf(rest, block) + 1, newNode)
    {
      hide IndexOf, RemoveAt, InsertAt;
      var target := bookmark;
      var feIndex := IndexOf(formatting, Ref(fe));
      if feIndex < bookmark {
        target := bookmark - 1;
      }
      formatting := RemoveAt(formatting, feIndex);
      formatting := InsertAt(formatting, target, Ref(newNode));
      open := RemoveFirst(open, fe);
      open := InsertAt(open, IndexOf(open, block) + 1, newNode);
    }

    /** Steps 11 to 19. */
    method AdoptionRound(fe: NodeId, block: NodeId, ghost k: nat, ghost m: nat)
      requires Adoption.Valid(Value(), document) && 0 < k < m < |open| && open[k] == fe && open[m] == block
      requires Ref(fe) in formatting
      modifies this`nodes, this`nextId, this`open, this`formatting
      ensures Value() == Round(old(Value()), k, m)
    {
      hide WellFormed, Valid, FreshFrom, Walked, InsertWithin, RemoveFirst, Interpose, Moved, Interposable, Add, Round;
      ghost var st := Value();
      AdoptionFacts(st, document, k, m);
      var ancestor := open[IndexOf(open, fe) - 1];
      var last, bookmark := WalkToFormatting(fe, block, k, m);
      ghost var w := Walked(st, k, m);
      WalkParts(w, Value(), last, bookmark);
      var newNode := FinishTree(fe, block, ancestor, last);
      FinishLists(fe, block, newNode, bookmark);
      RoundValue(st, k, m, Value());
    }

    /** Step 5. */
    method FindFormattingElement(tag: nat) returns (i: int)
      ensures i == FindFormatting(nodes, formatting, tag)
    {
      i := |formatting| - 1;
      assert formatting[..i + 1] == formatting;
      while i >= 0
        invariant -1 <= i < |formatting|
        invariant FindFormatting(nodes, formatting, tag) == FindFormatting(nodes, formatting[..i + 1], tag)
      {
        assert formatting[..i + 1][..i] == formatting[..i];
        if formatting[i].Marker? {
          return -1;
        }
        if HtmlTagIs(nodes, formatting[i].id, tag) {
          return i;
        }
        i := i - 1;
      }
    }

    method HasElementInScope(expected: seq<nat>, negate: bool, limits: set<QName>) returns (found: bool)
      ensures found == InScope(nodes, open, expected, negate, limits)
    {
      hide HtmlTagIs, EndsScope;
      var i := |open| - 1;
      assert open[..i + 1] == open;
      while i >= 0
        invariant -1 <= i < |open|
        invariant InScope(nodes, open, expected, negate, limits) == InScope(nodes, open[..i + 1], expected, negate, limits)
      {
        assert open[..i + 1][..i] == open[..i];
        for j := 0 to |expected|
          invariant forall q :: 0 <= q < j ==> !HtmlTagIs(nodes, open[i], expected[q])
        {
          if HtmlTagIs(nodes, open[i], expected[j]) {
            return true;
          }
        }
        if EndsScope(nodes, open[i], negate, limits) {
          return false;
        }
        i := i - 1;
      }
      return false;
    }

    /** Step 9. */
    method FindFurthestBlock(start: nat) returns (m: int)
      requires start <= |open|
      ensures m == FurthestBlock(nodes, open, start, sets.special)
    {
      m := start;
      while m < |open|
        invariant start <= m <= |open|
        invariant FurthestBlock(nodes, open, start, sets.special) == FurthestBlock(nodes, open, m, sets.special)
      {
        if NameIn(nodes, open[m], sets.special) {
          return;
        }
        m := m + 1;
      }
      return -1;
    }

    /** One turn of the outer loop; `again` says whether it ended with a full round. */
    method AdoptionTurn(tag: nat) returns (again: bool)
      requires Callable(Value(), pending, document, tag, sets)
      modifies this`nodes, this`nextId, this`open, this`formatting, this`pending
      ensures var o := Turn(old(Value()), old(pending), tag, sets); Value() == o.st && again == o.Again?
      ensures pending == if !again && TurnPops(old(Value()), tag, sets) then None else old(pending)
    {
      hide WellFormed, Ordered, ListOk, AllAttached, Round, PopTo, InScope, FurthestBlock;
      TurnPositions(Value(), pending, document, tag, sets);
      again := false;
      var t := FindFormattingElement(tag);
      if t == -1 { return; }
      var fe := formatting[t].id;
      var k := IndexOf(open, fe);
      if k == -1 {
        formatting := RemoveFirst(formatting, Ref(fe));
        return;
      }
      var inScope := HasElementInScope([tag], false, sets.scope);
      if !inScope { return; }
      var m := FindFurthestBlock(k);
      if m == -1 {
        NothingAbove(Value(), document, k);
        PopThrough(fe, k);
        formatting := RemoveFirst(formatting, Ref(fe));
        return;
      }
      AdoptionRound(fe, open[m], k, m);
      again := true;
    }

    /** `adoption_agency_algorithm`: true exactly when all eight rounds ran. */
    method AdoptionAgency(tag: nat) returns (exhausted: bool)
      requires Callable(Value(), pending, document, tag, sets)
      modifies this`nodes, this`nextId, this`open, this`formatting, this`pending
      ensures Value() == Adopt(old(Value()), old(pending), tag, sets)
      ensures pending == AdoptPending(old(Value()), old(pending), tag, sets)
      ensures exhausted == (!PopsAtOnce(old(Value()), tag) && Exhausts(old(Value()), old(pending), tag, sets, 8))
      ensures Adoption.Valid(Value(), document) && Conserves(old(nodes), nodes, document)
    {
      hide Valid, Conserves, Turn, PopTo, TurnPops;
      ghost var st, p := Value(), pending;
      AdoptKeeps(st, p, document, tag, sets);
      var current := open[|open| - 1];
      if HtmlTagIs(nodes, current, tag) && Ref(current) !in formatting {
        ValidFresh(st, document);
        var _ := PopCurrentNode();
        return false;
      }
      var i := 0;
      while i < 8
        invariant 0 <= i <= 8 && pending == p && Callable(Value(), p, document, tag, sets)
        invariant Turns(Value(), p, tag, sets, 8 - i) == Turns(st, p, tag, sets, 8)
        invariant Exhausts(Value(), p, tag, sets, 8 - i) == Exhausts(st, p, tag, sets, 8)
        invariant TurnsPending(Value(), p, tag, sets, 8 - i) == TurnsPending(st, p, tag, sets, 8)
      {
        TurnKeeps(Value(), p, document, tag, sets);
        var again := AdoptionTurn(tag);
        if !again { return false; }
        i := i + 1;
      }
      return true;
    }
  }

  // Facts the methods call on.

  lemma NothingAbove(st: State, doc: NodeId, k: nat)
    requires Adoption.Valid(st, doc) && k < |st.open|
    ensures forall j :: k < j < |st.open| ==> st.open[j] != st.open[k]
    ensures FreshFrom(st.nodes, st.nextId) && AllTags(st.nodes, st.open)
  {
    OrderedDistinct(st.nodes, st.open);
  }

  /** `st'` is `st` with some of the stack popped, the pending text flushed by the first pop. */
  ghost predicate Popped(st: State, p: Option<Kind>, st': State, p': Option<Kind>) {
    || (st' == st && p' == p)
    || (|st'.open| < |st.open| && st' == PopTo(st, p, |st'.open|) && p' == None)
  }

  /** One more pop. */
  lemma PoppedOne(st: State, p: Option<Kind>, st1: State, p1: Option<Kind>)
    requires Popped(st, p, st1, p1) && st1.open != []
    ensures var st2 := PopTo(st1, p1, |st1.open| - 1);
            Popped(st, p, st2, None) && |st2.open| == |st1.open| - 1
  {
  }

  lemma PoppedNames(st: State, p: Option<Kind>, st': State, p': Option<Kind>, j: nat)
    requires Popped(st, p, st', p') && FreshFrom(st.nodes, st.nextId) && AllTags(st.nodes, st.open) && j < |st'.open|
    ensures j < |st.open| && st'.open[j] == st.open[j]
    ensures forall names :: NameIn(st'.nodes, st'.open[j], names) == NameIn(st.nodes, st.open[j], names)
  {
    assert st.nextId !in st.nodes;
    FlushKeeps(st, p);
  }

  lemma PoppedFresh(st: State, p: Option<Kind>, st': State, p': Option<Kind>)
    requires Popped(st, p, st', p') && FreshFrom(st.nodes, st.nextId) && AllTags(st.nodes, st.open)
    ensures st'.nextId !in st'.nodes && forall i :: 0 <= i < |st'.open| ==> st'.open[i] in st'.nodes
    ensures FreshFrom(st'.nodes, st'.nextId) && AllTags(st'.nodes, st'.open)
  {
    FlushFresh(st, p);
    FlushKeeps(st, p);
  }

  lemma PoppedSelf(st: State, p: Option<Kind>)
    ensures Popped(st, p, st, p)
  {
  }

  lemma PoppedTwice(st: State, p: Option<Kind>, st1: State, p1: Option<Kind>, st2: State, p2: Option<Kind>)
    requires Popped(st, p, st1, p1) && Popped(st1, p1, st2, p2)
    ensures Popped(st, p, st2, p2)
  {
  }

  lemma PoppedLast(st: State, p: Option<Kind>, st': State, p': Option<Kind>, t: nat)
    requires Popped(st, p, st', p') && |st'.open| == t + 1 && t < |st.open|
    ensures PopTo(st', p', t) == PopTo(st, p, t)
  {
  }

  lemma ValidFresh(st: State, doc: NodeId)
    requires Adoption.Valid(st, doc)
    ensures st.nextId !in st.nodes && forall i :: 0 <= i < |st.open| ==> st.open[i] in st.nodes
  {
  }

  lemma FlushFresh(st: State, pending: Option<Kind>)
    requires FreshFrom(st.nodes, st.nextId) && AllTags(st.nodes, st.open)
    ensures var r := Flush(st, pending); FreshFrom(r.nodes, r.nextId) && AllTags(r.nodes, st.open)
    ensures st.nextId !in st.nodes && Flush(st, pending).nextId !in Flush(st, pending).nodes
  {
  }

  lemma WalkParts(w: Walk, st: State, last: NodeId, bookmark: int)
    requires Walk(st, last, bookmark) == w
    ensures w.st.nodes == st.nodes && w.st.nextId == st.nextId && w.st.open == st.open && w.st.formatting == st.formatting
    ensures w.last == last && w.bookmark == bookmark
  {
  }

  /** What steps 11 to 19 rely on. */
  lemma AdoptionFacts(st: State, doc: NodeId, k: nat, m: nat)
    requires Adoption.Valid(st, doc) && 0 < k < m < |st.open| && Ref(st.open[k]) in st.formatting
    ensures IndexOf(st.open, st.open[k]) == k && st.open[k] != st.open[m]
    ensures var w, a, fe := Walked(st, k, m), st.open[k - 1], st.open[k];
            var moved := Moved(w.st.nodes, a, w.last);
            && WellFormed(w.st.nodes) && a in w.st.nodes && w.last in w.st.nodes && a != w.last
            && fe in moved && Interposable(Add(moved, w.st.nextId, moved[fe].kind), st.open[m], w.st.nextId)
            && Ref(fe) in w.st.formatting && fe in w.st.open && st.open[m] in w.st.open
            && 0 <= w.bookmark <= |w.st.formatting|
            && (IndexOf(w.st.formatting, Ref(fe)) < w.bookmark || w.bookmark < |w.st.formatting|)
  {
    hide Valid, WellFormed, TreeOk, Walked, Moved, Add, Interposable;
    ValidDistinct(st, doc);
    DistinctIndex(st.open, k);
    var q, b := WalkedOpen(st, doc, k, m);
    RoundTreeFacts(st, doc, k, m, q, b);
    WalkedOk(st, doc, k, m);
    assert Walked(st, k, m).st.open[..k + 1][k] == st.open[k];
  }

  lemma RoundValue(st: State, k: nat, m: nat, r: State)
    requires 0 < k < m < |st.open|
    requires var w, fe, block := Walked(st, k, m), st.open[k], st.open[m];
             var moved, rest := Moved(w.st.nodes, st.open[k - 1], w.last), RemoveFirst(w.st.open, fe);
             && fe in moved && r.nextId == w.st.nextId + 1
             && r.nodes == Interpose(Add(moved, w.st.nextId, moved[fe].kind), block, w.st.nextId)
             && r.open == InsertWithin(rest, IndexOf(rest, block) + 1, w.st.nextId)
             && r.formatting == InsertWithin(RemoveFirst(w.st.formatting, Ref(fe)),
                                             if IndexOf(w.st.formatting, Ref(fe)) < w.bookmark then w.bookmark - 1 else w.bookmark,
                                             Ref(w.st.nextId))
    ensures r == Round(st, k, m)
  {
    hide Walked, Moved, Interpose, Add, InsertWithin, RemoveFirst, IndexOf;
  }

  lemma ValidDistinct(st: State, doc: NodeId)
    requires Adoption.Valid(st, doc)
    ensures WellFormed(st.nodes) && Distinct(st.open)
  {
    OrderedDistinct(st.nodes, st.open);
  }

  /** What steps 14 to 17 rely on. */
  lemma RoundTreeFacts(st: State, doc: NodeId, k: nat, m: nat, q: nat, b: nat)
    requires Adoption.Valid(st, doc) && 0 < k < m < |st.open| && Ref(st.open[k]) in st.formatting
    requires var w := Walked(st, k, m);
             k < q < |w.st.open| && w.st.open[q] == w.last && k < b < |w.st.open| && w.st.open[b] == st.open[m]
    ensures var w, a := Walked(st, k, m), st.open[k - 1];
            var moved := Moved(w.st.nodes, a, w.last);
            && WellFormed(w.st.nodes) && a in w.st.nodes && w.last in w.st.nodes && a != w.last
            && st.open[k] in moved
            && Interposable(Add(moved, w.st.nextId, moved[st.open[k]].kind), st.open[m], w.st.nextId)
  {
    hide ChildrenLinked, ParentsLinked, LeavesBare, Acyclic, Ordered, Moved, Walked, Settled, HeldFrom, Add, Interposable, Keeps;
    var w := Walked(st, k, m);
    WalkedOk(st, doc, k, m);
    assert w.st.open[..k + 1][k - 1] == st.open[k - 1] && w.st.open[..k + 1][k] == st.open[k];
    MovedOrdered(w.st.nodes, w.st.open, k - 1, q);
    OrderedDistinct(w.st.nodes, w.st.open);
    var moved := Moved(w.st.nodes, st.open[k - 1], w.last);
    KeepsAt(w.st.nodes, moved, st.open[k]);
    KeepsAt(w.st.nodes, moved, st.open[m]);
    AddThenInterpose(moved, st.open[m], w.st.nextId, moved[st.open[k]].kind);
  }

  /** What the walk needs to know at each pass. */
  lemma WalkFacts(st: State, w: Walk, doc: NodeId, k: nat, i: nat, block: NodeId)
    requires Valid(st, doc) && WellFormed(st.nodes) && TreeOk(st, w, doc, i, block) && k < i
    ensures WellFormed(w.st.nodes) && FreshFrom(w.st.nodes, w.st.nextId) && Ordered(w.st.nodes, w.st.open)
    ensures w.last in w.st.nodes && Distinct(w.st.open) && i <= |w.st.open| && i <= |st.open|
    ensures w.st.open[i - 1] == st.open[k] <==> i == k + 1
    ensures w.st.open[i - 1] in w.st.nodes && w.st.nodes[w.st.open[i - 1]].parent.Some?
  {
    hide ChildrenLinked, ParentsLinked, LeavesBare, Acyclic, Settled, Keeps, Drawn, ListOk, AllTags, AllAttached;
    VisitedHasParent(st, w, doc, i - 1, block);
    LastKnown(st, w, doc, i - 1, block);
    TreeOkBounds(st, w, doc, k, i, block);
    OrderedDistinct(w.st.nodes, w.st.open);
  }
}
