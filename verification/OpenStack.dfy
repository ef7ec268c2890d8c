/** The order between the tree and the stack of open elements. */
module OpenStack {
  import opened Options
  import opened Dom
  import opened DomOps
  import opened Sequences

  /** No open element is, or is below, an element later on the stack. */
  ghost predicate Ordered(h: Heap, stack: seq<NodeId>) {
    && Acyclic(h)
    && (forall i :: 0 <= i < |stack| ==> stack[i] in h)
    && (forall i, j {:trigger stack[i], stack[j]} :: 0 <= i < j < |stack| ==> !Under(h, stack[i], stack[j]))
  }

  lemma OrderedDistinct(h: Heap, stack: seq<NodeId>)
    requires Ordered(h, stack)
    ensures Distinct(stack)
  {
    forall i, j | 0 <= i < j < |stack| ensures stack[i] != stack[j] {
      assert !Under(h, stack[i], stack[j]);
      SelfUnder(h, stack[i]);
    }
  }

  lemma SelfUnder(h: Heap, x: NodeId)
    requires Acyclic(h) && x in h
    ensures Under(h, x, x)
  {
    assert PathOf(h, x)[|PathOf(h, x)| - 1] == x;
  }

  lemma OrderedRemoveAt(h: Heap, stack: seq<NodeId>, k: nat)
    requires Ordered(h, stack) && k < |stack|
    ensures Ordered(h, RemoveAt(stack, k))
  {
    var s := RemoveAt(stack, k);
    forall i, j | 0 <= i < j < |s| ensures !Under(h, s[i], s[j]) {
      assert s[i] == stack[if i < k then i else i + 1];
      assert s[j] == stack[if j < k then j else j + 1];
    }
  }

  lemma OrderedDetach(h: Heap, v: NodeId, stack: seq<NodeId>)
    requires WellFormed(h) && v in h && Ordered(h, stack)
    ensures WellFormed(Detach(h, v)) && Ordered(Detach(h, v), stack)
  {
    DetachWellFormed(h, v);
    forall i, j | 0 <= i < j < |stack| ensures !Under(Detach(h, v), stack[i], stack[j]) {
      assert !Under(h, stack[i], stack[j]);
      DetachPath(h, v, stack[i]);
    }
  }

  /** A root may go below any element earlier on the stack. */
  lemma OrderedAttach(h: Heap, stack: seq<NodeId>, a: nat, b: nat)
    requires WellFormed(h) && Ordered(h, stack) && a < b < |stack|
    requires h[stack[b]].parent == None && h[stack[a]].kind.HasChildren()
    ensures Attachable(h, stack[a], stack[b]) && stack[a] != stack[b]
    ensures WellFormed(Attach(h, stack[a], stack[b])) && Ordered(Attach(h, stack[a], stack[b]), stack)
  {
    var w, v := stack[a], stack[b];
    assert !Under(h, w, v);
    AttachWellFormed(h, w, v);
    forall i, j | 0 <= i < j < |stack| ensures !Under(Attach(h, w, v), stack[i], stack[j]) {
      assert !Under(h, stack[i], stack[j]);
      AttachPath(h, w, v, stack[i]);
      if RootOf(h, stack[i]) == v {
        assert Under(h, stack[i], v);
        assert b <= i;
        assert !Under(h, w, stack[j]);
      }
    }
  }

  lemma OutsideHeap(h: Heap, x: NodeId, c: NodeId)
    requires Acyclic(h) && x in h && c !in h
    ensures !Under(h, x, c)
  {
  }

  /** A fresh childless node may take any place on the stack. */
  lemma OrderedReplace(h: Heap, stack: seq<NodeId>, k: nat, c: NodeId, kind: Kind)
    requires WellFormed(h) && Ordered(h, stack) && k < |stack| && c !in h
    ensures WellFormed(Add(h, c, kind)) && Ordered(Add(h, c, kind), stack[k := c])
  {
    hide ChildrenLinked, ParentsLinked, LeavesBare, Acyclic, RootPath;
    AddPaths(h, c, kind);
    var h', s := Add(h, c, kind), stack[k := c];
    forall i, j | 0 <= i < j < |s| ensures !Under(h', s[i], s[j]) {
      assert !Under(h, stack[i], stack[j]);
      ReplacedApart(h, c, kind, stack[i], stack[j], i == k, j == k);
    }
  }

  /** A fresh childless node is below nothing else, and nothing is below it. */
  lemma ReplacedApart(h: Heap, c: NodeId, kind: Kind, x: NodeId, y: NodeId, first: bool, second: bool)
    requires WellFormed(h) && c !in h && x in h && y in h && !Under(h, x, y) && !(first && second)
    ensures WellFormed(Add(h, c, kind))
    ensures !Under(Add(h, c, kind), if first then c else x, if second then c else y)
  {
    hide ChildrenLinked, ParentsLinked, LeavesBare, Acyclic, RootPath;
    AddPaths(h, c, kind);
    if second { OutsideHeap(h, x, c); }
  }

  lemma OrderedAdd(h: Heap, stack: seq<NodeId>, c: NodeId, kind: Kind)
    requires WellFormed(h) && Ordered(h, stack) && c !in h
    ensures WellFormed(Add(h, c, kind)) && Ordered(Add(h, c, kind), stack)
  {
    AddPaths(h, c, kind);
    forall i, j | 0 <= i < j < |stack| ensures !Under(Add(h, c, kind), stack[i], stack[j]) {
      assert !Under(h, stack[i], stack[j]);
    }
  }

  /** After interposing, `f` is above exactly itself and what was strictly below `b`; every
      other ancestor relation stays, with `f` standing where `b`'s children begin. */
  lemma InterposedUnder(h: Heap, b: NodeId, f: NodeId, x: NodeId, y: NodeId)
    requires Interposable(h, b, f) && x in h
    ensures WellFormed(Interpose(h, b, f))
    ensures Under(Interpose(h, b, f), x, y) <==>
            if y == f then x == f || (x != b && Under(h, x, b))
            else Under(h, if x == f then b else x, y)
  {
    hide ChildrenLinked, ParentsLinked, LeavesBare, Acyclic, RootPath, Interpose;
    InterposePath(h, b, f, x);
    if x != f { ChildlessOnPath(h, f, x); }
    if x != f && x != b && Under(h, x, b) {
      var p := PathOf(h, x);
      var k := Position(p, b);
      assert p == p[..k + 1] + p[k + 1..];
    }
  }

  /** Interposing `f` below the open element `stack[m]` lets `f` follow it on the stack. */
  lemma OrderedInterpose(h: Heap, stack: seq<NodeId>, m: nat, f: NodeId)
    requires Ordered(h, stack) && m < |stack| && f !in stack && Interposable(h, stack[m], f)
    ensures WellFormed(Interpose(h, stack[m], f))
    ensures Ordered(Interpose(h, stack[m], f), InsertAt(stack, m + 1, f))
  {
    var b := stack[m];
    var h', s := Interpose(h, b, f), InsertAt(stack, m + 1, f);
    InterposeWellFormed(h, b, f);
    forall i, j | 0 <= i < j < |s| ensures !Under(h', s[i], s[j]) {
      var i', j' := if i <= m then i else i - 1, if j <= m then j else j - 1;
      InterposedUnder(h, b, f, s[i], s[j]);
      assert j != m + 1 ==> s[j] == stack[j'] && !Under(h, stack[i'], stack[j']);
      assert i < m ==> !Under(h, stack[i], b);
    }
  }
}
