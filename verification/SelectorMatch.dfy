/** What each combinator says about the tree, and the matcher that decides it. */
module SelectorMatch {
  import opened Options
  import opened Dom
  import opened DocumentOrder
  import opened Selectors

  /** How the simple selectors judge a node. */
  type Judge = (Heap, NodeId, Simple) -> bool

  /** `d` is met from `n` through element nodes: `n` is `d` or an ancestor of `d`, and all of `n`
      and the nodes between are elements. */
  ghost predicate Met(h: Heap, n: NodeId, d: NodeId)
    requires Acyclic(h) && n in h
    ensures Met(h, n, d) ==> d in h
  {
    d in h &&
    var p, k := PathOf(h, d), |PathOf(h, n)| - 1;
    k < |p| && p[k] == n && forall i :: k <= i < |p| - 1 ==> h[p[i]].kind.Element?
  }

  /** Nodes that `+` looks through. */
  predicate Skipped(k: Kind) { k.Text? || k.Comment? || k.Whitespace? }

  ghost predicate Sibling(h: Heap, v: NodeId, n: NodeId)
    requires n in h
  {
    v in h && h[n].parent.Some? && h[v].parent == h[n].parent && h[v].index < h[n].index
  }

  /** `v` is the nearest preceding sibling of `n` that `+` does not look through. */
  ghost predicate JustBefore(h: Heap, v: NodeId, n: NodeId)
    requires n in h
  {
    && Sibling(h, v, n) && !Skipped(h[v].kind)
    && forall w :: Sibling(h, w, n) && h[v].index < h[w].index ==> Skipped(h[w].kind)
  }

  /** What a selector means, as relations between nodes of the tree. */
  ghost predicate Selects(h: Heap, judge: Judge, s: Selector, n: NodeId)
    requires Acyclic(h) && n in h
    decreases s
  {
    match s
    case Leaf(simple) => judge(h, n, simple)
    case Unary(Not, sel) => !Selects(h, judge, sel, n)
    case Unary(HasDescendant, sel) => exists d :: Met(h, n, d) && d != n && Selects(h, judge, sel, d)
    case Unary(HasChild, sel) =>
      h[n].kind.Element? && exists c :: c in h && h[c].parent == Some(n) && Selects(h, judge, sel, c)
    case Union(l, r) => Selects(h, judge, l, n) || Selects(h, judge, r, n)
    case Intersection(l, r) => Selects(h, judge, l, n) && Selects(h, judge, r, n)
    case Child(l, r) =>
      Selects(h, judge, r, n) && exists p :: p in h && h[n].parent == Some(p) && Selects(h, judge, l, p)
    case Descendant(l, r) =>
      Selects(h, judge, r, n)
      && exists p :: p in h && p != n && Under(h, n, p) && Selects(h, judge, l, p)
    case Adjacent(l, r, next) =>
      && Selects(h, judge, r, n) && h[n].kind.Element?
      && exists v :: v in h && (if next then JustBefore(h, v, n) else Sibling(h, v, n)) && Selects(h, judge, l, v)
  }

  // ---------------------------------------------------------------------------------------
  // The tree relations, step by step

  lemma MetSelf(h: Heap, n: NodeId)
    requires Acyclic(h) && n in h
    ensures Met(h, n, n)
  {
    var p := PathOf(h, n);
    assert p[|p| - 1] == n;
  }

  /** Beyond the node itself, what is met is met from a child. */
  lemma MetChild(h: Heap, n: NodeId, d: NodeId)
    requires WellFormed(h) && n in h && Met(h, n, d) && d != n
    ensures h[n].kind.Element?
    ensures exists i :: 0 <= i < |h[n].children| && h[n].children[i] in h && Met(h, h[n].children[i], d)
  {
    var p, k := PathOf(h, d), |PathOf(h, n)| - 1;
    assert p[|p| - 1] == d;
    var c := p[k + 1];
    assert h[c].parent == Some(n);
    ChildPath(h, n, c);
    assert Met(h, c, d);
    assert h[n].children[h[c].index] == c;
  }

  lemma PathEnd(h: Heap, n: NodeId)
    requires Acyclic(h) && n in h
    ensures var p := PathOf(h, n); |p| > 0 && p[|p| - 1] == n && forall i :: 0 <= i < |p| ==> p[i] in h
  {}

  lemma MetFromChild(h: Heap, n: NodeId, i: nat, d: NodeId)
    requires WellFormed(h) && n in h && h[n].kind.Element? && i < |h[n].children|
    requires h[n].children[i] in h && Met(h, h[n].children[i], d)
    ensures Met(h, n, d) && d != n
  {
    hide ChildrenLinked, ParentsLinked, LeavesBare, Acyclic, RootPath, PathTo;
    var c := h[n].children[i];
    ChildRoom(h, n, i);
    PathEnd(h, n);
    PathEnd(h, d);
    var p, k := PathOf(h, d), |PathOf(h, n)| - 1;
    PathPrefix(h, d, k + 1);
    assert p[..k + 2] == PathOf(h, n) + [c];
    assert p[k] == p[..k + 2][k] == n;
    PathDistinct(h, d, k, |p| - 1);
  }

  /** The proper ancestors of `n` are its parent and the proper ancestors of that. */
  lemma AncestorStep(h: Heap, n: NodeId, p: NodeId)
    requires Acyclic(h) && n in h && h[n].parent == Some(p) && p in h
    ensures p != n && forall a :: a != n ==> (Under(h, n, a) <==> Under(h, p, a))
    ensures !Under(h, p, n) && Under(h, p, p)
  {
    ChildPath(h, p, n);
    var q := PathOf(h, n);
    assert q == PathOf(h, p) + [n];
    assert PathOf(h, p)[|PathOf(h, p)| - 1] == p;
    if n in PathOf(h, p) {
      var k := Position(PathOf(h, p), n);
      PathDistinct(h, n, k, |q| - 1);
    }
  }

  // ---------------------------------------------------------------------------------------
  // The matcher

  /** `match` of every selector class: exactly the declarative relations. */
  method Match(h: Heap, judge: Judge, s: Selector, n: NodeId) returns (b: bool)
    requires WellFormed(h) && n in h
    ensures b <==> Selects(h, judge, s, n)
    decreases s, 0, 0
  {
    match s
    case Leaf(simple) => b := judge(h, n, simple);
    case Unary(op, sel) => b := MatchUnary(h, judge, op, sel, n);
    case Union(l, r) =>
      b := Match(h, judge, l, n);
      if !b { b := Match(h, judge, r, n); }
    case Intersection(l, r) =>
      b := Match(h, judge, l, n);
      if b { b := Match(h, judge, r, n); }
    case Child(l, r) =>
      b := Match(h, judge, r, n);
      if b {
        if h[n].parent.Some? { b := Match(h, judge, l, h[n].parent.value); } else { b := false; }
      }
    case Descendant(l, r) =>
      b := Match(h, judge, r, n);
      if b { b := MatchAncestor(h, judge, l, n); }
    case Adjacent(l, r, next) =>
      b := Match(h, judge, r, n);
      if b {
        if h[n].kind.Element? {
          if next { b := MatchBefore(h, judge, l, n); } else { b := MatchSibling(h, judge, l, n); }
        } else { b := false; }
      }
  }

  method MatchUnary(h: Heap, judge: Judge, op: UnaryOp, sel: Selector, n: NodeId) returns (b: bool)
    requires WellFormed(h) && n in h
    ensures b <==> Selects(h, judge, Unary(op, sel), n)
    decreases sel, 2, 0
  {
    match op
    case Not =>
      b := Match(h, judge, sel, n);
      b := !b;
    case HasDescendant =>
      if h[n].kind.Element? { b := HasDescendantMatch(h, judge, sel, n); }
      else {
        if d :| Met(h, n, d) && d != n { MetChild(h, n, d); }
        b := false;
      }
    case HasChild =>
      if h[n].kind.Element? { b := HasChildMatch(h, judge, sel, n); } else { b := false; }
  }

  /** The loop over the ancestors. */
  method MatchAncestor(h: Heap, judge: Judge, l: Selector, n: NodeId) returns (b: bool)
    requires WellFormed(h) && n in h
    ensures b <==> exists p :: p in h && p != n && Under(h, n, p) && Selects(h, judge, l, p)
    decreases l, 1, 0
  {
    hide Selects, Under, ChildrenLinked, LeavesBare, Acyclic;
    var p := h[n].parent;
    if p.Some? { AncestorStep(h, n, p.value); } else { NoAncestor(h, n); }
    while p.Some?
      invariant p.Some? ==> p.value in h && p.value != n && Under(h, n, p.value)
      invariant forall a :: a in h && a != n && Under(h, n, a) && Selects(h, judge, l, a) ==>
        p.Some? && Under(h, p.value, a)
      decreases if p.Some? && p.value in h then |PathOf(h, p.value)| else 0
    {
      b := Match(h, judge, l, p.value);
      if b { return; }
      ghost var q := p.value;
      p := h[p.value].parent;
      if p.Some? {
        ChildPath(h, p.value, q);
        AncestorStep(h, q, p.value);
        UnderTrans(h, n, q, p.value);
        NotUnderBelow(h, n, q, p.value);
      } else { NoAncestor(h, q); }
    }
    b := false;
  }

  lemma NoAncestor(h: Heap, n: NodeId)
    requires Acyclic(h) && n in h && h[n].parent == None
    ensures forall a :: Under(h, n, a) ==> a == n
  {
    RootPathOf(h, n);
  }

  lemma NotUnderBelow(h: Heap, n: NodeId, q: NodeId, p: NodeId)
    requires Acyclic(h) && n in h && q in h && p in h && Under(h, n, q) && h[q].parent == Some(p)
    ensures p != n && Under(h, q, p)
  {
    AncestorStep(h, q, p);
  }

  /** The siblings before `n` are the children of its parent up to its index. */
  lemma SiblingIs(h: Heap, n: NodeId, p: NodeId)
    requires WellFormed(h) && n in h && h[n].parent == Some(p)
    ensures p in h && 0 <= h[n].index < |h[p].children|
    ensures forall i :: 0 <= i < h[n].index ==>
      h[p].children[i] in h && h[h[p].children[i]].index == i && Sibling(h, h[p].children[i], n)
    ensures forall v :: Sibling(h, v, n) ==> 0 <= h[v].index < h[n].index && h[p].children[h[v].index] == v
  {
  }

  /** The `~` loop over the preceding siblings. */
  method MatchSibling(h: Heap, judge: Judge, l: Selector, n: NodeId) returns (b: bool)
    requires WellFormed(h) && n in h
    ensures b <==> exists v :: v in h && Sibling(h, v, n) && Selects(h, judge, l, v)
    decreases l, 1, 0
  {
    hide Selects;
    b := false;
    if h[n].parent.None? { return; }
    var p := h[n].parent.value;
    SiblingIs(h, n, p);
    hide WellFormed, Sibling;
    var i := h[n].index - 1;
    while i >= 0
      invariant -1 <= i < h[n].index
      invariant forall j :: i < j < h[n].index ==> !Selects(h, judge, l, h[p].children[j])
    {
      b := Match(h, judge, l, h[p].children[i]);
      if b { return; }
      i := i - 1;
    }
  }

  /** The `+` loop: the nearest sibling that is not text or a comment decides. */
  method MatchBefore(h: Heap, judge: Judge, l: Selector, n: NodeId) returns (b: bool)
    requires WellFormed(h) && n in h
    ensures b <==> exists v :: v in h && JustBefore(h, v, n) && Selects(h, judge, l, v)
    decreases l, 1, 0
  {
    hide Selects;
    b := false;
    if h[n].parent.None? { return; }
    var p := h[n].parent.value;
    SiblingIs(h, n, p);
    hide WellFormed, Sibling;
    var i := h[n].index - 1;
    while i >= 0
      invariant -1 <= i < h[n].index
      invariant forall j :: i < j < h[n].index ==> Skipped(h[h[p].children[j]].kind)
    {
      var v := h[p].children[i];
      if !Skipped(h[v].kind) {
        b := Match(h, judge, l, v);
        assert JustBefore(h, v, n);
        assert forall w :: JustBefore(h, w, n) ==> w == v;
        return;
      }
      i := i - 1;
    }
  }

  method HasChildMatch(h: Heap, judge: Judge, sel: Selector, n: NodeId) returns (b: bool)
    requires WellFormed(h) && n in h
    ensures b <==> exists c :: c in h && h[c].parent == Some(n) && Selects(h, judge, sel, c)
    decreases sel, 1, 0
  {
    hide Selects;
    b := false;
    var i := 0;
    while i < |h[n].children|
      invariant 0 <= i <= |h[n].children|
      invariant forall j :: 0 <= j < i ==> !Selects(h, judge, sel, h[n].children[j])
    {
      b := Match(h, judge, sel, h[n].children[i]);
      if b { return; }
      i := i + 1;
    }
    assert forall c :: c in h && h[c].parent == Some(n) ==> h[n].children[h[c].index] == c;
  }

  /** Some node met from one of the first `k` children is selected. */
  ghost predicate Within(h: Heap, judge: Judge, sel: Selector, n: NodeId, k: nat)
    requires WellFormed(h) && n in h && k <= |h[n].children|
  {
    exists i, d :: 0 <= i < k && h[n].children[i] in h && Met(h, h[n].children[i], d) && Selects(h, judge, sel, d)
  }

  lemma WithinIs(h: Heap, judge: Judge, sel: Selector, n: NodeId)
    requires WellFormed(h) && n in h && h[n].kind.Element?
    ensures Within(h, judge, sel, n, |h[n].children|)
       <==> exists d :: Met(h, n, d) && d != n && Selects(h, judge, sel, d)
  {
    hide Met, Selects;
    if Within(h, judge, sel, n, |h[n].children|) {
      var i, d :| 0 <= i < |h[n].children| && h[n].children[i] in h
                  && Met(h, h[n].children[i], d) && d in h && Selects(h, judge, sel, d);
      MetFromChild(h, n, i, d);
    }
    if d :| Met(h, n, d) && d in h && d != n && Selects(h, judge, sel, d) { MetChild(h, n, d); }
  }

  /** What is met from a node: the node, and what is met from its children if it is an element. */
  lemma WithinStep(h: Heap, judge: Judge, sel: Selector, c: NodeId)
    requires WellFormed(h) && c in h
    ensures (exists d :: Met(h, c, d) && Selects(h, judge, sel, d))
       <==> Selects(h, judge, sel, c) || (h[c].kind.Element? && exists d :: Met(h, c, d) && d != c && Selects(h, judge, sel, d))
  {
    hide Met, Selects;
    MetSelf(h, c);
    if d :| Met(h, c, d) && d in h && Selects(h, judge, sel, d) && d != c { MetChild(h, c, d); }
  }

  method HasDescendantMatch(h: Heap, judge: Judge, sel: Selector, n: NodeId) returns (b: bool)
    requires WellFormed(h) && n in h && h[n].kind.Element?
    ensures b <==> exists d :: Met(h, n, d) && d != n && Selects(h, judge, sel, d)
    decreases sel, 1, Room(h, n)
  {
    hide Met, Selects, ParentsLinked, LeavesBare, Acyclic;
    WithinIs(h, judge, sel, n);
    var i := 0;
    while i < |h[n].children|
      invariant 0 <= i <= |h[n].children|
      invariant !Within(h, judge, sel, n, i)
    {
      var c := h[n].children[i];
      ChildRoom(h, n, i);
      WithinStep(h, judge, sel, c);
      b := Match(h, judge, sel, c);
      if !b && h[c].kind.Element? { b := HasDescendantMatch(h, judge, sel, c); }
      if b { return; }
      i := i + 1;
    }
    b := false;
  }
}
