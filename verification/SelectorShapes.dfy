/** Exactly which trees the parser can return, and a text for each of them. */
module SelectorShapes {
  import opened Options
  import opened Selectors
  import opened Ascii
  import opened SelectorSyntax
  import opened SelectorNames
  import opened SelectorNth
  import opened SelectorPrinter
  import opened SelectorExact

  // ---------------------------------------------------------------------------------------
  // The shapes

  /** A negative offset has no step beside it. */
  predicate SimpleShape(x: Simple) {
    match x
    case Dummy => false
    case Tag(_) => false
    case Empty => true
    case OnlyChild(_) => true
    case NthChild(a, b, _, _) => a == 0 || b >= 0
    case Attr(op, key, value) => key != "" && (op == Exists ==> value == "")
    case Text(_, text) => Lower(text) == text
  }

  ghost predicate PartShape(cx: Context, t: Selector)
    decreases t, 0
  {
    (t.Leaf? && SimpleShape(t.simple)) || (t.Unary? && GroupShape(cx, t.sel))
  }

  /** The tag of some name. */
  ghost predicate IsTag(cx: Context, t: Selector) {
    t.Leaf? && t.simple.Tag? && exists n :: n != "" && cx.tagEnum(n) == t.simple.tag
  }

  /** Intersections nest on the left. */
  ghost predicate CompoundShape(cx: Context, t: Selector)
    decreases t, 1
  {
    if t.Intersection? then CompoundShape(cx, t.left) && PartShape(cx, t.right) else IsTag(cx, t) || PartShape(cx, t)
  }

  ghost predicate WholeShape(cx: Context, t: Selector)
    decreases t, 2
  {
    t == Leaf(Dummy) || CompoundShape(cx, t)
  }

  ghost predicate ComplexShape(cx: Context, t: Selector)
    decreases t, 3
  {
    if t.Child? || t.Descendant? || t.Adjacent? then ComplexShape(cx, t.left) && WholeShape(cx, t.right)
    else WholeShape(cx, t)
  }

  ghost predicate GroupShape(cx: Context, t: Selector)
    decreases t, 4
  {
    if t.Union? then GroupShape(cx, t.left) && ComplexShape(cx, t.right) else ComplexShape(cx, t)
  }

  // ---------------------------------------------------------------------------------------
  // Written groups have them

  lemma IdentSome(n: Ident, c: Option<char>)
    requires IdentOk(n, c)
    ensures IdentValue(n) != ""
  {
    hide NameOk, GlyphValue;
    SomeValue(n.name[0]);
  }

  lemma LowerTwice(t: string)
    ensures Lower(Lower(t)) == Lower(t)
  {}

  lemma CountingShape(a: Argument, c: Option<char>, last: bool, ofType: bool)
    requires ArgumentOk(a, c) && Accepted(a)
    ensures SimpleShape(Counting(a, last, ofType))
  {
    hide NameOk, NameValue, Lower, Decimal;
  }

  lemma PartShaped(cx: Context, p: Part, c: Option<char>)
    requires PartOk(p, c)
    ensures PartShape(cx, PartTree(cx, p))
    decreases p
  {
    hide NameOk, NameValue, Lower, IdentOk, IdentValue, LiteralOk, LiteralValue, ArgumentOk, Counting, Accepted;
    match p
    case Id(id) =>
    case Class(cls) =>
    case HasAttr(_, key, close) => IdentSome(key, Head(GapText(close), Some(']')));
    case TestAttr(_, key, left, op, _, _, _) => IdentSome(key, Head(GapText(left), Some(OpText(op)[0])));
    case Placed(_, _) =>
    case Counted(_, last, ofType, _, arg, close) => CountingShape(arg, Head(GapText(close), Some(')')), last, ofType);
    case HasText(_, _, _, text, _) => LowerTwice(LiteralValue(text));
    case Call(_, _, group) => GroupShaped(cx, group, Some(')'));
  }

  lemma CompoundShaped(cx: Context, k: Compound, c: Option<char>)
    requires CompoundOk(k, c)
    ensures var t := CompoundTree(cx, k); t.Some? ==> CompoundShape(cx, t.value)
    decreases k
  {
    hide PartOk, PartShape, IdentOk, IdentValue;
    match k
    case Any =>
    case Type(tag) => IdentSome(tag, c);
    case First(part) => PartShaped(cx, part, c); PartCompound(cx, PartTree(cx, part));
    case And(before, part) =>
      CompoundShaped(cx, before, Some(PartText(part)[0]));
      PartShaped(cx, part, c);
      PartCompound(cx, PartTree(cx, part));
  }

  lemma PartCompound(cx: Context, t: Selector)
    requires PartShape(cx, t)
    ensures CompoundShape(cx, t)
  {}

  lemma ComplexShaped(cx: Context, x: Complex, c: Option<char>)
    requires ComplexOk(x, c)
    ensures ComplexShape(cx, ComplexTree(cx, x))
    decreases x
  {
    hide CompoundOk, CompoundShape, CompoundTree;
    match x
    case One(k) =>
      CompoundShaped(cx, k, c);
      WholeComplex(cx, WholeTree(cx, k));
    case Linked(b, j, k) =>
      ComplexShaped(cx, b, Head(JointText(j), None));
      CompoundShaped(cx, k, c);
  }

  lemma WholeComplex(cx: Context, t: Selector)
    requires WholeShape(cx, t)
    ensures ComplexShape(cx, t) && !t.Union?
  {
    assert t == Leaf(Dummy) || CompoundShape(cx, t);
  }

  lemma GroupShaped(cx: Context, g: Choice, c: Option<char>)
    requires ChoiceOk(g, c)
    ensures GroupShape(cx, ChoiceTree(cx, g))
    decreases g
  {
    hide ComplexOk, ComplexShape, ComplexTree;
    match g
    case Single(_, x, tail) =>
      ComplexShaped(cx, x, Head(GapText(tail), c));
      ComplexGroup(cx, ComplexTree(cx, x));
    case Or(b, _, x, tail) =>
      GroupShaped(cx, b, Some(','));
      ComplexShaped(cx, x, Head(GapText(tail), c));
  }

  lemma ComplexGroup(cx: Context, t: Selector)
    requires ComplexShape(cx, t)
    ensures GroupShape(cx, t)
  {
    if t.Union? { WholeComplex(cx, t); }
  }

  // ---------------------------------------------------------------------------------------
  // Everything of these shapes can be written

  lemma NameSpelled(n: string, c: Option<char>)
    requires n != "" && NameOk([], c) && forall k :: 0 <= k < |n| ==> LowerChar(n[k]) == n[k]
    ensures Named(SpellIdent(n), n, c)
  {
    hide IdentOk, IdentValue, SpellIdent;
    IdentSpelled(n, c);
    assert Lower(n) == n;
  }

  lemma StringSpelled(v: string, c: Option<char>)
    ensures var q := Quoted('"', SpellBody(v)); LiteralOk(q, c) && LiteralValue(q) == v
  {
    BodySpelled(v);
  }

  lemma PlaceWritten(cx: Context, place: Place, c: Option<char>) returns (p: Part)
    requires NameOk([], c)
    ensures PartOk(p, c) && PartTree(cx, p) == Leaf(PlaceTree(place))
  {
    hide Named, SpellIdent, NameOk;
    p := Placed(SpellIdent(PlaceName(place)), place);
    NameSpelled(PlaceName(place), c);
  }

  /** The sign and the digits of a number. */
  function SenseOf(n: int): Sense { if n < 0 then Minus else Sense.Bare }

  function DigitsOf(n: int): Digits { Numeral(if n < 0 then -n else n) }

  lemma SignedNumeral(n: int)
    ensures DigitsOf(n) != "" && Signed(SenseOf(n), Decimal(DigitsOf(n))) == n
  {
    DecimalNumeral(if n < 0 then -n else n);
  }

  lemma ArgumentWritten(a: int, b: int, c: Option<char>) returns (g: Argument)
    requires a == 0 || b >= 0
    ensures ArgumentOk(g, c) && Accepted(g) && ArgumentValue(g) == (a, b)
  {
    hide DigitsOf, Decimal;
    SignedNumeral(a);
    SignedNumeral(b);
    if b < 0 {
      g := Number(SenseOf(b), DigitsOf(b));
    } else {
      g := Steps(SenseOf(a), DigitsOf(a), 'n', Some(Shift([], false, [], DigitsOf(b))));
    }
  }

  lemma SimpleWritten(cx: Context, x: Simple, c: Option<char>) returns (p: Part)
    requires SimpleShape(x) && NameOk([], c)
    ensures PartOk(p, c) && PartTree(cx, p) == Leaf(x)
  {
    hide NameOk, IdentOk, IdentValue, LiteralOk, LiteralValue, Named, SpellIdent, SpellBody, Lower, ArgumentOk,
      Accepted, ArgumentValue;
    StopsName();
    match x
    case Empty => p := PlaceWritten(cx, Childless, c);
    case OnlyChild(ofType) => p := PlaceWritten(cx, if ofType then SingleOfType else SingleChild, c);
    case NthChild(a, b, last, ofType) =>
      var g := ArgumentWritten(a, b, Some(')'));
      NameSpelled(CountName(last, ofType), Some('('));
      p := Counted(SpellIdent(CountName(last, ofType)), last, ofType, [], g, []);
    case Attr(op, key, value) =>
      if op == Exists {
        IdentSpelled(key, Some(']'));
        p := HasAttr([], SpellIdent(key), []);
      } else {
        IdentSpelled(key, Some(OpText(op)[0]));
        StringSpelled(value, Some(']'));
        p := TestAttr([], SpellIdent(key), [], op, [], Quoted('"', SpellBody(value)), []);
      }
    case Text(op, text) =>
      NameSpelled(TextOpName(op), Some('('));
      StringSpelled(text, Some(')'));
      p := HasText(SpellIdent(TextOpName(op)), op, [], Quoted('"', SpellBody(text)), []);
  }

  lemma StopsName()
    ensures NameOk([], Some('(')) && NameOk([], Some(')')) && NameOk([], Some(']')) && NameOk([], Some(',')) && NameOk([], None)
    ensures forall op: TestOp :: NameOk([], Some(OpText(op)[0]))
  {}

  lemma PartWritten(cx: Context, t: Selector, c: Option<char>) returns (p: Part)
    requires PartShape(cx, t) && NameOk([], c)
    ensures PartOk(p, c) && PartTree(cx, p) == t
    decreases t, 0
  {
    hide NameOk, GroupShape, SimpleShape, ChoiceOk, ChoiceTree, SpellIdent, Named;
    if t.Leaf? {
      p := SimpleWritten(cx, t.simple, c);
    } else {
      StopsName();
      var g := GroupWritten(cx, t.sel, Some(')'));
      NameSpelled(CallName(t.op), Some('('));
      p := Call(SpellIdent(CallName(t.op)), t.op, g);
    }
  }

  lemma CompoundWritten(cx: Context, t: Selector, c: Option<char>) returns (k: Compound)
    requires CompoundShape(cx, t) && NameOk([], c)
    ensures CompoundOk(k, c) && CompoundTree(cx, k) == Some(t)
    decreases t, 1
  {
    hide NameOk, PartShape, PartOk, PartTree, PartText, SpellIdent, IdentOk, IdentValue;
    if t.Intersection? {
      var p := PartWritten(cx, t.right, c);
      SimpleStops(PartText(p)[0]);
      var b := CompoundWritten(cx, t.left, Some(PartText(p)[0]));
      k := And(b, p);
    } else if IsTag(cx, t) {
      var n :| n != "" && cx.tagEnum(n) == t.simple.tag;
      IdentSpelled(n, c);
      k := Type(SpellIdent(n));
    } else {
      var p := PartWritten(cx, t, c);
      k := First(p);
    }
  }

  lemma SimpleStops(c: char)
    requires StartsSimple(c)
    ensures NameOk([], Some(c))
  {}

  lemma WholeWritten(cx: Context, t: Selector, c: Option<char>) returns (k: Compound)
    requires WholeShape(cx, t) && NameOk([], c)
    ensures CompoundOk(k, c) && WholeTree(cx, k) == t
    decreases t, 2
  {
    hide CompoundShape, NameOk;
    if t == Leaf(Dummy) { k := Any; } else { k := CompoundWritten(cx, t, c); }
  }

  /** The plainest combinator for a tree. */
  function JointOf(t: Selector): (j: Joint)
    requires t.Child? || t.Descendant? || t.Adjacent?
    ensures JointOk(j) && JointTree(j, t.left, t.right) == t
  {
    if t.Child? then Sub([], []) else if t.Descendant? then Below([Space(' ')]) else if t.next then Next([], []) else After([], [])
  }

  lemma JointStops(t: Selector)
    requires t.Child? || t.Descendant? || t.Adjacent?
    ensures var c := Head(JointText(JointOf(t)), None); NameOk([], c) && Whole(c)
  {
    if t.Descendant? {
      var g: Gap := [Space(' ')];
      assert g[1..] == [];
      assert GapText(g) == " ";
    }
  }

  lemma ComplexWritten(cx: Context, t: Selector, c: Option<char>) returns (x: Complex)
    requires ComplexShape(cx, t) && NameOk([], c) && Whole(c)
    ensures ComplexOk(x, c) && ComplexTree(cx, x) == t
    decreases t, 3
  {
    hide WholeShape, NameOk, CompoundOk, WholeTree, JointText, JointTree;
    if t.Child? || t.Descendant? || t.Adjacent? {
      var j := JointOf(t);
      JointStops(t);
      var b := ComplexWritten(cx, t.left, Head(JointText(j), None));
      var k := WholeWritten(cx, t.right, c);
      x := Linked(b, j, k);
    } else {
      var k := WholeWritten(cx, t, c);
      x := One(k);
    }
  }

  lemma GroupWritten(cx: Context, t: Selector, c: Option<char>) returns (g: Choice)
    requires GroupShape(cx, t) && NameOk([], c) && Whole(c)
    ensures ChoiceOk(g, c) && ChoiceTree(cx, g) == t
    decreases t, 4
  {
    hide ComplexShape, NameOk, ComplexOk, ComplexTree;
    if t.Union? {
      StopsName();
      var b := GroupWritten(cx, t.left, Some(','));
      var x := ComplexWritten(cx, t.right, c);
      g := Or(b, [], x, []);
    } else {
      var x := ComplexWritten(cx, t, c);
      g := Single([], x, []);
    }
  }

  /** The parser returns a tree for some text exactly when it has the shape of a group; and then for a text it
      reads to the end. */
  lemma TreesExactly(cx: Context, t: Selector)
    ensures GroupShape(cx, t) ==> exists s: string :: Group(cx, s, 0) == Ok(t, |s|)
    ensures (exists s: string, n: nat :: Group(cx, s, 0) == Ok(t, n)) ==> GroupShape(cx, t)
  {
    hide Group, GroupShape, ChoiceTree, ChoiceOk;
    if GroupShape(cx, t) {
      StopsName();
      var g := GroupWritten(cx, t, None);
      ParsePrint(cx, g);
    }
    if s: string, n: nat :| Group(cx, s, 0) == Ok(t, n) {
      var g := GroupFound(cx, s, 0);
      GroupShaped(cx, g, CharAt(s, n));
    }
  }
}
