/** What the parser reads is a written group: together with the lemmas that written groups are read as their
    trees, the exact language of the parser, and the tree of each of its texts. */
module SelectorExact {
  import opened Options
  import opened Selectors
  import opened Ascii
  import opened SelectorSyntax
  import opened SelectorNames
  import opened SelectorNth
  import opened SelectorPrinter

  // ---------------------------------------------------------------------------------------
  // Simple selectors

  /** `p` is written at `i`, and was read as its tree. */
  ghost predicate PartAt(cx: Context, s: string, i: nat, p: Part, r: Parse<Selector>) {
    && At(s, i, PartText(p)) && PartOk(p, CharAt(s, i + |PartText(p)|))
    && r == Ok(PartTree(cx, p), i + |PartText(p)|)
  }

  lemma IdFound(cx: Context, s: string, i: nat) returns (p: Part)
    requires i <= |s| && IdSelector(s, i).Ok?
    ensures PartAt(cx, s, i, p, IdSelector(s, i))
  {
    hide At, Name, NameText, NameOk, NameValue;
    var n := NameFound(s, i + 1);
    p := Id(n);
    AtChar(s, i, '#');
    AtJoin(s, i, "#", NameText(n));
  }

  lemma ClassFound(cx: Context, s: string, i: nat) returns (p: Part)
    requires i <= |s| && ClassSelector(s, i).Ok?
    ensures PartAt(cx, s, i, p, ClassSelector(s, i))
  {
    hide At, Identifier, IdentText, IdentOk, IdentValue;
    var n := IdentFound(s, i + 1);
    p := Class(n);
    AtChar(s, i, '.');
    AtJoin(s, i, ".", IdentText(n));
  }

  /** A bracket or parenthesis behind a gap. */
  lemma CloseFound(s: string, i: nat, c: char) returns (g: Gap)
    requires i <= |s| && CharAt(s, SkipWhite(s, i)) == Some(c)
    ensures At(s, i, GapText(g) + [c]) && SkipWhite(s, i) == i + |GapText(g)| && CharAt(s, i) == Head(GapText(g), Some(c))
  {
    hide At, GapText, SkipWhite;
    g := GapFound(s, i);
    AtChar(s, i + |GapText(g)|, c);
    AtJoin(s, i, GapText(g), [c]);
  }

  lemma KeyFound(s: string, i: nat) returns (open: Gap, key: Ident)
    requires i < |s| && s[i] == '[' && Identifier(s, SkipWhite(s, i + 1)).Ok?
    ensures At(s, i, "[") && At(s, i + 1, GapText(open)) && At(s, i + 1 + |GapText(open)|, IdentText(key))
    ensures var j := i + 1 + |GapText(open)| + |IdentText(key)|;
      IdentOk(key, CharAt(s, j)) && Identifier(s, SkipWhite(s, i + 1)) == Ok(IdentValue(key), j)
  {
    hide At, GapText, SkipWhite, Identifier, IdentText, IdentOk, IdentValue;
    AtChar(s, i, '[');
    open := GapFound(s, i + 1);
    key := IdentFound(s, i + 1 + |GapText(open)|);
  }

  lemma OperatorFound(s: string, i: nat) returns (op: TestOp)
    requires var r := Operator(s, i); r.Ok? && r.value.Some?
    ensures At(s, i, OpText(op)) && Operator(s, i) == Ok(Some(op), i + |OpText(op)|)
  {
    op := Operator(s, i).value.value;
  }

  lemma ValueAtFound(s: string, key: string, op: Option<AttrOp>, i: nat) returns (right: Gap, value: Literal, close: Gap)
    requires i <= |s| && op.Some? && AttributeValue(s, key, op, SkipWhite(s, i)).Ok?
    ensures At(s, i, GapText(right) + (LiteralText(value) + (GapText(close) + "]")))
    ensures LiteralOk(value, Head(GapText(close), Some(']')))
    ensures AttributeValue(s, key, op, SkipWhite(s, i))
      == Ok(Leaf(Attr(op.value, key, LiteralValue(value))), i + |GapText(right) + (LiteralText(value) + (GapText(close) + "]"))|)
  {
    hide At, GapText, SkipWhite, Value, LiteralText, LiteralOk, LiteralValue;
    right := GapFound(s, i);
    var j := i + |GapText(right)|;
    value := ValueFound(s, j);
    close := CloseFound(s, j + |LiteralText(value)|, ']');
    AtJoin(s, j, LiteralText(value), GapText(close) + "]");
    AtJoin(s, i, GapText(right), LiteralText(value) + (GapText(close) + "]"));
  }

  lemma TestFound(s: string, j: nat, key: string) returns (left: Gap, op: TestOp, right: Gap, value: Literal, close: Gap)
    requires j <= |s| && SkipWhite(s, j) < |s| && s[SkipWhite(s, j)] != ']'
    requires var o := Operator(s, SkipWhite(s, j)); o.Ok? && AttributeValue(s, key, o.value, SkipWhite(s, o.next)).Ok?
    ensures At(s, j, TestText(left, op, right, value, close)) && CharAt(s, j) == Head(GapText(left), Some(OpText(op)[0]))
    ensures LiteralOk(value, Head(GapText(close), Some(']')))
    ensures var o := Operator(s, SkipWhite(s, j));
      AttributeValue(s, key, o.value, SkipWhite(s, o.next))
      == Ok(Leaf(Attr(op, key, LiteralValue(value))), j + |TestText(left, op, right, value, close)|)
  {
    hide At, GapText, SkipWhite, Operator, LiteralText, LiteralOk, LiteralValue, OpText;
    left := GapFound(s, j);
    var k := j + |GapText(left)|;
    assert Operator(s, k).value.Some?;
    op := OperatorFound(s, k);
    right, value, close := ValueAtFound(s, key, Operator(s, k).value, k + |OpText(op)|);
    var v := GapText(right) + (LiteralText(value) + (GapText(close) + "]"));
    AtJoin(s, k, OpText(op), v);
    AtJoin(s, j, GapText(left), OpText(op) + v);
    HeadOf(OpText(op), v, None);
  }

  lemma AttributeFound(cx: Context, s: string, i: nat) returns (p: Part)
    requires i <= |s| && AttributeSelector(s, i).Ok?
    ensures PartAt(cx, s, i, p, AttributeSelector(s, i))
  {
    hide At, GapText, SkipWhite, Identifier, IdentText, IdentOk, IdentValue, Operator, AttributeValue, LiteralText,
      LiteralOk, LiteralValue, OpText, TestText;
    var open, key := KeyFound(s, i);
    var j := i + 1 + |GapText(open)| + |IdentText(key)|;
    if s[SkipWhite(s, j)] == ']' {
      var close := CloseFound(s, j, ']');
      p := HasAttr(open, key, close);
      JoinKey(s, i, GapText(open), IdentText(key), GapText(close) + "]");
    } else {
      var left, op, right, value, close := TestFound(s, j, IdentValue(key));
      p := TestAttr(open, key, left, op, right, value, close);
      JoinKey(s, i, GapText(open), IdentText(key), TestText(left, op, right, value, close));
    }
  }

  lemma JoinKey(s: string, i: nat, g: string, k: string, t: string)
    requires At(s, i, "[") && At(s, i + 1, g) && At(s, i + 1 + |g|, k) && At(s, i + 1 + |g| + |k|, t)
    ensures At(s, i, "[" + (g + (k + t))) && |"[" + (g + (k + t))| == 1 + |g| + |k| + |t|
  {
    hide At;
    AtJoin(s, i + 1 + |g|, k, t);
    AtJoin(s, i + 1, g, k + t);
    AtJoin(s, i, "[", g + (k + t));
  }

  // ---------------------------------------------------------------------------------------
  // Pseudo-classes

  lemma PlaceFound(name: string) returns (p: Place)
    requires PseudoOf(name).Fixed?
    ensures name == PlaceName(p) && PseudoOf(name) == Fixed(PlaceTree(p))
  {
    p := if name == "first-child" then FirstChild
    else if name == "last-child" then LastChild
    else if name == "first-of-type" then FirstOfType
    else if name == "last-of-type" then LastOfType
    else if name == "only-child" then SingleChild
    else if name == "only-of-type" then SingleOfType
    else Childless;
  }

  lemma NamesFound(name: string)
    ensures var p := PseudoOf(name);
      && (p.Function? ==> name == CallName(p.op)) && (p.TextTest? ==> name == TextOpName(p.textOp))
      && (p.Nth? ==> name == CountName(p.last, p.ofType))
  {}

  lemma TextFound(s: string, i: nat, op: TextOp) returns (open: Gap, text: Literal, close: Gap)
    requires i <= |s| && TextArgument(s, i, op).Ok?
    ensures At(s, i, "(" + (GapText(open) + (LiteralText(text) + (GapText(close) + ")")))) && CharAt(s, i) == Some('(')
    ensures LiteralOk(text, Head(GapText(close), Some(')')))
    ensures TextArgument(s, i, op)
      == Ok(Leaf(Text(op, Lower(LiteralValue(text)))), i + |"(" + (GapText(open) + (LiteralText(text) + (GapText(close) + ")")))|)
  {
    hide At, GapText, SkipWhite, Value, LiteralText, LiteralOk, LiteralValue, Lower;
    open := GapFound(s, i + 1);
    var j := i + 1 + |GapText(open)|;
    text := ValueFound(s, j);
    SkipTwice(s, j + |LiteralText(text)|);
    close := CloseFound(s, j + |LiteralText(text)|, ')');
    AtChar(s, i, '(');
    AtJoin(s, j, LiteralText(text), GapText(close) + ")");
    AtJoin(s, i + 1, GapText(open), LiteralText(text) + (GapText(close) + ")"));
    AtJoin(s, i, "(", GapText(open) + (LiteralText(text) + (GapText(close) + ")")));
  }

  lemma NamedFound(s: string, i: nat) returns (name: Ident)
    requires i < |s| && s[i] == ':' && Identifier(s, i + 1).Ok?
    ensures At(s, i, ":" + IdentText(name)) && IdentOk(name, CharAt(s, i + 1 + |IdentText(name)|))
    ensures Identifier(s, i + 1) == Ok(IdentValue(name), i + 1 + |IdentText(name)|)
  {
    hide At, Identifier, IdentText, IdentOk, IdentValue;
    name := IdentFound(s, i + 1);
    AtChar(s, i, ':');
    AtJoin(s, i, ":", IdentText(name));
  }

  /** An argument joins its name. */
  lemma JoinName(s: string, i: nat, n: string, t: string)
    requires At(s, i, ":" + n) && At(s, i + 1 + |n|, t)
    ensures At(s, i, ":" + (n + t)) && |":" + (n + t)| == 1 + |n| + |t|
  {
    hide At;
    AtJoin(s, i, ":" + n, t);
    assert (":" + n) + t == ":" + (n + t);
  }

  lemma PseudoFound(cx: Context, s: string, i: nat) returns (p: Part)
    requires i <= |s| && PseudoSelector(cx, s, i).Ok?
    ensures PartAt(cx, s, i, p, PseudoSelector(cx, s, i))
    decreases |s| - i, 0
  {
    hide At, Identifier, IdentText, IdentOk, IdentValue, Lower, PseudoOf, FunctionArgument, TextArgument,
      NthArgument, PartText, PartTree, PartOk, NameStart;
    var name := NamedFound(s, i);
    var n, j := Lower(IdentValue(name)), i + 1 + |IdentText(name)|;
    NamesFound(n);
    match PseudoOf(n)
    case Function(op) => p := CallFound(cx, s, i, name, op);
    case TextTest(op) => p := HasTextFound(cx, s, i, name, op);
    case Nth(last, ofType) => p := CountedFound(cx, s, i, name, last, ofType);
    case Fixed(_) => p := PlacedFound(cx, s, i, name);
  }

  /** The name of a pseudo-class is written at `i`. */
  ghost predicate NameAt(s: string, i: nat, name: Ident, n: string) {
    && i + 1 + |IdentText(name)| <= |s| && At(s, i, ":" + IdentText(name)) && Lower(IdentValue(name)) == n
    && IdentOk(name, CharAt(s, i + 1 + |IdentText(name)|))
  }

  lemma PlacedFound(cx: Context, s: string, i: nat, name: Ident) returns (p: Part)
    requires NameAt(s, i, name, Lower(IdentValue(name))) && PseudoOf(Lower(IdentValue(name))).Fixed?
    ensures PartAt(cx, s, i, p, Ok(Leaf(PseudoOf(Lower(IdentValue(name))).simple), i + 1 + |IdentText(name)|))
  {
    hide At, IdentText, IdentOk, IdentValue, Lower, PseudoOf, PlaceName, PlaceTree;
    var place := PlaceFound(Lower(IdentValue(name)));
    p := Placed(name, place);
  }

  lemma CountedFound(cx: Context, s: string, i: nat, name: Ident, last: bool, ofType: bool) returns (p: Part)
    requires NameAt(s, i, name, CountName(last, ofType)) && NthArgument(cx, s, i + 1 + |IdentText(name)|, last, ofType).Ok?
    ensures PartAt(cx, s, i, p, NthArgument(cx, s, i + 1 + |IdentText(name)|, last, ofType))
  {
    hide At, IdentText, IdentOk, IdentValue, Lower, CountName, NthArgument, ArgumentOk, Accepted, Counting, ArgumentText, GapText;
    var j := i + 1 + |IdentText(name)|;
    var open, arg, close := NthFound(cx, s, j, last, ofType);
    p := Counted(name, last, ofType, open, arg, close);
    AtIndex(s, j, InParentheses(open, arg, close), 0);
    JoinName(s, i, IdentText(name), InParentheses(open, arg, close));
  }

  lemma HasTextFound(cx: Context, s: string, i: nat, name: Ident, op: TextOp) returns (p: Part)
    requires NameAt(s, i, name, TextOpName(op)) && TextArgument(s, i + 1 + |IdentText(name)|, op).Ok?
    ensures PartAt(cx, s, i, p, TextArgument(s, i + 1 + |IdentText(name)|, op))
  {
    hide At, IdentText, IdentOk, IdentValue, Lower, TextOpName, TextArgument, LiteralText, LiteralOk, LiteralValue, GapText;
    var j := i + 1 + |IdentText(name)|;
    var open, text, close := TextFound(s, j, op);
    p := HasText(name, op, open, text, close);
    JoinName(s, i, IdentText(name), "(" + (GapText(open) + (LiteralText(text) + (GapText(close) + ")"))));
  }

  lemma CallFound(cx: Context, s: string, i: nat, name: Ident, fn: UnaryOp) returns (p: Part)
    requires NameAt(s, i, name, CallName(fn)) && FunctionArgument(cx, s, i + 1 + |IdentText(name)|, fn).Ok?
    ensures PartAt(cx, s, i, p, FunctionArgument(cx, s, i + 1 + |IdentText(name)|, fn))
    decreases |s| - (i + 1 + |IdentText(name)|), 0
  {
    hide At, IdentText, IdentOk, IdentValue, Lower, CallName, ChoiceText, ChoiceTree, ChoiceOk, Group, SkipWhite, Ends;
    var j := i + 1 + |IdentText(name)|;
    GroupSkips(cx, s, j + 1);
    var g := GroupFound(cx, s, j + 1);
    CloseAtOnce(s, j + 1 + |ChoiceText(g)|, g.tail);
    p := Call(name, fn, g);
    AtChar(s, j, '(');
    AtChar(s, j + 1 + |ChoiceText(g)|, ')');
    AtJoin(s, j + 1, ChoiceText(g), ")");
    AtJoin(s, j, "(", ChoiceText(g) + ")");
    JoinName(s, i, IdentText(name), "(" + (ChoiceText(g) + ")"));
  }

  /** No gap is left before the parenthesis that closes a group. */
  lemma CloseAtOnce(s: string, n: nat, tail: Gap)
    requires n <= |s| && Ends(s, n, tail) && CharAt(s, n) != Some(',') && Closing(s, n).Some?
    ensures CharAt(s, n) == Some(')') && Closing(s, n) == Some(n + 1)
  {
    if CharAt(s, n) == Some(')') { NoWhite(s, n); }
  }

  lemma SimpleFound(cx: Context, s: string, i: nat) returns (p: Part)
    requires i < |s| && StartsSimple(s[i]) && SimpleSelector(cx, s, i).Ok?
    ensures PartAt(cx, s, i, p, SimpleSelector(cx, s, i))
    decreases |s| - i, 1
  {
    hide PartAt, IdSelector, ClassSelector, AttributeSelector, PseudoSelector;
    match s[i]
    case '#' => p := IdFound(cx, s, i);
    case '.' => p := ClassFound(cx, s, i);
    case '[' => p := AttributeFound(cx, s, i);
    case _ => p := PseudoFound(cx, s, i);
  }

  // ---------------------------------------------------------------------------------------
  // Compounds

  /** A compound is written from `i` to `m`. */
  ghost predicate CompoundAt(s: string, i: nat, k: Compound, m: nat) {
    At(s, i, CompoundText(k)) && m == i + |CompoundText(k)| && CompoundOk(k, CharAt(s, m))
  }

  /** What a sequence goes on with behind a compound makes a longer one. */
  lemma RestFound(cx: Context, s: string, i: nat, before: Compound, m: nat) returns (k: Compound)
    requires m <= |s| && CompoundAt(s, i, before, m)
    requires SequenceRest(cx, s, m, CompoundTree(cx, before)).Ok?
    ensures var r := SequenceRest(cx, s, m, CompoundTree(cx, before));
      CompoundAt(s, i, k, r.next) && r.value == CompoundTree(cx, k) && Whole(CharAt(s, r.next))
    decreases |s| - m, 2
  {
    hide SimpleSelector, CompoundAt, CompoundTree, PartAt;
    k := before;
    if m < |s| && StartsSimple(s[m]) {
      var part := SimpleFound(cx, s, m);
      var n := SimpleSelector(cx, s, m).next;
      AndAt(cx, s, i, before, m, part, SimpleSelector(cx, s, m));
      k := RestFound(cx, s, i, And(before, part), n);
    }
  }

  lemma AndAt(cx: Context, s: string, i: nat, before: Compound, m: nat, part: Part, r: Parse<Selector>)
    requires CompoundAt(s, i, before, m) && r.Ok? && PartAt(cx, s, m, part, r)
    ensures CompoundAt(s, i, And(before, part), r.next)
    ensures CompoundTree(cx, And(before, part)) == Some(Meet(CompoundTree(cx, before), r.value))
  {
    hide At, PartText, PartTree, PartOk;
    AtJoin(s, i, CompoundText(before), PartText(part));
  }

  lemma SequenceFound(cx: Context, s: string, i: nat) returns (k: Compound)
    requires i <= |s| && Sequence(cx, s, i).Ok?
    ensures var r := Sequence(cx, s, i); CompoundAt(s, i, k, r.next) && r.value == WholeTree(cx, k) && Whole(CharAt(s, r.next))
    decreases |s| - i, 3
  {
    hide At, SimpleSelector, PartText, PartTree, PartOk, IdentText, IdentOk, IdentValue, TypeSelector, CompoundAt,
      SequenceRest, Whole, CompoundTree;
    if s[i] == '*' {
      k := AnyFound(cx, s, i);
      k := RestFound(cx, s, i, Any, i + 1);
    } else if StartsSimple(s[i]) {
      k := FirstFound(cx, s, i);
    } else {
      k := TypeFound(cx, s, i);
      k := RestFound(cx, s, i, k, TypeSelector(cx, s, i).next);
    }
  }

  lemma AnyFound(cx: Context, s: string, i: nat) returns (k: Compound)
    requires i < |s| && s[i] == '*'
    ensures k == Any && CompoundAt(s, i, k, i + 1) && CompoundTree(cx, k) == None
  {
    k := Any;
    AtChar(s, i, '*');
  }

  lemma TypeFound(cx: Context, s: string, i: nat) returns (k: Compound)
    requires i <= |s| && TypeSelector(cx, s, i).Ok?
    ensures var r := TypeSelector(cx, s, i); CompoundAt(s, i, k, r.next) && CompoundTree(cx, k) == Some(r.value)
  {
    hide At, Identifier, IdentText, IdentOk, IdentValue;
    var tag := IdentFound(s, i);
    k := Type(tag);
  }

  lemma FirstFound(cx: Context, s: string, i: nat) returns (k: Compound)
    requires i < |s| && StartsSimple(s[i]) && SequenceRest(cx, s, i, None).Ok?
    ensures var r := SequenceRest(cx, s, i, None);
      CompoundAt(s, i, k, r.next) && r.value == CompoundTree(cx, k) && Whole(CharAt(s, r.next))
    decreases |s| - i, 2
  {
    hide At, SimpleSelector, PartText, PartTree, PartOk;
    var part := SimpleFound(cx, s, i);
    k := RestFound(cx, s, i, First(part), i + |PartText(part)|);
  }

  // ---------------------------------------------------------------------------------------
  // Combinations

  /** A combination is written from `i` to `m`. */
  ghost predicate ComplexAt(s: string, i: nat, x: Complex, m: nat) {
    At(s, i, ComplexText(x)) && m == i + |ComplexText(x)| && ComplexOk(x, CharAt(s, m))
  }

  lemma LinkedAt(s: string, i: nat, x: Complex, m: nat, j: Joint, k: Compound, n: nat)
    requires ComplexAt(s, i, x, m) && JointOk(j) && At(s, m, JointText(j)) && CompoundAt(s, m + |JointText(j)|, k, n)
    requires Whole(CharAt(s, n))
    ensures ComplexAt(s, i, Linked(x, j, k), n)
  {
    hide At, ComplexText, CompoundText, JointText, ComplexOk, CompoundOk, JointOk, Whole;
    AtJoin(s, m, JointText(j), CompoundText(k));
    AtJoin(s, i, ComplexText(x), JointText(j) + CompoundText(k));
    JointHead(j, CompoundText(k), CharAt(s, n));
    LinkedText(x, j, k, CharAt(s, n));
  }

  lemma LinkedText(x: Complex, j: Joint, k: Compound, c: Option<char>)
    ensures ComplexText(Linked(x, j, k)) == ComplexText(x) + (JointText(j) + CompoundText(k))
    ensures ComplexOk(Linked(x, j, k), c) <==> JointOk(j) && ComplexOk(x, Head(JointText(j), None)) && CompoundOk(k, c) && Whole(c)
  {}

  lemma SignFound(s: string, i: nat, l: Gap, r: Gap, c: char) returns (j: Joint)
    requires IsCombinator(c) && At(s, i, GapText(l)) && CharAt(s, i + |GapText(l)|) == Some(c) && At(s, i + |GapText(l)| + 1, GapText(r))
    ensures JointOk(j) && At(s, i, JointText(j)) && |JointText(j)| == |GapText(l)| + 1 + |GapText(r)|
    ensures forall a, b :: JointTree(j, a, b) == Combine(c, a, b)
  {
    hide At, GapText;
    j := if c == '>' then Sub(l, r) else if c == '+' then Next(l, r) else After(l, r);
    AtChar(s, i + |GapText(l)|, c);
    AtJoin(s, i + |GapText(l)|, [c], GapText(r));
    AtJoin(s, i, GapText(l), [c] + GapText(r));
  }

  /** The next combinator, and where the compound behind it starts. */
  lemma JointFound(s: string, i: nat) returns (j: Joint)
    requires i <= |s| && SkipWhite(s, i) < |s|
    requires IsCombinator(s[SkipWhite(s, i)]) || SkipWhite(s, i) != i
    ensures var n, c := SkipWhite(s, i), s[SkipWhite(s, i)];
      && JointOk(j) && At(s, i, JointText(j))
      && i + |JointText(j)| == (if IsCombinator(c) then SkipWhite(s, n + 1) else n)
      && forall a, b :: JointTree(j, a, b) == Combine(if IsCombinator(c) then c else ' ', a, b)
  {
    hide At, GapText, SkipWhite;
    var l := GapFound(s, i);
    var n := SkipWhite(s, i);
    if IsCombinator(s[n]) {
      var r := GapFound(s, n + 1);
      j := SignFound(s, i, l, r, s[n]);
    } else {
      j := Below(l);
    }
  }

  /** What a combination goes on with makes a longer one, and a gap that ends it. */
  lemma SelectorRestFound(cx: Context, s: string, i: nat, before: Complex, m: nat) returns (x: Complex, tail: Gap)
    requires m <= |s| && ComplexAt(s, i, before, m) && SelectorRest(cx, s, m, ComplexTree(cx, before)).Ok?
    ensures var r := SelectorRest(cx, s, m, ComplexTree(cx, before));
      && ComplexAt(s, i, x, i + |ComplexText(x)|) && At(s, i + |ComplexText(x)|, GapText(tail))
      && r == Ok(ComplexTree(cx, x), i + |ComplexText(x)| + |GapText(tail)|) && Ends(s, r.next, tail)
    decreases |s| - m, 4
  {
    hide At, GapText, SkipWhite, Sequence, ComplexText, ComplexTree, JointText, JointOk, CompoundText, ComplexAt,
      CompoundAt, WholeTree, Whole, JointTree;
    var j := SkipWhite(s, m);
    if j == |s| || (!IsCombinator(s[j]) && (s[j] == ',' || s[j] == ')' || j == m)) {
      x := before;
      tail := GapFound(s, m);
      ComplexEnd(s, i, x, m);
    } else {
      var joint := JointFound(s, m);
      var k := SequenceFound(cx, s, m + |JointText(joint)|);
      var n := Sequence(cx, s, m + |JointText(joint)|).next;
      LinkedAt(s, i, before, m, joint, k, n);
      LinkedTree(cx, before, joint, k);
      x, tail := SelectorRestFound(cx, s, i, Linked(before, joint, k), n);
    }
  }

  lemma ComplexEnd(s: string, i: nat, x: Complex, m: nat)
    requires ComplexAt(s, i, x, m)
    ensures m == i + |ComplexText(x)|
  {}

  lemma LinkedTree(cx: Context, b: Complex, j: Joint, k: Compound)
    ensures ComplexTree(cx, Linked(b, j, k)) == JointTree(j, ComplexTree(cx, b), WholeTree(cx, k))
  {}

  // ---------------------------------------------------------------------------------------
  // Groups

  lemma ItemFound(cx: Context, s: string, i: nat) returns (lead: Gap, x: Complex, tail: Gap)
    requires i <= |s| && ComplexSelector(cx, s, i).Ok?
    ensures At(s, i, GapText(lead) + (ComplexText(x) + GapText(tail)))
    ensures var n := i + |GapText(lead) + (ComplexText(x) + GapText(tail))|;
      ComplexOk(x, Head(GapText(tail), CharAt(s, n))) && Ends(s, n, tail) && ComplexSelector(cx, s, i) == Ok(ComplexTree(cx, x), n)
    decreases |s| - i, 5
  {
    hide At, GapText, SkipWhite, Sequence, SelectorRest, CompoundText, CompoundOk, WholeTree, Whole, Ends;
    lead := GapFound(s, i);
    var j := i + |GapText(lead)|;
    var k := SequenceFound(cx, s, j);
    x, tail := SelectorRestFound(cx, s, j, One(k), j + |CompoundText(k)|);
    hide ComplexText, ComplexOk, ComplexTree;
    AtJoin(s, j, ComplexText(x), GapText(tail));
    AtJoin(s, i, GapText(lead), ComplexText(x) + GapText(tail));
  }

  /** A group is written from `i` to `n`, and ends there. */
  ghost predicate GroupAt(s: string, i: nat, g: Choice, n: nat) {
    At(s, i, ChoiceText(g)) && n == i + |ChoiceText(g)| && ChoiceOk(g, CharAt(s, n)) && Ends(s, n, g.tail)
  }

  lemma GroupRestFound(cx: Context, s: string, i: nat, before: Choice, m: nat) returns (g: Choice)
    requires m <= |s| && GroupAt(s, i, before, m) && GroupRest(cx, s, m, ChoiceTree(cx, before)).Ok?
    ensures var r := GroupRest(cx, s, m, ChoiceTree(cx, before));
      GroupAt(s, i, g, r.next) && r.value == ChoiceTree(cx, g) && CharAt(s, r.next) != Some(',')
    decreases |s| - m, 6
  {
    hide At, GapText, ComplexSelector, ComplexText, ComplexTree, ComplexOk, Ends;
    g := before;
    if m < |s| && s[m] == ',' {
      var lead, x, tail := ItemFound(cx, s, m + 1);
      var t := GapText(lead) + (ComplexText(x) + GapText(tail));
      AtChar(s, m, ',');
      AtJoin(s, m, ",", t);
      AtJoin(s, i, ChoiceText(before), "," + t);
      g := GroupRestFound(cx, s, i, Or(before, lead, x, tail), m + 1 + |t|);
    }
  }

  /** What is read as a group is a written one. */
  lemma GroupFound(cx: Context, s: string, i: nat) returns (g: Choice)
    requires i <= |s| && Group(cx, s, i).Ok?
    ensures var r := Group(cx, s, i);
      GroupAt(s, i, g, r.next) && r.value == ChoiceTree(cx, g) && CharAt(s, r.next) != Some(',')
    decreases |s| - i, 7
  {
    hide At, GapText, ComplexSelector, ComplexText, ComplexTree, ComplexOk, Ends, GroupRest;
    var lead, x, tail := ItemFound(cx, s, i);
    g := GroupRestFound(cx, s, i, Single(lead, x, tail), ComplexSelector(cx, s, i).next);
  }

  /** Some group is written from `i` to `n`, that does not go on there and stands for `t`. */
  ghost predicate Spells(cx: Context, s: string, i: nat, t: Selector, n: nat) {
    exists g :: GroupAt(s, i, g, n) && CharAt(s, n) != Some(',') && ChoiceTree(cx, g) == t
  }

  /** The exact language of the parser: it returns a tree exactly when a group that stands for it is written
      there, and uses its text; it throws exactly where none is. */
  lemma GroupExactly(cx: Context, s: string, i: nat)
    requires i <= |s|
    ensures forall t, n :: Group(cx, s, i) == Ok(t, n) <==> Spells(cx, s, i, t, n)
    ensures Group(cx, s, i) == Error <==> !exists t, n :: Spells(cx, s, i, t, n)
  {
    hide Group, GroupAt, ChoiceTree;
    if Group(cx, s, i).Ok? {
      var g := GroupFound(cx, s, i);
      assert Spells(cx, s, i, Group(cx, s, i).value, Group(cx, s, i).next);
    }
    forall t, n | Spells(cx, s, i, t, n) ensures Group(cx, s, i) == Ok(t, n) {
      var g :| GroupAt(s, i, g, n) && CharAt(s, n) != Some(',') && ChoiceTree(cx, g) == t;
      WrittenReads(cx, s, i, g, n);
    }
  }

  lemma WrittenReads(cx: Context, s: string, i: nat, g: Choice, n: nat)
    requires GroupAt(s, i, g, n) && CharAt(s, n) != Some(',')
    ensures i <= |s| && Group(cx, s, i) == Ok(ChoiceTree(cx, g), n)
  {
    hide Group, ChoiceTree, ChoiceText, ChoiceOk, Ends;
    ChoiceReads(cx, s, i, g);
  }
}
