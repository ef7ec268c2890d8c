/** How a selector group may be written, with every freedom of layout the parser allows, and the tree that it
    stands for. Each written group is read as its tree, and uses exactly its text. */
module SelectorPrinter {
  import opened Options
  import opened Selectors
  import opened Ascii
  import opened SelectorSyntax
  import opened SelectorNames
  import opened SelectorNth

  type TestOp = o: AttrOp | o != Exists witness Equals

  datatype Place = FirstChild | LastChild | FirstOfType | LastOfType | SingleChild | SingleOfType | Childless

  /** A simple selector with the gaps inside its brackets or parentheses. Pseudo-class names may be written in
      any case and with escapes. */
  datatype Part =
    | Id(id: seq<Glyph>)
    | Class(cls: Ident)
    | HasAttr(open: Gap, key: Ident, close: Gap)
    | TestAttr(open: Gap, key: Ident, left: Gap, op: TestOp, right: Gap, value: Literal, close: Gap)
    | Placed(name: Ident, place: Place)
    | Counted(name: Ident, last: bool, ofType: bool, open: Gap, arg: Argument, close: Gap)
    | HasText(name: Ident, textOp: TextOp, open: Gap, text: Literal, close: Gap)
    | Call(name: Ident, fn: UnaryOp, group: Choice)

  /** Simple selectors side by side; the first may be a type, `*`, or just a simple selector. */
  datatype Compound = Any | Type(tag: Ident) | First(part: Part) | And(before: Compound, part: Part)

  /** White space or comments, or a sign with gaps around it. */
  datatype Joint = Below(gap: Gap) | Sub(left: Gap, right: Gap) | Next(left: Gap, right: Gap) | After(left: Gap, right: Gap)

  datatype Complex = One(compound: Compound) | Linked(before: Complex, joint: Joint, compound: Compound)

  datatype Choice =
    | Single(lead: Gap, complex: Complex, tail: Gap)
    | Or(before: Choice, lead: Gap, complex: Complex, tail: Gap)

  // ---------------------------------------------------------------------------------------
  // The trees

  function PlaceTree(p: Place): Simple {
    match p
    case FirstChild => NthChild(0, 1, false, false)
    case LastChild => NthChild(0, 1, true, false)
    case FirstOfType => NthChild(0, 1, false, true)
    case LastOfType => NthChild(0, 1, true, true)
    case SingleChild => OnlyChild(false)
    case SingleOfType => OnlyChild(true)
    case Childless => Empty
  }

  function PartTree(cx: Context, p: Part): Selector
    decreases p
  {
    match p
    case Id(id) => Leaf(Attr(Equals, "id", NameValue(id)))
    case Class(cls) => Leaf(Attr(Includes, "class", IdentValue(cls)))
    case HasAttr(_, key, _) => Leaf(Attr(Exists, IdentValue(key), ""))
    case TestAttr(_, key, _, op, _, value, _) => Leaf(Attr(op, IdentValue(key), LiteralValue(value)))
    case Placed(_, place) => Leaf(PlaceTree(place))
    case Counted(_, last, ofType, _, arg, _) => Leaf(Counting(arg, last, ofType))
    case HasText(_, op, _, text, _) => Leaf(Text(op, Lower(LiteralValue(text))))
    case Call(_, fn, group) => Unary(fn, ChoiceTree(cx, group))
  }

  /** Nothing for a lone `*`, which adds nothing to what follows it. */
  function CompoundTree(cx: Context, c: Compound): Option<Selector>
    decreases c, 0
  {
    match c
    case Any => None
    case Type(tag) => Some(Leaf(Tag(cx.tagEnum(IdentValue(tag)))))
    case First(part) => Some(PartTree(cx, part))
    case And(before, part) =>
      var b := CompoundTree(cx, before);
      Some(if b.None? then PartTree(cx, part) else Intersection(b.value, PartTree(cx, part)))
  }

  function WholeTree(cx: Context, c: Compound): Selector
    decreases c, 1
  {
    var t := CompoundTree(cx, c);
    if t.None? then Leaf(Dummy) else t.value
  }

  /** Left-nested. */
  function ComplexTree(cx: Context, x: Complex): Selector
    decreases x
  {
    match x
    case One(c) => WholeTree(cx, c)
    case Linked(b, j, c) => JointTree(j, ComplexTree(cx, b), WholeTree(cx, c))
  }

  function JointTree(j: Joint, l: Selector, r: Selector): Selector {
    match j
    case Below(_) => Descendant(l, r)
    case Sub(_, _) => Child(l, r)
    case Next(_, _) => Adjacent(l, r, true)
    case After(_, _) => Adjacent(l, r, false)
  }

  function ChoiceTree(cx: Context, g: Choice): Selector
    decreases g
  {
    match g
    case Single(_, x, _) => ComplexTree(cx, x)
    case Or(b, _, x, _) => Union(ChoiceTree(cx, b), ComplexTree(cx, x))
  }

  // ---------------------------------------------------------------------------------------
  // The texts

  function OpText(op: TestOp): (t: string)
    ensures 0 < |t| <= 2
  {
    match op
    case Equals => "="
    case Includes => "~="
    case DashMatch => "|="
    case Prefix => "^="
    case Suffix => "$="
    case SubString => "*="
  }

  function PlaceName(p: Place): string {
    match p
    case FirstChild => "first-child"
    case LastChild => "last-child"
    case FirstOfType => "first-of-type"
    case LastOfType => "last-of-type"
    case SingleChild => "only-child"
    case SingleOfType => "only-of-type"
    case Childless => "empty"
  }

  function CountName(last: bool, ofType: bool): string {
    if ofType then if last then "nth-last-of-type" else "nth-of-type"
    else if last then "nth-last-child" else "nth-child"
  }

  function TextOpName(op: TextOp): string { if op == Contains then "contains" else "containsown" }

  function CallName(fn: UnaryOp): string {
    match fn
    case Not => "not"
    case HasDescendant => "has"
    case HasChild => "haschild"
  }

  /** What follows the key of an attribute test. */
  function TestText(left: Gap, op: TestOp, right: Gap, value: Literal, close: Gap): string {
    GapText(left) + (OpText(op) + (GapText(right) + (LiteralText(value) + (GapText(close) + "]"))))
  }

  function PartText(p: Part): (t: string)
    ensures |t| > 0 && StartsSimple(t[0])
    decreases p
  {
    match p
    case Id(id) => "#" + NameText(id)
    case Class(cls) => "." + IdentText(cls)
    case HasAttr(open, key, close) => "[" + (GapText(open) + (IdentText(key) + (GapText(close) + "]")))
    case TestAttr(open, key, left, op, right, value, close) =>
      "[" + (GapText(open) + (IdentText(key) + TestText(left, op, right, value, close)))
    case Placed(name, _) => ":" + IdentText(name)
    case Counted(name, _, _, open, arg, close) => ":" + (IdentText(name) + InParentheses(open, arg, close))
    case HasText(name, _, open, text, close) =>
      ":" + (IdentText(name) + ("(" + (GapText(open) + (LiteralText(text) + (GapText(close) + ")")))))
    case Call(name, _, group) => ":" + (IdentText(name) + ("(" + (ChoiceText(group) + ")")))
  }

  function CompoundText(c: Compound): string
    decreases c
  {
    match c
    case Any => "*"
    case Type(tag) => IdentText(tag)
    case First(part) => PartText(part)
    case And(before, part) => CompoundText(before) + PartText(part)
  }

  function JointText(j: Joint): string {
    match j
    case Below(gap) => GapText(gap)
    case Sub(left, right) => GapText(left) + (">" + GapText(right))
    case Next(left, right) => GapText(left) + ("+" + GapText(right))
    case After(left, right) => GapText(left) + ("~" + GapText(right))
  }

  function ComplexText(x: Complex): string
    decreases x
  {
    match x
    case One(c) => CompoundText(c)
    case Linked(b, j, c) => ComplexText(b) + (JointText(j) + CompoundText(c))
  }

  function ChoiceText(g: Choice): string
    decreases g
  {
    match g
    case Single(lead, x, tail) => GapText(lead) + (ComplexText(x) + GapText(tail))
    case Or(b, lead, x, tail) => ChoiceText(b) + ("," + (GapText(lead) + (ComplexText(x) + GapText(tail))))
  }

  // ---------------------------------------------------------------------------------------
  // Which spellings stand for themselves, with `c` behind them

  /** The name of a pseudo-class, in any case. */
  predicate Named(name: Ident, t: string, c: Option<char>) { IdentOk(name, c) && Lower(IdentValue(name)) == t }

  predicate PartOk(p: Part, c: Option<char>)
    decreases p
  {
    match p
    case Id(id) => id != [] && NameOk(id, c)
    case Class(cls) => IdentOk(cls, c)
    case HasAttr(_, key, close) => IdentOk(key, Head(GapText(close), Some(']')))
    case TestAttr(_, key, left, op, _, value, close) =>
      IdentOk(key, Head(GapText(left), Some(OpText(op)[0]))) && LiteralOk(value, Head(GapText(close), Some(']')))
    case Placed(name, place) => Named(name, PlaceName(place), c)
    case Counted(name, last, ofType, _, arg, close) =>
      Named(name, CountName(last, ofType), Some('(')) && ArgumentOk(arg, Head(GapText(close), Some(')'))) && Accepted(arg)
    case HasText(name, op, _, text, close) =>
      Named(name, TextOpName(op), Some('(')) && LiteralOk(text, Head(GapText(close), Some(')')))
    case Call(name, fn, group) => Named(name, CallName(fn), Some('(')) && ChoiceOk(group, Some(')'))
  }

  predicate CompoundOk(k: Compound, c: Option<char>)
    decreases k
  {
    match k
    case Any => true
    case Type(tag) => IdentOk(tag, c)
    case First(part) => PartOk(part, c)
    case And(before, part) => CompoundOk(before, Some(PartText(part)[0])) && PartOk(part, c)
  }

  /** No simple selector follows. */
  predicate Whole(c: Option<char>) { c.Some? ==> !StartsSimple(c.value) }

  predicate ComplexOk(x: Complex, c: Option<char>)
    decreases x
  {
    match x
    case One(k) => CompoundOk(k, c) && Whole(c)
    case Linked(b, j, k) => JointOk(j) && ComplexOk(b, Head(JointText(j), None)) && CompoundOk(k, c) && Whole(c)
  }

  predicate JointOk(j: Joint) { j.Below? ==> j.gap != [] }

  predicate ChoiceOk(g: Choice, c: Option<char>)
    decreases g
  {
    match g
    case Single(_, x, tail) => ComplexOk(x, Head(GapText(tail), c))
    case Or(b, _, x, tail) => ChoiceOk(b, Some(',')) && ComplexOk(x, Head(GapText(tail), c))
  }

  // ---------------------------------------------------------------------------------------
  // Attribute tests

  /** Neither white space nor a comment may begin so. */
  lemma IdentSolid(c: char)
    requires StartsIdent(c)
    ensures Solid(Some(c)) && c != '*' && !StartsSimple(c) && !IsCombinator(c) && c != ',' && c != ')'
  {}

  lemma KeyReads(s: string, i: nat, open: Gap, key: Ident, t: string)
    requires At(s, i, "[" + (GapText(open) + (IdentText(key) + t))) && t != "" && IdentOk(key, Some(t[0]))
    ensures var j := i + 1 + |GapText(open)| + |IdentText(key)|;
      && i < |s| && s[i] == '[' && Identifier(s, SkipWhite(s, i + 1)) == Ok(IdentValue(key), j) && At(s, j, t)
      && i + |"[" + (GapText(open) + (IdentText(key) + t))| == j + |t|
  {
    hide At, GapText, IdentText, IdentOk, Identifier, SkipWhite, IdentValue, Solid;
    var g, k := GapText(open), IdentText(key);
    AtSplit(s, i, "[", g + (k + t));
    AtChar(s, i, '[');
    AtSplit(s, i + 1, g, k + t);
    AtSplit(s, i + 1 + |g|, k, t);
    IdentReads(s, i + 1 + |g|, key);
    IdentSolid(s[i + 1 + |g|]);
    GapReads(s, i + 1, open);
  }

  /** A gap before a closing bracket or parenthesis. */
  lemma CloseReads(s: string, i: nat, g: Gap, c: char)
    requires At(s, i, GapText(g) + [c]) && Solid(Some(c))
    ensures i <= |s| && SkipWhite(s, i) == i + |GapText(g)| && i + |GapText(g)| < |s| && s[i + |GapText(g)|] == c
    ensures CharAt(s, i) == Head(GapText(g), Some(c))
  {
    hide At, GapText, SkipWhite, Solid;
    AtSplit(s, i, GapText(g), [c]);
    AtChar(s, i + |GapText(g)|, c);
    GapReads(s, i, g);
  }

  lemma HeadOf(a: string, b: string, c: Option<char>)
    requires b != ""
    ensures a + b != "" && Some((a + b)[0]) == Head(a, Some(b[0])) == Head(a + b, c)
  {}

  lemma HasAttrReads(s: string, i: nat, p: Part)
    requires p.HasAttr? && At(s, i, PartText(p)) && PartOk(p, None)
    ensures i < |s| && AttributeSelector(s, i) == Ok(Leaf(Attr(Exists, IdentValue(p.key), "")), i + |PartText(p)|)
  {
    hide At, GapText, IdentText, IdentOk, Identifier, SkipWhite, IdentValue;
    HeadOf(GapText(p.close), "]", None);
    KeyReads(s, i, p.open, p.key, GapText(p.close) + "]");
    CloseReads(s, i + 1 + |GapText(p.open)| + |IdentText(p.key)|, p.close, ']');
  }

  lemma OperatorReads(s: string, i: nat, op: TestOp, rest: string)
    requires At(s, i, OpText(op) + rest) && |rest| > 0
    ensures Operator(s, i) == Ok(Some(op), i + |OpText(op)|) && i < |s| && s[i] != ']' && s[i] == OpText(op)[0]
    ensures Solid(CharAt(s, i))
  {
    hide At;
    AtSplit(s, i, OpText(op), rest);
    AtIndex(s, i, OpText(op), 0);
    AtIndex(s, i + |OpText(op)|, rest, 0);
    if |OpText(op)| == 2 { AtIndex(s, i, OpText(op), 1); }
  }

  /** A value, a gap, and a bracket or parenthesis. */
  lemma LiteralReads(s: string, i: nat, v: Literal, close: Gap, c: char)
    requires At(s, i, LiteralText(v) + (GapText(close) + [c])) && Solid(Some(c)) && LiteralOk(v, Head(GapText(close), Some(c)))
    ensures i < |s| && Value(s, i) == Ok(LiteralValue(v), i + |LiteralText(v)|) && Solid(CharAt(s, i))
    ensures SkipWhite(s, i + |LiteralText(v)|) == i + |LiteralText(v)| + |GapText(close)|
    ensures CharAt(s, i + |LiteralText(v)| + |GapText(close)|) == Some(c)
  {
    hide At, GapText, LiteralText, LiteralOk, LiteralValue, Value, SkipWhite, Solid;
    AtSplit(s, i, LiteralText(v), GapText(close) + [c]);
    HeadOf(GapText(close), [c], None);
    CloseReads(s, i + |LiteralText(v)|, close, c);
    ValueReads(s, i, v);
  }

  /** Behind the operator: a gap, the value, a gap and the bracket. */
  lemma AttributeValueReads(s: string, i: nat, key: string, op: TestOp, right: Gap, value: Literal, close: Gap)
    requires At(s, i, GapText(right) + (LiteralText(value) + (GapText(close) + "]")))
    requires LiteralOk(value, Head(GapText(close), Some(']')))
    ensures i <= |s| && AttributeValue(s, key, Some(op), SkipWhite(s, i))
      == Ok(Leaf(Attr(op, key, LiteralValue(value))), i + |GapText(right) + (LiteralText(value) + (GapText(close) + "]"))|)
  {
    hide At, GapText, LiteralText, LiteralOk, LiteralValue, Value, SkipWhite, Solid;
    var g, v, z := GapText(right), LiteralText(value), GapText(close) + "]";
    AtSplit(s, i, g, v + z);
    BracketSolid();
    LiteralReads(s, i + |g|, value, close, ']');
    GapReads(s, i, right);
  }

  lemma BracketSolid()
    ensures Solid(Some(']')) && Solid(Some(')')) && Solid(Some('(')) && Solid(Some(','))
  {}

  lemma TestAttrReads(s: string, i: nat, p: Part)
    requires p.TestAttr? && At(s, i, PartText(p)) && PartOk(p, None)
    ensures i < |s| && AttributeSelector(s, i)
      == Ok(Leaf(Attr(p.op, IdentValue(p.key), LiteralValue(p.value))), i + |PartText(p)|)
  {
    hide At, GapText, IdentText, IdentOk, IdentValue, Identifier, SkipWhite, LiteralText, LiteralOk, LiteralValue,
      OpText, Operator, AttributeValue, Solid;
    var v := GapText(p.right) + (LiteralText(p.value) + (GapText(p.close) + "]"));
    var l, o := GapText(p.left), OpText(p.op);
    HeadOf(o, v, None);
    HeadOf(l, o + v, None);
    KeyReads(s, i, p.open, p.key, l + (o + v));
    var j := i + 1 + |GapText(p.open)| + |IdentText(p.key)|;
    AtSplit(s, j, l, o + v);
    AtSplit(s, j + |l|, o, v);
    OperatorReads(s, j + |l|, p.op, v);
    GapReads(s, j, p.left);
    AttributeValueReads(s, j + |l| + |o|, IdentValue(p.key), p.op, p.right, p.value, p.close);
  }

  // ---------------------------------------------------------------------------------------
  // Pseudo-classes

  lemma PlaceNames(p: Place)
    ensures PseudoOf(PlaceName(p)) == Fixed(PlaceTree(p))
  {}

  lemma CountNames(last: bool, ofType: bool)
    ensures PseudoOf(CountName(last, ofType)) == Nth(last, ofType)
  {}

  lemma TextOpNames(op: TextOp)
    ensures PseudoOf(TextOpName(op)) == TextTest(op)
  {}

  lemma CallNames(fn: UnaryOp)
    ensures PseudoOf(CallName(fn)) == Function(fn)
  {}

  /** A pseudo-class name is recognised however it is written. */
  lemma NamedReads(s: string, i: nat, name: Ident, n: string, t: string)
    requires At(s, i, ":" + (IdentText(name) + t)) && Named(name, n, Head(t, CharAt(s, i + 1 + |IdentText(name)| + |t|)))
    ensures var j := i + 1 + |IdentText(name)|;
      && i < |s| && s[i] == ':' && Identifier(s, i + 1) == Ok(IdentValue(name), j) && Lower(IdentValue(name)) == n
      && At(s, j, t) && i + |":" + (IdentText(name) + t)| == j + |t|
  {
    hide At, IdentText, IdentOk, Identifier, IdentValue, Lower;
    AtSplit(s, i, ":", IdentText(name) + t);
    AtChar(s, i, ':');
    AtSplit(s, i + 1, IdentText(name), t);
    IdentReads(s, i + 1, name);
  }

  lemma PlaceReads(cx: Context, s: string, i: nat, p: Part)
    requires p.Placed? && At(s, i, PartText(p)) && PartOk(p, CharAt(s, i + |PartText(p)|))
    ensures i < |s| && PseudoSelector(cx, s, i) == Ok(Leaf(PlaceTree(p.place)), i + |PartText(p)|)
  {
    hide At, IdentText, IdentOk, Identifier, IdentValue, Lower, PlaceName, PlaceTree, PseudoOf;
    assert IdentText(p.name) + "" == IdentText(p.name);
    NamedReads(s, i, p.name, PlaceName(p.place), "");
    PlaceNames(p.place);
  }

  lemma CountedReads(cx: Context, s: string, i: nat, p: Part)
    requires p.Counted? && At(s, i, PartText(p)) && PartOk(p, None)
    ensures i < |s| && PseudoSelector(cx, s, i) == Ok(Leaf(Counting(p.arg, p.last, p.ofType)), i + |PartText(p)|)
  {
    hide At, IdentText, IdentOk, Identifier, IdentValue, Lower, CountName, PseudoOf, NthArgument, ArgumentOk,
      Accepted, Counting, ArgumentText, GapText;
    var t := InParentheses(p.open, p.arg, p.close);
    NamedReads(s, i, p.name, CountName(p.last, p.ofType), t);
    CountNames(p.last, p.ofType);
    NthReads(cx, s, i + 1 + |IdentText(p.name)|, p.open, p.arg, p.close, p.last, p.ofType);
  }

  lemma TextArgumentReads(s: string, i: nat, op: TextOp, open: Gap, text: Literal, close: Gap)
    requires At(s, i, "(" + (GapText(open) + (LiteralText(text) + (GapText(close) + ")"))))
    requires LiteralOk(text, Head(GapText(close), Some(')')))
    ensures i < |s| && TextArgument(s, i, op)
      == Ok(Leaf(Text(op, Lower(LiteralValue(text)))), i + |"(" + (GapText(open) + (LiteralText(text) + (GapText(close) + ")")))|)
  {
    hide At, GapText, LiteralText, LiteralOk, LiteralValue, Value, SkipWhite, Solid, Lower;
    var g, v, z := GapText(open), LiteralText(text), GapText(close) + ")";
    AtSplit(s, i, "(", g + (v + z));
    AtChar(s, i, '(');
    AtSplit(s, i + 1, g, v + z);
    BracketSolid();
    LiteralReads(s, i + 1 + |g|, text, close, ')');
    GapReads(s, i + 1, open);
    NoWhite(s, i + 1 + |g| + |v| + |GapText(close)|);
  }

  lemma HasTextReads(cx: Context, s: string, i: nat, p: Part)
    requires p.HasText? && At(s, i, PartText(p)) && PartOk(p, None)
    ensures i < |s| && PseudoSelector(cx, s, i) == Ok(Leaf(Text(p.textOp, Lower(LiteralValue(p.text)))), i + |PartText(p)|)
  {
    hide At, IdentText, IdentOk, Identifier, IdentValue, Lower, TextOpName, PseudoOf, TextArgument, LiteralText,
      LiteralOk, LiteralValue, GapText;
    var t := "(" + (GapText(p.open) + (LiteralText(p.text) + (GapText(p.close) + ")")));
    NamedReads(s, i, p.name, TextOpName(p.textOp), t);
    TextOpNames(p.textOp);
    TextArgumentReads(s, i + 1 + |IdentText(p.name)|, p.textOp, p.open, p.text, p.close);
  }

  // ---------------------------------------------------------------------------------------
  // Compounds, combinators and groups

  lemma IdReads(s: string, i: nat, p: Part)
    requires p.Id? && At(s, i, PartText(p)) && PartOk(p, CharAt(s, i + |PartText(p)|))
    ensures i < |s| && IdSelector(s, i) == Ok(Leaf(Attr(Equals, "id", NameValue(p.id))), i + |PartText(p)|)
  {
    hide At, Name, NameText, NameOk, NameValue;
    AtSplit(s, i, "#", NameText(p.id));
    AtChar(s, i, '#');
    NameReads(s, i + 1, p.id);
  }

  lemma ClassReads(s: string, i: nat, p: Part)
    requires p.Class? && At(s, i, PartText(p)) && PartOk(p, CharAt(s, i + |PartText(p)|))
    ensures i < |s| && ClassSelector(s, i) == Ok(Leaf(Attr(Includes, "class", IdentValue(p.cls))), i + |PartText(p)|)
  {
    hide At, Identifier, IdentText, IdentOk, IdentValue;
    AtSplit(s, i, ".", IdentText(p.cls));
    AtChar(s, i, '.');
    IdentReads(s, i + 1, p.cls);
  }

  lemma PartReads(cx: Context, s: string, i: nat, p: Part)
    requires At(s, i, PartText(p)) && PartOk(p, CharAt(s, i + |PartText(p)|))
    ensures i < |s| && StartsSimple(s[i]) && i + |PartText(p)| <= |s|
    ensures SimpleSelector(cx, s, i) == Ok(PartTree(cx, p), i + |PartText(p)|)
    decreases p, 0
  {
    hide At, IdentText, NameText, GapText, LiteralText, PlaceTree, Lower, ChoiceText, ChoiceTree, ChoiceOk, InParentheses,
      PseudoSelector, AttributeSelector, IdSelector, ClassSelector, IdentOk, NameOk, LiteralOk, Named, IdentValue,
      NameValue, LiteralValue, TestText;
    AtIndex(s, i, PartText(p), 0);
    AtEnd(s, i, PartText(p));
    match p
    case Id(_) => IdReads(s, i, p);
    case Class(_) => ClassReads(s, i, p);
    case HasAttr(_, _, _) => HasAttrReads(s, i, p);
    case TestAttr(_, _, _, _, _, _, _) => TestAttrReads(s, i, p);
    case Placed(_, _) => PlaceReads(cx, s, i, p);
    case Counted(_, _, _, _, _, _) => CountedReads(cx, s, i, p);
    case HasText(_, _, _, _, _) => HasTextReads(cx, s, i, p);
    case Call(name, fn, group) => CallReads(cx, s, i, name, fn, group);
  }

  lemma AtEnd(s: string, i: nat, t: string)
    requires At(s, i, t)
    ensures i + |t| <= |s|
  {}

  lemma CallReads(cx: Context, s: string, i: nat, name: Ident, fn: UnaryOp, group: Choice)
    requires At(s, i, PartText(Call(name, fn, group))) && PartOk(Call(name, fn, group), None)
    ensures i < |s| && PseudoSelector(cx, s, i) == Ok(Unary(fn, ChoiceTree(cx, group)), i + |PartText(Call(name, fn, group))|)
    decreases group, 3
  {
    hide At, IdentText, IdentOk, Identifier, IdentValue, Lower, CallName, PseudoOf, ChoiceText, ChoiceTree, ChoiceOk,
      FunctionArgument;
    var t := "(" + (ChoiceText(group) + ")");
    NamedReads(s, i, name, CallName(fn), t);
    CallNames(fn);
    GroupArgumentReads(cx, s, i + 1 + |IdentText(name)|, fn, group);
  }

  lemma GroupArgumentReads(cx: Context, s: string, i: nat, fn: UnaryOp, group: Choice)
    requires At(s, i, "(" + (ChoiceText(group) + ")")) && ChoiceOk(group, Some(')'))
    ensures i < |s| && FunctionArgument(cx, s, i, fn) == Ok(Unary(fn, ChoiceTree(cx, group)), i + |ChoiceText(group)| + 2)
    decreases group, 2
  {
    hide At, SkipWhite, ChoiceText, ChoiceTree, ChoiceOk, Group, Solid;
    var t := ChoiceText(group);
    AtSplit(s, i, "(", t + ")");
    AtChar(s, i, '(');
    AtSplit(s, i + 1, t, ")");
    AtChar(s, i + 1 + |t|, ')');
    ChoiceReads(cx, s, i + 1, group);
    GroupSkips(cx, s, i + 1);
    BracketSolid();
    NoWhite(s, i + 1 + |t|);
  }

  lemma SkipTwice(s: string, i: nat)
    requires i <= |s|
    ensures SkipWhite(s, SkipWhite(s, i)) == SkipWhite(s, i)
  {
    var _ := GapFound(s, i);
  }

  /** A group may be read from behind its first gap. */
  lemma GroupSkips(cx: Context, s: string, i: nat)
    requires i <= |s|
    ensures Group(cx, s, SkipWhite(s, i)) == Group(cx, s, i)
  {
    SkipTwice(s, i);
  }

  /** Reading a compound comes down to reading on behind it with its tree. */
  lemma CompoundReads(cx: Context, s: string, i: nat, k: Compound)
    requires At(s, i, CompoundText(k)) && CompoundOk(k, CharAt(s, i + |CompoundText(k)|))
    ensures i + |CompoundText(k)| <= |s|
    ensures Sequence(cx, s, i) == OrDummy(SequenceRest(cx, s, i + |CompoundText(k)|, CompoundTree(cx, k)))
    decreases k, 0
  {
    hide At, IdentText, IdentOk, SimpleSelector, PartText, PartTree, PartOk, TypeSelector, IdentValue;
    AtEnd(s, i, CompoundText(k));
    match k
    case Any => AtChar(s, i, '*');
    case Type(tag) => TypeReads(cx, s, i, tag);
    case First(part) => PartReads(cx, s, i, part);
    case And(before, part) =>
      AtSplit(s, i, CompoundText(before), PartText(part));
      CompoundReads(cx, s, i, before);
      PartReads(cx, s, i + |CompoundText(before)|, part);
  }

  lemma TypeReads(cx: Context, s: string, i: nat, tag: Ident)
    requires At(s, i, IdentText(tag)) && IdentOk(tag, CharAt(s, i + |IdentText(tag)|))
    ensures i < |s| && s[i] != '*' && !StartsSimple(s[i]) && i + |IdentText(tag)| <= |s|
    ensures TypeSelector(cx, s, i) == Ok(Leaf(Tag(cx.tagEnum(IdentValue(tag)))), i + |IdentText(tag)|)
  {
    hide At, IdentText, Identifier, IdentOk, IdentValue;
    AtEnd(s, i, IdentText(tag));
    IdentReads(s, i, tag);
    IdentSolid(s[i]);
  }

  /** How a compound starts: with no white space, comment, combinator or end. */
  predicate Starts(c: char) { Solid(Some(c)) && !IsCombinator(c) && c != ',' && c != ')' }

  lemma {:induction false} CompoundStarts(k: Compound, c: Option<char>)
    requires CompoundOk(k, c)
    ensures CompoundText(k) != "" && Starts(CompoundText(k)[0])
    decreases k
  {
    hide IdentText, IdentOk, PartText, PartOk;
    match k
    case Any =>
    case Type(tag) =>
      IdentStarts(tag, c);
      IdentSolid(IdentText(tag)[0]);
    case First(part) => SimpleStarts(PartText(part)[0]);
    case And(before, part) => CompoundStarts(before, Some(PartText(part)[0]));
  }

  lemma SimpleStarts(c: char)
    requires StartsSimple(c)
    ensures Starts(c)
  {}

  lemma WholeReads(cx: Context, s: string, i: nat, k: Compound)
    requires At(s, i, CompoundText(k)) && CompoundOk(k, CharAt(s, i + |CompoundText(k)|)) && Whole(CharAt(s, i + |CompoundText(k)|))
    ensures i < |s| && Starts(s[i]) && i + |CompoundText(k)| <= |s|
    ensures Sequence(cx, s, i) == Ok(WholeTree(cx, k), i + |CompoundText(k)|)
    decreases k, 1
  {
    hide At, Sequence, CompoundText, CompoundTree, CompoundOk, Starts;
    CompoundStarts(k, CharAt(s, i + |CompoundText(k)|));
    AtIndex(s, i, CompoundText(k), 0);
    CompoundReads(cx, s, i, k);
  }

  lemma JointStarts(j: Joint)
    requires JointOk(j)
    ensures JointText(j) != ""
  {
    if j.Below? { GapHead(j.gap, None); }
  }

  lemma JointHead(j: Joint, t: string, c: Option<char>)
    requires JointOk(j)
    ensures Head(JointText(j) + t, c) == Head(JointText(j), None)
  {
    hide JointText;
    JointStarts(j);
  }

  /** White space before a compound, and nothing else, is the descendant combinator. */
  lemma BelowReads(cx: Context, s: string, i: nat, acc: Selector, gap: Gap, k: Compound)
    requires At(s, i, GapText(gap) + CompoundText(k)) && gap != []
    requires var c := CharAt(s, i + |GapText(gap) + CompoundText(k)|); CompoundOk(k, c) && Whole(c)
    ensures i + |GapText(gap) + CompoundText(k)| <= |s|
    ensures SelectorRest(cx, s, i, acc)
      == SelectorRest(cx, s, i + |GapText(gap) + CompoundText(k)|, Descendant(acc, WholeTree(cx, k)))
    decreases k, 2
  {
    hide At, Sequence, CompoundText, CompoundOk, WholeTree, SkipWhite, GapText;
    AtSplit(s, i, GapText(gap), CompoundText(k));
    WholeReads(cx, s, i + |GapText(gap)|, k);
    GapReads(s, i, gap);
    GapHead(gap, None);
  }

  lemma SignSkips(s: string, i: nat, left: Gap, c: char, right: Gap, t: string)
    requires IsCombinator(c) && At(s, i, (GapText(left) + ([c] + GapText(right))) + t)
    ensures var j := i + |GapText(left)|; var k := j + 1 + |GapText(right)|;
      && j < |s| && s[j] == c && SkipWhite(s, i) == j && At(s, k, t) && k <= |s|
      && i + |(GapText(left) + ([c] + GapText(right))) + t| == k + |t|
      && (Solid(CharAt(s, k)) ==> SkipWhite(s, j + 1) == k)
  {
    hide At, SkipWhite, GapText, Solid, IsCombinator;
    SignStarts(c);
    var l, r := GapText(left), GapText(right);
    AtSplit(s, i, l + ([c] + r), t);
    AtSplit(s, i, l, [c] + r);
    AtSplit(s, i + |l|, [c], r);
    AtChar(s, i + |l|, c);
    GapReads(s, i, left);
    if Solid(CharAt(s, i + |l| + 1 + |r|)) { GapReads(s, i + |l| + 1, right); }
  }

  /** A sign is the combinator, whatever white space or comments are around it. */
  lemma SignReads(cx: Context, s: string, i: nat, acc: Selector, left: Gap, c: char, right: Gap, k: Compound)
    requires IsCombinator(c) && At(s, i, (GapText(left) + ([c] + GapText(right))) + CompoundText(k))
    requires var n := i + |(GapText(left) + ([c] + GapText(right))) + CompoundText(k)|;
      CompoundOk(k, CharAt(s, n)) && Whole(CharAt(s, n))
    ensures var n := i + |(GapText(left) + ([c] + GapText(right))) + CompoundText(k)|;
      n <= |s| && SelectorRest(cx, s, i, acc) == SelectorRest(cx, s, n, Combine(c, acc, WholeTree(cx, k)))
    decreases k, 2
  {
    hide At, Sequence, CompoundText, CompoundOk, WholeTree, SkipWhite, GapText, Combine, Solid;
    SignSkips(s, i, left, c, right, CompoundText(k));
    WholeReads(cx, s, i + |GapText(left)| + 1 + |GapText(right)|, k);
  }

  lemma SignStarts(c: char)
    requires IsCombinator(c)
    ensures Solid(Some(c))
  {}

  /** A combinator and a compound extend the tree on the left. */
  lemma JointReads(cx: Context, s: string, i: nat, acc: Selector, j: Joint, k: Compound)
    requires At(s, i, JointText(j) + CompoundText(k)) && JointOk(j)
    requires var c := CharAt(s, i + |JointText(j) + CompoundText(k)|); CompoundOk(k, c) && Whole(c)
    ensures i <= |s| && i + |JointText(j) + CompoundText(k)| <= |s|
    ensures SelectorRest(cx, s, i, acc)
      == SelectorRest(cx, s, i + |JointText(j) + CompoundText(k)|, JointTree(j, acc, WholeTree(cx, k)))
    decreases k, 3
  {
    hide At, CompoundText, CompoundOk, WholeTree, GapText, SelectorRest, Whole;
    match j
    case Below(gap) => BelowReads(cx, s, i, acc, gap, k);
    case Sub(l, r) => SignReads(cx, s, i, acc, l, '>', r, k);
    case Next(l, r) => SignReads(cx, s, i, acc, l, '+', r, k);
    case After(l, r) => SignReads(cx, s, i, acc, l, '~', r, k);
  }

  lemma ComplexReads(cx: Context, s: string, i: nat, x: Complex)
    requires At(s, i, ComplexText(x)) && ComplexOk(x, CharAt(s, i + |ComplexText(x)|))
    ensures i + |ComplexText(x)| <= |s| && Solid(CharAt(s, i))
    ensures ComplexSelector(cx, s, i) == SelectorRest(cx, s, i + |ComplexText(x)|, ComplexTree(cx, x))
    decreases x, 0
  {
    hide At, Sequence, CompoundText, CompoundOk, WholeTree, SelectorRest, JointText, JointTree, JointOk, Whole, Solid;
    match x
    case One(k) =>
      WholeReads(cx, s, i, k);
      NoWhite(s, i);
    case Linked(b, j, k) =>
      AtSplit(s, i, ComplexText(b), JointText(j) + CompoundText(k));
      JointHead(j, CompoundText(k), CharAt(s, i + |ComplexText(x)|));
      ComplexReads(cx, s, i, b);
      JointReads(cx, s, i + |ComplexText(b)|, ComplexTree(cx, b), j, k);
  }

  /** A combination with this gap behind it ends at `n`: at the end, a comma or a closing parenthesis; or, with
      no gap, before anything that is not a combinator. */
  predicate Ends(s: string, n: nat, tail: Gap) {
    n < |s| ==> s[n] == ',' || s[n] == ')' || (tail == [] && SkipWhite(s, n) == n && !IsCombinator(s[n]))
  }

  lemma RestEnds(cx: Context, s: string, i: nat, tail: Gap, acc: Selector)
    requires At(s, i, GapText(tail)) && Ends(s, i + |GapText(tail)|, tail)
    ensures i <= |s| && SelectorRest(cx, s, i, acc) == Ok(acc, i + |GapText(tail)|)
  {
    hide At, GapText, Sequence, White;
    var n := i + |GapText(tail)|;
    GapSkips(s, i, tail);
    GapHead(tail, None);
    assert SkipWhite(s, n) == n by {
      if n == |s| || s[n] == ',' || s[n] == ')' { ClosedSolid(s, n); }
    }
    hide SkipWhite;
  }

  lemma ClosedSolid(s: string, n: nat)
    requires n <= |s| && (n < |s| ==> s[n] == ',' || s[n] == ')')
    ensures SkipWhite(s, n) == n
  {}

  /** A combination with the gaps around it. */
  lemma ItemReads(cx: Context, s: string, i: nat, lead: Gap, x: Complex, tail: Gap)
    requires At(s, i, GapText(lead) + (ComplexText(x) + GapText(tail)))
    requires var n := i + |GapText(lead) + (ComplexText(x) + GapText(tail))|;
      ComplexOk(x, Head(GapText(tail), CharAt(s, n))) && Ends(s, n, tail)
    ensures i <= |s| && ComplexSelector(cx, s, i) == Ok(ComplexTree(cx, x), i + |GapText(lead) + (ComplexText(x) + GapText(tail))|)
    decreases x, 1
  {
    hide At, SelectorRest, Sequence, ComplexText, ComplexTree, ComplexOk, SkipWhite, GapText, Ends, Solid;
    var l, t, z := GapText(lead), ComplexText(x), GapText(tail);
    AtSplit(s, i, l, t + z);
    AtSplit(s, i + |l|, t, z);
    ComplexReads(cx, s, i + |l|, x);
    RestEnds(cx, s, i + |l| + |t|, tail, ComplexTree(cx, x));
    GapReads(s, i, lead);
    NoWhite(s, i + |l|);
  }

  lemma GroupReads(cx: Context, s: string, i: nat, g: Choice)
    requires At(s, i, ChoiceText(g))
    requires var n := i + |ChoiceText(g)|; ChoiceOk(g, CharAt(s, n)) && Ends(s, n, g.tail)
    ensures i + |ChoiceText(g)| <= |s|
    ensures Group(cx, s, i) == GroupRest(cx, s, i + |ChoiceText(g)|, ChoiceTree(cx, g))
    decreases g, 0
  {
    hide At, ComplexSelector, ComplexText, ComplexTree, GapText, SkipWhite, ComplexOk;
    match g
    case Single(lead, x, tail) => ItemReads(cx, s, i, lead, x, tail);
    case Or(b, lead, x, tail) =>
      var m, t := i + |ChoiceText(b)|, GapText(lead) + (ComplexText(x) + GapText(tail));
      AtSplit(s, i, ChoiceText(b), "," + t);
      AtSplit(s, m, ",", t);
      AtChar(s, m, ',');
      GroupReads(cx, s, i, b);
      ItemReads(cx, s, m + 1, lead, x, tail);
  }

  /** Every written group is read as its tree, whatever its layout: before the end, a closing parenthesis, or
      anything else that a group cannot go on with. */
  lemma ChoiceReads(cx: Context, s: string, i: nat, g: Choice)
    requires At(s, i, ChoiceText(g))
    requires var n := i + |ChoiceText(g)|; ChoiceOk(g, CharAt(s, n)) && Ends(s, n, g.tail) && CharAt(s, n) != Some(',')
    ensures i + |ChoiceText(g)| <= |s|
    ensures Group(cx, s, i) == Ok(ChoiceTree(cx, g), i + |ChoiceText(g)|)
    decreases g, 1
  {
    hide At, Group, ChoiceText, ChoiceTree, ChoiceOk, Ends;
    GroupReads(cx, s, i, g);
  }

  /** The parser stops behind the first group: before a parenthesis nobody opened, whatever follows is
      ignored. */
  lemma GroupIgnoresRest(cx: Context, g: Choice, rest: string)
    requires ChoiceOk(g, Some(')'))
    ensures Group(cx, ChoiceText(g) + ")" + rest, 0) == Ok(ChoiceTree(cx, g), |ChoiceText(g)|)
  {
    hide Group, ChoiceText, ChoiceTree, ChoiceOk;
    var t := ChoiceText(g);
    var s := t + ")" + rest;
    assert s[0..|t|] == t && s[|t|] == ')';
    ChoiceReads(cx, s, 0, g);
  }

  /** Printing then parsing: all of the text is used, and the tree is the one that was printed. */
  lemma ParsePrint(cx: Context, g: Choice)
    requires ChoiceOk(g, None)
    ensures Group(cx, ChoiceText(g), 0) == Ok(ChoiceTree(cx, g), |ChoiceText(g)|)
  {
    hide Group, ChoiceText, ChoiceTree, ChoiceOk;
    var t := ChoiceText(g);
    assert t[0..|t|] == t;
    ChoiceReads(cx, t, 0, g);
  }
}
