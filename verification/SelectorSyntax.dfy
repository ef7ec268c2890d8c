/** The selector grammar as the parser reads it: what each production makes of the input from an
    offset on. */
module SelectorSyntax {
  import opened Options
  import opened Ascii
  import opened Selectors

  /** The value and the offset behind it, or a thrown error. */
  datatype Parse<+T> = Ok(value: T, next: nat) | Error

  /** The tag look-up, and what a variable holds that nothing was assigned to. */
  datatype Context = Context(tagEnum: string -> int, unset: int)

  // ---------------------------------------------------------------------------------------
  // Characters

  predicate Newline(c: char) { c == '\r' || c == '\n' || c == '\U{000C}' }

  predicate White(c: char) { c == ' ' || c == '\t' || Newline(c) }

  predicate HexDigit(c: char) { '0' <= c <= '9' || 'a' <= c <= 'f' || 'A' <= c <= 'F' }

  predicate NameStart(c: char) { 'a' <= c <= 'z' || 'A' <= c <= 'Z' || c == '_' || c as int > 127 }

  predicate NameChar(c: char) { NameStart(c) || c == '-' || '0' <= c <= '9' }

  function HexValue(c: char): (d: nat)
    requires HexDigit(c)
    ensures d < 16
  {
    if c <= '9' then c as int - '0' as int
    else if 'a' <= c then c as int - 'a' as int + 10
    else c as int - 'A' as int + 10
  }

  // ---------------------------------------------------------------------------------------
  // Lexical productions

  /** The offset of the next comment end, or the end of the input. */
  function FindCommentEnd(s: string, i: nat): (e: nat)
    ensures i <= e || e == |s|
    ensures e != |s| ==> e + 2 <= |s| && s[e] == '*' && s[e + 1] == '/'
    decreases |s| - i
  {
    if i + 2 > |s| then |s|
    else if s[i] == '*' && s[i + 1] == '/' then i
    else FindCommentEnd(s, i + 1)
  }

  /** White space and closed comments. */
  function SkipWhite(s: string, i: nat): (j: nat)
    requires i <= |s|
    ensures i <= j <= |s|
    decreases |s| - i
  {
    if i == |s| then i
    else if White(s[i]) then SkipWhite(s, i + 1)
    else if s[i] == '/' && i + 1 < |s| && s[i + 1] == '*' then
      var e := FindCommentEnd(s, i + 2);
      if e != |s| then SkipWhite(s, e + 2) else i
    else i
  }

  /** The end of a run of at most `limit` hexadecimal digits. */
  function HexEnd(s: string, i: nat, limit: nat): (j: nat)
    requires i <= |s|
    ensures i <= j <= |s| && j <= i + limit
    ensures forall k :: i <= k < j ==> HexDigit(s[k])
    decreases limit
  {
    if limit > 0 && i < |s| && HexDigit(s[i]) then HexEnd(s, i + 1, limit - 1) else i
  }

  /** One byte for every two digits; a digit left over must be zero. */
  function HexBytes(d: string): (r: Option<string>)
    requires forall k :: 0 <= k < |d| ==> HexDigit(d[k])
  {
    if d == "" then Some("")
    else if |d| == 1 then if d == "0" then Some("") else None
    else
      var rest := HexBytes(d[2..]);
      if rest.None? then None
      else Some([(16 * HexValue(d[0]) + HexValue(d[1])) as char] + rest.value)
  }

  /** The one white space that may follow a hexadecimal escape. */
  function SkipOne(s: string, i: nat): (j: nat)
    requires i <= |s|
    ensures i <= j <= |s|
  {
    if i == |s| then i
    else if s[i] == '\r' then if i + 1 < |s| && s[i + 1] == '\n' then i + 2 else i + 1
    else if White(s[i]) then i + 1
    else i
  }

  function Escape(s: string, i: nat): (r: Parse<string>)
    ensures r.Ok? ==> i + 2 <= r.next <= |s| && |r.value| > 0
  {
    if |s| < i + 2 || s[i] != '\\' then Error
    else if Newline(s[i + 1]) then Error
    else if !HexDigit(s[i + 1]) then Ok([s[i + 1]], i + 2)
    else
      var e := HexEnd(s, i + 1, 5);
      var bytes := HexBytes(s[i + 1..e]);
      if bytes.None? || bytes.value == "" then Error else Ok(bytes.value, SkipOne(s, e))
  }

  /** What is left of a name; it may be nothing. */
  function NameRest(s: string, i: nat): (r: Parse<string>)
    requires i <= |s|
    ensures r.Ok? ==> i <= r.next <= |s| && (r.value != "" ==> i < r.next)
    decreases |s| - i
  {
    if i < |s| && NameChar(s[i]) then Prepend([s[i]], NameRest(s, i + 1))
    else if i < |s| && s[i] == '\\' then
      var e := Escape(s, i);
      if e.Error? then Error else Prepend(e.value, NameRest(s, e.next))
    else Ok("", i)
  }

  function Prepend(t: string, r: Parse<string>): Parse<string> {
    if r.Error? then r else r.(value := t + r.value)
  }

  function Name(s: string, i: nat): (r: Parse<string>)
    requires i <= |s|
    ensures r.Ok? ==> i < r.next <= |s| && r.value != ""
  {
    var r := NameRest(s, i);
    if r.Error? || r.value == "" then Error else r
  }

  function Identifier(s: string, i: nat): (r: Parse<string>)
    requires i <= |s|
    ensures r.Ok? ==> i < r.next <= |s| && r.value != ""
  {
    var dash := i < |s| && s[i] == '-';
    var j := if dash then i + 1 else i;
    if |s| <= j then Error
    else if !NameStart(s[j]) && s[j] != '\\' then Error
    else Prepend(if dash then "-" else "", Name(s, j))
  }

  /** The rest of a string, up to and with the closing quote. */
  function StringRest(s: string, i: nat, quote: char): (r: Parse<string>)
    requires i <= |s|
    ensures r.Ok? ==> i < r.next <= |s|
    decreases |s| - i
  {
    if i == |s| then Error
    else if s[i] == '\\' then
      if i + 2 < |s| && s[i + 1] == '\r' && s[i + 2] == '\n' then StringRest(s, i + 3, quote)
      else if i + 1 < |s| && Newline(s[i + 1]) then StringRest(s, i + 2, quote)
      else
        var e := Escape(s, i);
        if e.Error? then Error else Prepend(e.value, StringRest(s, e.next, quote))
    else if s[i] == quote then Ok("", i + 1)
    else if Newline(s[i]) then Error
    else Prepend([s[i]], StringRest(s, i + 1, quote))
  }

  function QuotedString(s: string, i: nat): (r: Parse<string>)
    ensures r.Ok? ==> i < r.next <= |s|
  {
    if |s| < i + 2 then Error else StringRest(s, i + 1, s[i])
  }

  /** A quoted string or an identifier. */
  function Value(s: string, i: nat): (r: Parse<string>)
    requires i < |s|
    ensures r.Ok? ==> i < r.next <= |s|
  {
    if s[i] == '\'' || s[i] == '"' then QuotedString(s, i) else Identifier(s, i)
  }

  // ---------------------------------------------------------------------------------------
  // Simple selectors

  function IdSelector(s: string, i: nat): (r: Parse<Selector>)
    requires i <= |s|
    ensures r.Ok? ==> i < r.next <= |s|
  {
    if i == |s| || s[i] != '#' then Error
    else
      var n := Name(s, i + 1);
      if n.Error? then Error else Ok(Leaf(Attr(Equals, "id", n.value)), n.next)
  }

  function ClassSelector(s: string, i: nat): (r: Parse<Selector>)
    requires i <= |s|
    ensures r.Ok? ==> i < r.next <= |s|
  {
    if i == |s| || s[i] != '.' then Error
    else
      var n := Identifier(s, i + 1);
      if n.Error? then Error else Ok(Leaf(Attr(Includes, "class", n.value)), n.next)
  }

  function TypeSelector(cx: Context, s: string, i: nat): (r: Parse<Selector>)
    requires i <= |s|
    ensures r.Ok? ==> i < r.next <= |s|
  {
    var n := Identifier(s, i);
    if n.Error? then Error else Ok(Leaf(Tag(cx.tagEnum(n.value))), n.next)
  }

  /** The operator whose first character is `c`, when an equals sign follows. */
  function OpOf(c: char): Option<AttrOp> {
    match c
    case '~' => Some(Includes)
    case '|' => Some(DashMatch)
    case '^' => Some(Prefix)
    case '$' => Some(Suffix)
    case '*' => Some(SubString)
    case _ => None
  }

  /** The operator of an attribute test; `next` is behind it. */
  function Operator(s: string, i: nat): (r: Parse<Option<AttrOp>>)
    ensures r.Ok? ==> i < r.next <= |s|
  {
    if i + 2 > |s| then Error
    else if s[i] == '=' then Ok(Some(Equals), i + 1)
    else if s[i + 1] != '=' then Error
    else Ok(OpOf(s[i]), i + 2)
  }

  function AttributeSelector(s: string, i: nat): (r: Parse<Selector>)
    requires i <= |s|
    ensures r.Ok? ==> i < r.next <= |s|
  {
    if i == |s| || s[i] != '[' then Error
    else
      var key := Identifier(s, SkipWhite(s, i + 1));
      if key.Error? then Error
      else
        var j := SkipWhite(s, key.next);
        if j == |s| then Error
        else if s[j] == ']' then Ok(Leaf(Attr(Exists, key.value, "")), j + 1)
        else
          var op := Operator(s, j);
          if op.Error? then Error else AttributeValue(s, key.value, op.value, SkipWhite(s, op.next))
  }

  function AttributeValue(s: string, key: string, op: Option<AttrOp>, i: nat): (r: Parse<Selector>)
    requires i <= |s|
    ensures r.Ok? ==> i < r.next <= |s|
  {
    if i == |s| then Error
    else
      var v := Value(s, i);
      if v.Error? then Error
      else
        var j := SkipWhite(s, v.next);
        if j == |s| || s[j] != ']' || op.None? then Error
        else Ok(Leaf(Attr(op.value, key, v.value)), j + 1)
  }

  // ---------------------------------------------------------------------------------------
  // Arguments of the form an+b

  predicate Digit(c: char) { '0' <= c <= '9' }

  predicate LetterN(c: char) { c == 'n' || c == 'N' }

  /** The end of a run of decimal digits. */
  function DigitEnd(s: string, i: nat): (j: nat)
    requires i <= |s|
    ensures i <= j <= |s|
    ensures forall k :: i <= k < j ==> Digit(s[k])
    decreases |s| - i
  {
    if i < |s| && Digit(s[i]) then DigitEnd(s, i + 1) else i
  }

  function Decimal(d: string): nat
    requires forall k :: 0 <= k < |d| ==> Digit(d[k])
  {
    if d == "" then 0
    else
      var c := d[|d| - 1];
      assert Digit(c);
      10 * Decimal(d[..|d| - 1]) + (c as int - '0' as int)
  }

  function Integer(s: string, i: nat): (r: Parse<nat>)
    requires i <= |s|
    ensures r.Ok? ==> i < r.next <= |s|
  {
    var e := DigitEnd(s, i);
    if e == i then Error else Ok(Decimal(s[i..e]), e)
  }

  /** The pair of step and offset. A letter n at the very start is left unread, with the step unset. */
  function NthExpression(cx: Context, s: string, i: nat): (r: Parse<(int, int)>)
    requires 0 < i <= |s|
    ensures r.Ok? ==> i <= r.next <= |s|
  {
    if i == |s| then Error
    else if s[i] == '-' then NthStep(s, i + 1, -1)
    else if s[i] == '+' then NthStep(s, i + 1, 1)
    else if Digit(s[i]) then NthStep(s, i, 1)
    else if LetterN(s[i]) then NthOffset(s, i, cx.unset)
    else if s[i] == 'o' || s[i] == 'O' || s[i] == 'e' || s[i] == 'E' then NthWord(s, i)
    else Error
  }

  function NthWord(s: string, i: nat): (r: Parse<(int, int)>)
    requires i <= |s|
    ensures r.Ok? ==> i <= r.next <= |s|
  {
    var n := Name(s, i);
    if n.Error? then Error
    else if Lower(n.value) == "odd" then Ok((2, 1), n.next)
    else if Lower(n.value) == "even" then Ok((2, 0), n.next)
    else Error
  }

  /** Behind the sign; a number with no letter n is the offset. */
  function NthStep(s: string, i: nat, sign: int): (r: Parse<(int, int)>)
    requires i <= |s|
    ensures r.Ok? ==> i <= r.next <= |s|
  {
    if i == |s| then Error
    else if Digit(s[i]) then
      var a := Integer(s, i);
      if a.Error? || a.next == |s| then Error
      else if LetterN(s[a.next]) then NthOffset(s, a.next + 1, sign * a.value)
      else Ok((0, sign * a.value), a.next)
    else if LetterN(s[i]) then NthOffset(s, i + 1, sign)
    else Error
  }

  /** Behind the letter n. At a minus sign the code steps back instead of over it. */
  function NthOffset(s: string, i: nat, a: int): (r: Parse<(int, int)>)
    requires 0 < i <= |s|
    ensures r.Ok? ==> i <= r.next <= |s|
  {
    var j := SkipWhite(s, i);
    if j == |s| then Error
    else if s[j] == '+' then
      var b := Integer(s, SkipWhite(s, j + 1));
      if b.Error? then Error else Ok((a, b.value), b.next)
    else if s[j] == '-' then
      var b: Parse<int> := Integer(s, SkipWhite(s, j - 1));
      if b.Error? then Error else Ok((a, -b.value), b.next)
    else Ok((a, 0), j)
  }

  // ---------------------------------------------------------------------------------------
  // Pseudo-classes

  datatype Pseudo =
    | Function(op: UnaryOp)
    | TextTest(textOp: TextOp)
    | Nth(last: bool, ofType: bool)
    | Fixed(simple: Simple)
    | Unsupported

  /** What a lower-case pseudo-class name stands for. */
  function PseudoOf(name: string): Pseudo {
    if name == "not" then Function(Not)
    else if name == "has" then Function(HasDescendant)
    else if name == "haschild" then Function(HasChild)
    else if name == "contains" then TextTest(Contains)
    else if name == "containsown" then TextTest(OwnContains)
    else if name == "nth-child" then Nth(false, false)
    else if name == "nth-last-child" then Nth(true, false)
    else if name == "nth-of-type" then Nth(false, true)
    else if name == "nth-last-of-type" then Nth(true, true)
    else if name == "first-child" then Fixed(NthChild(0, 1, false, false))
    else if name == "last-child" then Fixed(NthChild(0, 1, true, false))
    else if name == "first-of-type" then Fixed(NthChild(0, 1, false, true))
    else if name == "last-of-type" then Fixed(NthChild(0, 1, true, true))
    else if name == "only-child" then Fixed(OnlyChild(false))
    else if name == "only-of-type" then Fixed(OnlyChild(true))
    else if name == "empty" then Fixed(Empty)
    else Unsupported
  }

  /** `consumeParenthesis`: the offset behind `(` and white space. */
  function Opening(s: string, i: nat): (r: Option<nat>)
    requires i <= |s|
    ensures r.Some? ==> i < r.value <= |s|
  {
    if i < |s| && s[i] == '(' then Some(SkipWhite(s, i + 1)) else None
  }

  /** `consumeClosingParenthesis`. */
  function Closing(s: string, i: nat): (r: Option<nat>)
    requires i <= |s|
    ensures r.Some? ==> i < r.value <= |s|
  {
    var j := SkipWhite(s, i);
    if j < |s| && s[j] == ')' then Some(j + 1) else None
  }

  function TextArgument(s: string, i: nat, op: TextOp): (r: Parse<Selector>)
    requires i <= |s|
    ensures r.Ok? ==> i < r.next <= |s|
  {
    var o := Opening(s, i);
    if o.None? || o.value == |s| then Error
    else
      var v := Value(s, o.value);
      if v.Error? then Error
      else
        var c := Closing(s, SkipWhite(s, v.next));
        if c.None? then Error else Ok(Leaf(Text(op, Lower(v.value))), c.value)
  }

  function NthArgument(cx: Context, s: string, i: nat, last: bool, ofType: bool): (r: Parse<Selector>)
    requires i <= |s|
    ensures r.Ok? ==> i < r.next <= |s|
  {
    var o := Opening(s, i);
    if o.None? then Error
    else
      var n := NthExpression(cx, s, o.value);
      if n.Error? then Error
      else
        var c := Closing(s, n.next);
        if c.None? then Error else Ok(Leaf(NthChild(n.value.0, n.value.1, last, ofType)), c.value)
  }

  function PseudoSelector(cx: Context, s: string, i: nat): (r: Parse<Selector>)
    requires i <= |s|
    ensures r.Ok? ==> i < r.next <= |s|
    decreases |s| - i, 0
  {
    if i == |s| || s[i] != ':' then Error
    else
      var n := Identifier(s, i + 1);
      if n.Error? then Error
      else
        match PseudoOf(Lower(n.value))
        case Function(op) => FunctionArgument(cx, s, n.next, op)
        case TextTest(op) => TextArgument(s, n.next, op)
        case Nth(last, ofType) => NthArgument(cx, s, n.next, last, ofType)
        case Fixed(simple) => Ok(Leaf(simple), n.next)
        case Unsupported => Error
  }

  function FunctionArgument(cx: Context, s: string, i: nat, op: UnaryOp): (r: Parse<Selector>)
    requires i <= |s|
    ensures r.Ok? ==> i < r.next <= |s|
    decreases |s| - i, 0
  {
    var o := Opening(s, i);
    if o.None? then Error
    else
      var g := Group(cx, s, o.value);
      if g.Error? then Error
      else
        var c := Closing(s, g.next);
        if c.None? then Error else Ok(Unary(op, g.value), c.value)
  }

  // ---------------------------------------------------------------------------------------
  // Sequences, combinators and groups

  predicate StartsSimple(c: char) { c == '#' || c == '.' || c == '[' || c == ':' }

  function SimpleSelector(cx: Context, s: string, i: nat): (r: Parse<Selector>)
    requires i < |s| && StartsSimple(s[i])
    ensures r.Ok? ==> i < r.next <= |s|
    decreases |s| - i, 1
  {
    match s[i]
    case '#' => IdSelector(s, i)
    case '.' => ClassSelector(s, i)
    case '[' => AttributeSelector(s, i)
    case _ => PseudoSelector(cx, s, i)
  }

  /** Both, when there is something already. */
  function Meet(acc: Option<Selector>, sel: Selector): Selector {
    if acc.None? then sel else Intersection(acc.value, sel)
  }

  function SequenceRest(cx: Context, s: string, i: nat, acc: Option<Selector>): (r: Parse<Option<Selector>>)
    requires i <= |s|
    ensures r.Ok? ==> i <= r.next <= |s|
    decreases |s| - i, 2
  {
    if i < |s| && StartsSimple(s[i]) then
      var sel := SimpleSelector(cx, s, i);
      if sel.Error? then Error else SequenceRest(cx, s, sel.next, Some(Meet(acc, sel.value)))
    else Ok(acc, i)
  }

  function Sequence(cx: Context, s: string, i: nat): (r: Parse<Selector>)
    requires i <= |s|
    ensures r.Ok? ==> i <= r.next <= |s|
    decreases |s| - i, 3
  {
    if i == |s| then Error
    else if s[i] == '*' then OrDummy(SequenceRest(cx, s, i + 1, None))
    else if StartsSimple(s[i]) then OrDummy(SequenceRest(cx, s, i, None))
    else
      var t := TypeSelector(cx, s, i);
      if t.Error? then Error else OrDummy(SequenceRest(cx, s, t.next, Some(t.value)))
  }

  function OrDummy(r: Parse<Option<Selector>>): Parse<Selector> {
    if r.Error? then Error
    else Ok(if r.value.None? then Leaf(Dummy) else r.value.value, r.next)
  }

  predicate IsCombinator(c: char) { c == '+' || c == '>' || c == '~' }

  function Combine(c: char, l: Selector, r: Selector): Selector {
    match c
    case '>' => Child(l, r)
    case '+' => Adjacent(l, r, true)
    case '~' => Adjacent(l, r, false)
    case _ => Descendant(l, r)
  }

  function SelectorRest(cx: Context, s: string, i: nat, acc: Selector): (r: Parse<Selector>)
    requires i <= |s|
    ensures r.Ok? ==> i <= r.next <= |s|
    decreases |s| - i, 4
  {
    var j := SkipWhite(s, i);
    if j == |s| then Ok(acc, j)
    else if IsCombinator(s[j]) then
      var sel := Sequence(cx, s, SkipWhite(s, j + 1));
      if sel.Error? then Error else SelectorRest(cx, s, sel.next, Combine(s[j], acc, sel.value))
    else if s[j] == ',' || s[j] == ')' || j == i then Ok(acc, j)
    else
      var sel := Sequence(cx, s, j);
      if sel.Error? then Error else SelectorRest(cx, s, sel.next, Combine(' ', acc, sel.value))
  }

  function ComplexSelector(cx: Context, s: string, i: nat): (r: Parse<Selector>)
    requires i <= |s|
    ensures r.Ok? ==> i <= r.next <= |s|
    decreases |s| - i, 5
  {
    var sel := Sequence(cx, s, SkipWhite(s, i));
    if sel.Error? then Error else SelectorRest(cx, s, sel.next, sel.value)
  }

  function GroupRest(cx: Context, s: string, i: nat, acc: Selector): (r: Parse<Selector>)
    requires i <= |s|
    ensures r.Ok? ==> i <= r.next <= |s|
    decreases |s| - i, 6
  {
    if i == |s| || s[i] != ',' then Ok(acc, i)
    else
      var sel := ComplexSelector(cx, s, i + 1);
      if sel.Error? then Error else GroupRest(cx, s, sel.next, Union(acc, sel.value))
  }

  function Group(cx: Context, s: string, i: nat): (r: Parse<Selector>)
    requires i <= |s|
    ensures r.Ok? ==> i <= r.next <= |s|
    decreases |s| - i, 7
  {
    var sel := ComplexSelector(cx, s, i);
    if sel.Error? then Error else GroupRest(cx, s, sel.next, sel.value)
  }
}
