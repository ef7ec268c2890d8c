/** The selector parser: an input, an offset that its methods advance, and the trees they build. A
    thrown error is a missing result. */
module SelectorParser {
  import opened Options
  import opened Selectors
  import opened Ascii
  import opened SelectorSyntax
  import opened SelectorNames
  import opened SelectorPrinter
  import opened SelectorExact

  /** What a method returns, and where it leaves the offset, is what the production says. */
  ghost predicate Gives<T>(r: Option<T>, next: nat, p: Parse<T>) {
    if p.Error? then r == None else r == Some(p.value) && next == p.next
  }

  // ---------------------------------------------------------------------------------------
  // Runs of characters

  lemma Prepended(a: string, b: string, r: Parse<string>)
    ensures Prepend(a, Prepend(b, r)) == Prepend(a + b, r)
  {
    assert r.Ok? ==> a + (b + r.value) == a + b + r.value;
  }

  /** A name read up to `i` goes on with the character at `i`. */
  lemma NameStep(s: string, i: nat, text: string, r: Parse<string>)
    requires i < |s| && NameChar(s[i]) && r == Prepend(text, NameRest(s, i))
    ensures r == Prepend(text + [s[i]], NameRest(s, i + 1))
  {
    Prepended(text, [s[i]], NameRest(s, i + 1));
  }

  lemma StringStep(s: string, i: nat, quote: char, text: string, r: Parse<string>)
    requires i < |s| && s[i] != quote && s[i] != '\\' && !Newline(s[i])
    requires r == Prepend(text, StringRest(s, i, quote))
    ensures r == Prepend(text + [s[i]], StringRest(s, i + 1, quote))
  {
    Prepended(text, [s[i]], StringRest(s, i + 1, quote));
  }

  lemma PairsStep(d: string, c: char)
    requires AllHex(d) && HexDigit(c)
    ensures AllHex(d + [c])
    ensures HexText(d + [c])
      == HexText(d) + if |d| % 2 == 1 then [(16 * HexValue(d[|d| - 1]) + HexValue(c)) as char] else ""
  {
    hide HexDigit, HexValue;
    var e := d + [c];
    assert |e| / 2 == |d| / 2 + |d| % 2;
    forall k | 0 <= k < |d| / 2 ensures HexText(e)[k] == HexText(d)[k] {
      assert e[2 * k] == d[2 * k] && e[2 * k + 1] == d[2 * k + 1];
    }
  }

  /** What an odd last digit amounts to. */
  function HalfByte(d: string): (h: nat)
    requires AllHex(d)
    ensures h <= 240
  {
    if |d| % 2 == 1 then 16 * HexValue(d[|d| - 1]) else 0
  }

  lemma NoPairs(d: string)
    requires d == ""
    ensures AllHex(d) && HexText(d) == "" && HalfByte(d) == 0
  {}

  lemma HalfStep(d: string, c: char)
    requires AllHex(d) && HexDigit(c)
    ensures AllHex(d + [c])
    ensures |d| % 2 == 0 ==> HexText(d + [c]) == HexText(d) && HalfByte(d) == 0 && HalfByte(d + [c]) == 16 * HexValue(c)
    ensures |d| % 2 == 1 ==>
      HexText(d + [c]) == HexText(d) + [(HalfByte(d) + HexValue(c)) as char] && HalfByte(d + [c]) == 0
  {
    hide HexText, HexDigit, HexValue;
    PairsStep(d, c);
    var e := d + [c];
    assert |e| == |d| + 1 && e[|e| - 1] == c;
    if |d| % 2 == 0 {
      assert |e| % 2 == 1;
      assert HexText(d) + "" == HexText(d);
    } else {
      assert |e| % 2 == 0;
    }
  }

  /** One more digit, from `start` up to `i`. */
  lemma DigitStep(s: string, start: nat, i: nat)
    requires start <= i < |s| && i < start + 5 && AllHex(s[start..i]) && HexDigit(s[i])
    ensures var d, e, v := s[start..i], s[start..i + 1], HexValue(s[i]);
      && AllHex(e)
      && ((i - start) % 2 == 0 ==> HexText(e) == HexText(d) && HalfByte(d) == 0 && HalfByte(e) == 16 * v)
      && ((i - start) % 2 == 1 ==> HexText(e) == HexText(d) + [(HalfByte(d) + v) as char] && HalfByte(e) == 0)
    ensures HexEnd(s, i, 5 - (i - start)) == HexEnd(s, i + 1, 5 - (i + 1 - start))
  {
    hide HexText, HexValue, HexDigit, HalfByte, AllHex;
    HalfStep(s[start..i], s[i]);
    assert s[start..i + 1] == s[start..i] + [s[i]];
  }

  lemma HexDone(s: string, i: nat, n: nat)
    requires i <= |s| && (n == 0 || i == |s| || !HexDigit(s[i]))
    ensures HexEnd(s, i, n) == i
  {}

  lemma NoHalf(d: string)
    requires AllHex(d)
    ensures HalfByte(d) == 0 <==> !(|d| % 2 == 1 && d[|d| - 1] != '0')
  {}

  lemma DecimalStep(d: string, c: char)
    requires Digit(c) && forall k :: 0 <= k < |d| ==> Digit(d[k])
    ensures Decimal(d + [c]) == 10 * Decimal(d) + (c as int - '0' as int)
  {
    assert (d + [c])[..|d|] == d;
  }

  lemma NoDecimal(d: string)
    requires d == ""
    ensures Decimal(d) == 0
  {}

  class Parser {
    const cx: Context
    const input: string
    var offset: nat

    ghost predicate Valid()
      reads this
    {
      offset <= |input|
    }

    constructor (cx: Context, input: string)
      ensures this.cx == cx && this.input == input && offset == 0 && Valid()
    {
      this.cx := cx;
      this.input := input;
      offset := 0;
    }

    method SkipWhitespace() returns (skipped: bool)
      requires Valid()
      modifies this
      ensures Valid() && offset == SkipWhite(input, old(offset)) && (skipped <==> offset > old(offset))
    {
      var o := offset;
      while o < |input|
        invariant offset <= o <= |input| && offset == old(offset)
        invariant SkipWhite(input, o) == SkipWhite(input, offset)
      {
        var c := input[o];
        if White(c) { o := o + 1; continue; }
        else if c == '/' {
          if |input| > o + 1 && input[o + 1] == '*' {
            var pos := FindCommentEnd(input, o + 2);
            if pos != |input| { o := pos + 2; continue; }
          }
        }
        break;
      }
      skipped := o > offset;
      if skipped { offset := o; }
    }

    method ConsumeParenthesis() returns (done: bool)
      requires Valid()
      modifies this
      ensures Valid() && done == Opening(input, old(offset)).Some?
      ensures done ==> offset == Opening(input, old(offset)).value
    {
      if offset < |input| && input[offset] == '(' {
        offset := offset + 1;
        var _ := SkipWhitespace();
        return true;
      }
      return false;
    }

    method ConsumeClosingParenthesis() returns (done: bool)
      requires Valid()
      modifies this
      ensures Valid() && done == Closing(input, old(offset)).Some?
      ensures offset == if done then Closing(input, old(offset)).value else old(offset)
    {
      var o := offset;
      var _ := SkipWhitespace();
      if offset < |input| && input[offset] == ')' {
        offset := offset + 1;
        return true;
      }
      offset := o;
      return false;
    }

    method ParseEscape() returns (r: Option<string>)
      requires Valid()
      modifies this
      ensures Valid() && Gives(r, offset, Escape(input, old(offset)))
    {
      if |input| < offset + 2 || input[offset] != '\\' { return None; }
      var start := offset + 1;
      if Newline(input[start]) { return None; }
      if !HexDigit(input[start]) {
        r := Some([input[start]]);
        offset := offset + 2;
        return;
      }
      var bytes, half, i := ReadHex(start);
      HexBytesAre(input[start..i]);
      NoHalf(input[start..i]);
      if bytes == "" || half != 0 { return None; }
      offset := SkipOne(input, i);
      return Some(bytes);
    }

    /** The digit loop of an escape: at most five digits, one byte per pair. */
    method ReadHex(start: nat) returns (bytes: string, half: nat, i: nat)
      requires start <= |input|
      ensures i == HexEnd(input, start, 5) && AllHex(input[start..i]) && bytes == HexText(input[start..i])
      ensures half == HalfByte(input[start..i])
    {
      hide HexText, HexValue, HexDigit, HalfByte, AllHex, HexEnd;
      i, half, bytes := start, 0, "";
      NoPairs(input[start..i]);
      while i < start + 5 && i < |input| && HexDigit(input[i])
        invariant start <= i <= |input| && i <= start + 5
        invariant AllHex(input[start..i]) && bytes == HexText(input[start..i]) && half == HalfByte(input[start..i])
        invariant HexEnd(input, start, 5) == HexEnd(input, i, 5 - (i - start))
      {
        DigitStep(input, start, i);
        var d := HexValue(input[i]);
        if (i - start) % 2 == 1 {
          bytes := bytes + [(half + d) as char];
          half := 0;
        } else {
          half := half + 16 * d;
        }
        i := i + 1;
      }
      HexDone(input, i, 5 - (i - start));
    }

    method ParseName() returns (r: Option<string>)
      requires Valid()
      modifies this
      ensures Valid() && Gives(r, offset, Name(input, old(offset)))
    {
      hide Escape, NameChar;
      var o, ret := offset, "";
      ghost var whole := NameRest(input, offset);
      PrependNone(whole);
      while o < |input|
        invariant offset <= o <= |input|
        invariant whole == Prepend(ret, NameRest(input, o))
        decreases |input| - o
      {
        if NameChar(input[o]) {
          while o < |input| && NameChar(input[o])
            invariant offset <= o <= |input|
            invariant whole == Prepend(ret, NameRest(input, o))
            decreases |input| - o
          {
            NameStep(input, o, ret, whole);
            ret := ret + [input[o]];
            o := o + 1;
          }
        } else if input[o] == '\\' {
          offset := o;
          var e := ParseEscape();
          if e.None? { return None; }
          Prepended(ret, e.value, NameRest(input, offset));
          ret := ret + e.value;
          o := offset;
        } else {
          break;
        }
      }
      assert ret + "" == ret;
      if ret == "" { return None; }
      offset := o;
      return Some(ret);
    }

    method ParseIdentifier() returns (r: Option<string>)
      requires Valid()
      modifies this
      ensures Valid() && Gives(r, offset, Identifier(input, old(offset)))
    {
      hide Name;
      var dash := |input| > offset && input[offset] == '-';
      if dash { offset := offset + 1; }
      if |input| <= offset { return None; }
      var c := input[offset];
      if !NameStart(c) && c != '\\' { return None; }
      PrependNone(Name(input, offset));
      r := ParseName();
      if r.Some? && dash { r := Some("-" + r.value); }
    }

    method ParseString() returns (r: Option<string>)
      requires Valid()
      modifies this
      ensures Valid() && Gives(r, offset, QuotedString(input, old(offset)))
    {
      hide Escape;
      if |input| < offset + 2 { return None; }
      var quote := input[offset];
      var o, ret := offset + 1, "";
      ghost var whole := StringRest(input, o, quote);
      PrependNone(whole);
      while o < |input|
        invariant offset <= o <= |input|
        invariant whole == Prepend(ret, StringRest(input, o, quote))
        decreases |input| - o
      {
        var c := input[o];
        if c == '\\' {
          if |input| > o + 1 {
            if input[o + 1] == '\r' && |input| > o + 2 && input[o + 2] == '\n' { o := o + 3; continue; }
            if Newline(input[o + 1]) { o := o + 2; continue; }
          }
          offset := o;
          var e := ParseEscape();
          if e.None? { return None; }
          Prepended(ret, e.value, StringRest(input, offset, quote));
          ret := ret + e.value;
          o := offset;
        } else if c == quote {
          break;
        } else if Newline(c) {
          return None;
        } else {
          while o < |input| && !(input[o] == quote || input[o] == '\\' || Newline(input[o]))
            invariant offset <= o <= |input|
            invariant whole == Prepend(ret, StringRest(input, o, quote))
            decreases |input| - o
          {
            StringStep(input, o, quote, ret, whole);
            ret := ret + [input[o]];
            o := o + 1;
          }
        }
      }
      if o >= |input| { return None; }
      assert ret + "" == ret;
      offset := o + 1;
      return Some(ret);
    }

    method ParseValue() returns (r: Option<string>)
      requires Valid() && offset < |input|
      modifies this
      ensures Valid() && Gives(r, offset, Value(input, old(offset)))
    {
      hide QuotedString, Identifier;
      if input[offset] == '\'' || input[offset] == '"' { r := ParseString(); } else { r := ParseIdentifier(); }
    }

    method ParseTypeSelector() returns (r: Option<Selector>)
      requires Valid()
      modifies this
      ensures Valid() && Gives(r, offset, TypeSelector(cx, input, old(offset)))
    {
      hide Identifier;
      var n := ParseIdentifier();
      return if n.None? then None else Some(Leaf(Tag(cx.tagEnum(n.value))));
    }

    method ParseIdSelector() returns (r: Option<Selector>)
      requires Valid()
      modifies this
      ensures Valid() && Gives(r, offset, IdSelector(input, old(offset)))
    {
      hide Name;
      if offset >= |input| || input[offset] != '#' { return None; }
      offset := offset + 1;
      var n := ParseName();
      return if n.None? then None else Some(Leaf(Attr(Equals, "id", n.value)));
    }

    method ParseClassSelector() returns (r: Option<Selector>)
      requires Valid()
      modifies this
      ensures Valid() && Gives(r, offset, ClassSelector(input, old(offset)))
    {
      hide Identifier;
      if offset >= |input| || input[offset] != '.' { return None; }
      offset := offset + 1;
      var n := ParseIdentifier();
      return if n.None? then None else Some(Leaf(Attr(Includes, "class", n.value)));
    }

    method ParseAttributeSelector() returns (r: Option<Selector>)
      requires Valid()
      modifies this
      ensures Valid() && Gives(r, offset, AttributeSelector(input, old(offset)))
    {
      hide Identifier, SkipWhite, Value;
      if offset >= |input| || input[offset] != '[' { return None; }
      offset := offset + 1;
      var _ := SkipWhitespace();
      var key := ParseIdentifier();
      if key.None? { return None; }
      var _ := SkipWhitespace();
      if offset >= |input| { return None; }
      if input[offset] == ']' {
        offset := offset + 1;
        return Some(Leaf(Attr(Exists, key.value, "")));
      }
      var op := Operator(input, offset);
      if op.Error? { return None; }
      offset := op.next;
      var _ := SkipWhitespace();
      if offset >= |input| { return None; }
      var value := ParseValue();
      if value.None? { return None; }
      var _ := SkipWhitespace();
      if offset >= |input| || input[offset] != ']' { return None; }
      if op.value.None? { return None; }
      offset := offset + 1;
      return Some(Leaf(Attr(op.value.value, key.value, value.value)));
    }

    method ParseTextArgument(op: TextOp) returns (r: Option<Selector>)
      requires Valid()
      modifies this
      ensures Valid() && Gives(r, offset, TextArgument(input, old(offset), op))
    {
      hide Opening, Closing, SkipWhite, Value, Lower;
      var open := ConsumeParenthesis();
      if !open || offset >= |input| { return None; }
      var value := ParseValue();
      if value.None? { return None; }
      var text := Lower(value.value);
      var _ := SkipWhitespace();
      var close := ConsumeClosingParenthesis();
      return if close then Some(Leaf(Text(op, text))) else None;
    }

    method ParseInteger() returns (r: Option<nat>)
      requires Valid()
      modifies this
      ensures Valid() && Gives(r, offset, Integer(input, old(offset)))
    {
      hide Decimal;
      var o, n := offset, 0;
      NoDecimal(input[offset..o]);
      while o < |input|
        invariant offset <= o <= |input| && offset == old(offset)
        invariant forall k :: offset <= k < o ==> Digit(input[k])
        invariant DigitEnd(input, o) == DigitEnd(input, offset)
        invariant n == Decimal(input[offset..o])
      {
        var c := input[o];
        if c < '0' || c > '9' { break; }
        DecimalStep(input[offset..o], c);
        assert input[offset..o + 1] == input[offset..o] + [c];
        n := n * 10 + (c as int - '0' as int);
        o := o + 1;
      }
      if o == offset { return None; }
      offset := o;
      return Some(n);
    }

    /** `parseNth`, from the letter n on. */
    method ParseOffset(a: int) returns (r: Option<(int, int)>)
      requires Valid() && 0 < offset
      modifies this
      ensures Valid() && Gives(r, offset, NthOffset(input, old(offset), a))
    {
      hide SkipWhite, Integer;
      var _ := SkipWhitespace();
      if offset >= |input| { return None; }
      var c := input[offset];
      if c == '+' {
        offset := offset + 1;
        var _ := SkipWhitespace();
        var b := ParseInteger();
        return if b.None? then None else Some((a, b.value));
      } else if c == '-' {
        offset := offset - 1;
        var _ := SkipWhitespace();
        var b: Option<int> := ParseInteger();
        return if b.None? then None else Some((a, -b.value));
      }
      return Some((a, 0));
    }

    /** `parseNth`, behind the sign. */
    method ParseStep(sign: int) returns (r: Option<(int, int)>)
      requires Valid()
      modifies this
      ensures Valid() && Gives(r, offset, NthStep(input, old(offset), sign))
    {
      hide Integer, NthOffset;
      if offset >= |input| { return None; }
      var c := input[offset];
      if Digit(c) {
        var a := ParseInteger();
        if a.None? || offset >= |input| { return None; }
        if !LetterN(input[offset]) { return Some((0, sign * a.value)); }
        offset := offset + 1;
        r := ParseOffset(sign * a.value);
      } else if LetterN(c) {
        offset := offset + 1;
        r := ParseOffset(sign);
      } else {
        return None;
      }
    }

    method ParseNth() returns (r: Option<(int, int)>)
      requires Valid() && 0 < offset
      modifies this
      ensures Valid() && Gives(r, offset, NthExpression(cx, input, old(offset)))
    {
      hide NthStep, NthOffset, Name, Lower;
      if offset >= |input| { return None; }
      var c := input[offset];
      if c == '-' || c == '+' {
        offset := offset + 1;
        r := ParseStep(if c == '-' then -1 else 1);
      } else if Digit(c) {
        r := ParseStep(1);
      } else if LetterN(c) {
        r := ParseOffset(cx.unset);
      } else if c == 'o' || c == 'O' || c == 'e' || c == 'E' {
        var id := ParseName();
        if id.None? { return None; }
        if Lower(id.value) == "odd" { return Some((2, 1)); }
        return if Lower(id.value) == "even" then Some((2, 0)) else None;
      } else {
        return None;
      }
    }

    method ParseNthArgument(last: bool, ofType: bool) returns (r: Option<Selector>)
      requires Valid()
      modifies this
      ensures Valid() && Gives(r, offset, NthArgument(cx, input, old(offset), last, ofType))
    {
      hide Opening, Closing, NthExpression;
      var open := ConsumeParenthesis();
      if !open { return None; }
      var n := ParseNth();
      if n.None? { return None; }
      var close := ConsumeClosingParenthesis();
      return if close then Some(Leaf(NthChild(n.value.0, n.value.1, last, ofType))) else None;
    }

    method ParsePseudoclassSelector() returns (r: Option<Selector>)
      requires Valid()
      modifies this
      ensures Valid() && Gives(r, offset, PseudoSelector(cx, input, old(offset)))
      decreases |input| - offset, 0
    {
      hide Opening, Closing, Identifier, Lower, PseudoOf, Group, TextArgument, NthArgument;
      if offset >= |input| || input[offset] != ':' { return None; }
      offset := offset + 1;
      var name := ParseIdentifier();
      if name.None? { return None; }
      match PseudoOf(Lower(name.value))
      case Function(op) =>
        var open := ConsumeParenthesis();
        if !open { return None; }
        var sel := ParseSelectorGroup();
        if sel.None? { return None; }
        var close := ConsumeClosingParenthesis();
        return if close then Some(Unary(op, sel.value)) else None;
      case TextTest(op) => r := ParseTextArgument(op);
      case Nth(last, ofType) => r := ParseNthArgument(last, ofType);
      case Fixed(simple) => return Some(Leaf(simple));
      case Unsupported => return None;
    }

    method ParseSimple() returns (r: Option<Selector>)
      requires Valid() && offset < |input| && StartsSimple(input[offset])
      modifies this
      ensures Valid() && Gives(r, offset, SimpleSelector(cx, input, old(offset)))
      decreases |input| - offset, 1
    {
      hide IdSelector, ClassSelector, AttributeSelector, PseudoSelector;
      match input[offset]
      case '#' => r := ParseIdSelector();
      case '.' => r := ParseClassSelector();
      case '[' => r := ParseAttributeSelector();
      case _ => r := ParsePseudoclassSelector();
    }

    method ParseSimpleSelectorSequence() returns (r: Option<Selector>)
      requires Valid()
      modifies this
      ensures Valid() && Gives(r, offset, Sequence(cx, input, old(offset)))
      decreases |input| - offset, 3
    {
      hide SimpleSelector, TypeSelector;
      if offset >= |input| { return None; }
      var ret: Option<Selector> := None;
      var c := input[offset];
      if c == '*' { offset := offset + 1; }
      else if !StartsSimple(c) {
        ret := ParseTypeSelector();
        if ret.None? { return None; }
      }
      ghost var whole := SequenceRest(cx, input, offset, ret);
      while offset < |input| && StartsSimple(input[offset])
        invariant Valid() && offset >= old(offset)
        invariant SequenceRest(cx, input, offset, ret) == whole
        decreases |input| - offset
      {
        var sel := ParseSimple();
        if sel.None? { return None; }
        ret := Some(if ret.None? then sel.value else Intersection(ret.value, sel.value));
      }
      return Some(if ret.None? then Leaf(Dummy) else ret.value);
    }

    method ParseSelector() returns (r: Option<Selector>)
      requires Valid()
      modifies this
      ensures Valid() && Gives(r, offset, ComplexSelector(cx, input, old(offset)))
      decreases |input| - offset, 5
    {
      hide Sequence, SkipWhite;
      var _ := SkipWhitespace();
      r := ParseSimpleSelectorSequence();
      if r.None? { return None; }
      ghost var whole := SelectorRest(cx, input, offset, r.value);
      while true
        invariant Valid() && offset >= old(offset) && r.Some?
        invariant SelectorRest(cx, input, offset, r.value) == whole
        decreases |input| - offset
      {
        var space := SkipWhitespace();
        if offset >= |input| { return; }
        var c := input[offset];
        var combinator: Option<char> := if space then Some(' ') else None;
        if IsCombinator(c) {
          combinator := Some(c);
          offset := offset + 1;
          var _ := SkipWhitespace();
        } else if c == ',' || c == ')' {
          return;
        }
        if combinator.None? { return; }
        var sel := ParseSimpleSelectorSequence();
        if sel.None? { return None; }
        r := Some(Combine(combinator.value, r.value, sel.value));
      }
    }

    method ParseSelectorGroup() returns (r: Option<Selector>)
      requires Valid()
      modifies this
      ensures Valid() && Gives(r, offset, Group(cx, input, old(offset)))
      decreases |input| - offset, 7
    {
      hide ComplexSelector;
      r := ParseSelector();
      if r.None? { return None; }
      ghost var whole := GroupRest(cx, input, offset, r.value);
      while offset < |input|
        invariant Valid() && offset >= old(offset) && r.Some?
        invariant GroupRest(cx, input, offset, r.value) == whole
        decreases |input| - offset
      {
        if input[offset] != ',' { return; }
        offset := offset + 1;
        var sel := ParseSelector();
        if sel.None? { return None; }
        r := Some(Union(r.value, sel.value));
      }
    }
  }

  /** `CParser::create`: the tree of the group written at the start of the text, or an error when there is none.
      What follows the group is not read, and not refused. */
  method Create(cx: Context, text: string) returns (sel: Option<Selector>)
    ensures var g := Group(cx, text, 0); sel == if g.Error? then None else Some(g.value)
    ensures forall t :: sel == Some(t) <==> exists n :: Spells(cx, text, 0, t, n)
  {
    hide Group, Spells;
    GroupExactly(cx, text, 0);
    var p := new Parser(cx, text);
    sel := p.ParseSelectorGroup();
  }

  /** The parser undoes the printer. */
  method ReadBack(cx: Context, g: Choice) returns (sel: Option<Selector>)
    requires ChoiceOk(g, None)
    ensures sel == Some(ChoiceTree(cx, g))
  {
    ParsePrint(cx, g);
    sel := Create(cx, ChoiceText(g));
  }
}
