/** How an `an+b` argument may be written, and which of these the parser reads. It refuses exactly those that
    begin with the letter n and those with a minus sign behind the letter. */
module SelectorNth {
  import opened Options
  import opened Ascii
  import opened Selectors
  import opened SelectorSyntax
  import opened SelectorNames

  datatype Sense = Bare | Plus | Minus

  type Digits = d: string | AllDigits(d)

  predicate AllDigits(d: string) { forall k :: 0 <= k < |d| ==> Digit(d[k]) }

  /** A sign and a number behind the letter n. */
  datatype Shift = Shift(left: Gap, minus: bool, right: Gap, digits: Digits)

  datatype Argument =
    | Parity(word: seq<Glyph>, odd: bool)
    | Number(sense: Sense, digits: Digits)
    | Steps(sense: Sense, digits: Digits, letter: char, shift: Option<Shift>)

  /** An argument with `c` behind it. The words are not recognised when an escape begins them. */
  predicate ArgumentOk(a: Argument, c: Option<char>) {
    match a
    case Parity(word, odd) =>
      && word != [] && word[0].Bare? && NameOk(word, c)
      && Lower(NameValue(word)) == if odd then "odd" else "even"
    case Number(_, digits) => digits != ""
    case Steps(_, _, letter, shift) => LetterN(letter) && (shift.Some? ==> shift.value.digits != "")
  }

  function SenseText(s: Sense): string {
    match s
    case Bare => ""
    case Plus => "+"
    case Minus => "-"
  }

  function ShiftText(f: Option<Shift>): string {
    if f.None? then ""
    else GapText(f.value.left) + ((if f.value.minus then "-" else "+") + (GapText(f.value.right) + f.value.digits))
  }

  function ArgumentText(a: Argument): string {
    match a
    case Parity(word, _) => NameText(word)
    case Number(sense, digits) => SenseText(sense) + digits
    case Steps(sense, digits, letter, shift) => SenseText(sense) + (digits + ([letter] + ShiftText(shift)))
  }

  function Signed(s: Sense, n: nat): int { if s.Minus? then 0 - n else n }

  /** The step and the offset. */
  function ArgumentValue(a: Argument): (int, int) {
    match a
    case Parity(_, odd) => (2, if odd then 1 else 0)
    case Number(sense, digits) => (0, Signed(sense, Decimal(digits)))
    case Steps(sense, digits, _, shift) =>
      (Signed(sense, if digits == "" then 1 else Decimal(digits)), ShiftValue(shift))
  }

  function Counting(a: Argument, last: bool, ofType: bool): Simple {
    NthChild(ArgumentValue(a).0, ArgumentValue(a).1, last, ofType)
  }

  function ShiftValue(f: Option<Shift>): int {
    if f.None? then 0 else if f.value.minus then 0 - Decimal(f.value.digits) else Decimal(f.value.digits)
  }

  /** The letter n is not the first character, and no minus sign comes behind it. */
  predicate Accepted(a: Argument) {
    a.Steps? ==> !(a.sense.Bare? && a.digits == "") && !(a.shift.Some? && a.shift.value.minus)
  }

  /** White space in parentheses, around the argument. */
  function InParentheses(lead: Gap, a: Argument, tail: Gap): string {
    "(" + (GapText(lead) + (ArgumentText(a) + (GapText(tail) + ")")))
  }

  // ---------------------------------------------------------------------------------------
  // Numbers

  function Numeral(n: nat): Digits
    decreases n
  {
    if n < 10 then [('0' as int + n) as char] else Numeral(n / 10) + [('0' as int + n % 10) as char]
  }

  lemma {:induction false} DecimalNumeral(n: nat)
    ensures Numeral(n) != "" && Decimal(Numeral(n)) == n
    decreases n
  {
    var d := Numeral(n);
    if n >= 10 {
      DecimalNumeral(n / 10);
      assert d[..|d| - 1] == Numeral(n / 10);
    } else {
      assert d[..0] == "";
    }
  }

  lemma {:induction false} DigitsEnd(s: string, i: nat, d: Digits)
    requires At(s, i, d) && (i + |d| < |s| ==> !Digit(s[i + |d|]))
    ensures DigitEnd(s, i) == i + |d|
    decreases |d|
  {
    if d != "" {
      AtIndex(s, i, d, 0);
      assert d == [d[0]] + d[1..];
      AtSplit(s, i, [d[0]], d[1..]);
      DigitsEnd(s, i + 1, d[1..]);
    }
  }

  lemma IntegerReads(s: string, i: nat, d: Digits)
    requires d != "" && At(s, i, d) && (i + |d| < |s| ==> !Digit(s[i + |d|]))
    ensures Integer(s, i) == Ok(Decimal(d), i + |d|) && i < |s| && Digit(s[i])
  {
    hide DigitEnd, Decimal, At, Digit;
    DigitsEnd(s, i, d);
    AtIndex(s, i, d, 0);
    AtIs(s, i, d);
  }

  lemma {:induction false} DigitsStop(s: string, i: nat)
    requires i <= |s|
    ensures DigitEnd(s, i) < |s| ==> !Digit(s[DigitEnd(s, i)])
    decreases |s| - i
  {
    if i < |s| && Digit(s[i]) { DigitsStop(s, i + 1); }
  }

  lemma IntegerFound(s: string, i: nat) returns (d: Digits)
    requires i <= |s| && Integer(s, i).Ok?
    ensures d != "" && At(s, i, d) && Integer(s, i) == Ok(Decimal(d), i + |d|)
    ensures i + |d| < |s| ==> !Digit(s[i + |d|])
  {
    DigitsStop(s, i);
    d := s[i..DigitEnd(s, i)];
  }

  // ---------------------------------------------------------------------------------------
  // Behind the letter n

  /** Behind a gap comes white space, a comment, or what comes behind the gap. */
  lemma GapHead(g: Gap, c: Option<char>)
    ensures g == [] ==> Head(GapText(g), c) == c
    ensures g != [] ==> GapText(g) != "" && (White(GapText(g)[0]) || GapText(g)[0] == '/')
  {
    if g != [] { assert GapText(g)[0] == BlankText(g[0])[0]; }
  }

  /** A minus sign there is always an error: the code steps back to what it has just passed. */
  lemma MinusFails(s: string, i: nat, a: int)
    requires 0 < i <= |s| && LetterN(s[i - 1])
    requires var j := SkipWhite(s, i); j < |s| && s[j] == '-'
    ensures NthOffset(s, i, a) == Error
  {
    var j := SkipWhite(s, i);
    var g := GapFound(s, i);
    NoWhite(s, j);
    GapTail(s, i, g);
    if White(s[j - 1]) {
      assert SkipWhite(s, j - 1) == SkipWhite(s, j);
    } else {
      assert SkipWhite(s, j - 1) == j - 1;
    }
  }

  /** A gap ends with white space or a slash. */
  lemma {:induction false} GapTail(s: string, i: nat, g: Gap)
    requires At(s, i, GapText(g))
    ensures g != [] ==> 0 < |GapText(g)| && (White(s[i + |GapText(g)| - 1]) || s[i + |GapText(g)| - 1] == '/')
    decreases |g|
  {
    hide At, BlankText, White;
    if g != [] {
      var b := BlankText(g[0]);
      AtSplit(s, i, b, GapText(g[1..]));
      GapTail(s, i + |b|, g[1..]);
      AtIndex(s, i, b, |b| - 1);
      BlankTail(g[0]);
    }
  }

  lemma BlankTail(b: Blank)
    ensures var t := BlankText(b); White(t[|t| - 1]) || t[|t| - 1] == '/'
  {}

  /** A gap and a closing parenthesis. */
  lemma TailReads(s: string, i: nat, g: Gap)
    requires At(s, i, GapText(g) + ")")
    ensures i < |s| && !Digit(s[i]) && !LetterN(s[i]) && Some(s[i]) == Head(GapText(g), Some(')'))
    ensures SkipWhite(s, i) == i + |GapText(g)| && CharAt(s, i + |GapText(g)|) == Some(')')
  {
    hide At, GapText, SkipWhite;
    AtSplit(s, i, GapText(g), ")");
    AtChar(s, i + |GapText(g)|, ')');
    GapReads(s, i, g);
    GapHead(g, Some(')'));
  }

  lemma ShiftReads(s: string, i: nat, a: int, f: Option<Shift>, tail: Gap)
    requires 0 < i && At(s, i, ShiftText(f) + (GapText(tail) + ")")) && (f.Some? ==> f.value.digits != "")
    requires LetterN(s[i - 1])
    ensures i <= |s|
    ensures f.Some? && f.value.minus ==> NthOffset(s, i, a) == Error
    ensures !(f.Some? && f.value.minus) ==>
      var r := NthOffset(s, i, a);
      r.Ok? && r.value == (a, ShiftValue(f)) && SkipWhite(s, r.next) == i + |ShiftText(f)| + |GapText(tail)|
  {
    hide At, GapText, SkipWhite, White, Decimal, Integer, Digit, NthOffset, ShiftText;
    AtSplit(s, i, ShiftText(f), GapText(tail) + ")");
    var m := i + |ShiftText(f)|;
    TailReads(s, m, tail);
    if f.None? {
      assert ShiftText(f) == "" by { NoText(f); }
      NoShift(s, i, a);
    } else {
      SomeShift(s, i, a, f.value, m);
    }
  }

  lemma NoText(f: Option<Shift>)
    requires f.None?
    ensures ShiftText(f) == ""
  {}

  lemma NoShift(s: string, i: nat, a: int)
    requires 0 < i <= |s| && CharAt(s, SkipWhite(s, i)) == Some(')')
    ensures NthOffset(s, i, a) == Ok((a, 0), SkipWhite(s, i)) && SkipWhite(s, SkipWhite(s, i)) == SkipWhite(s, i)
  {
    NoWhite(s, SkipWhite(s, i));
  }

  lemma SomeShift(s: string, i: nat, a: int, f: Shift, m: nat)
    requires 0 < i && At(s, i, ShiftText(Some(f))) && f.digits != "" && m == i + |ShiftText(Some(f))| && LetterN(s[i - 1])
    requires m < |s| && !Digit(s[m])
    ensures i <= |s|
    ensures NthOffset(s, i, a) == if f.minus then Error else Ok((a, Decimal(f.digits)), m)
  {
    hide At, GapText, SkipWhite, Decimal, Digit, LetterN, NthOffset, Solid;
    var sign, l, t := if f.minus then "-" else "+", GapText(f.left), GapText(f.right) + f.digits;
    AtSplit(s, i, l, sign + t);
    AtSplit(s, i + |l|, sign, t);
    AtChar(s, i + |l|, sign[0]);
    SignSolid(sign[0]);
    GapReads(s, i, f.left);
    if f.minus { MinusFails(s, i, a); } else { PlusReads(s, i, a, i + |l|, f.right, f.digits); }
  }

  lemma PlusReads(s: string, i: nat, a: int, j: nat, g: Gap, d: Digits)
    requires 0 < i <= |s| && j == SkipWhite(s, i) && j < |s| && s[j] == '+' && d != "" && At(s, j + 1, GapText(g) + d)
    requires CharAt(s, j + 1 + |GapText(g) + d|).Some? ==> !Digit(CharAt(s, j + 1 + |GapText(g) + d|).value)
    ensures NthOffset(s, i, a) == Ok((a, Decimal(d)), j + 1 + |GapText(g) + d|)
  {
    hide At, GapText, SkipWhite, Decimal, Digit, Integer, Solid;
    AtSplit(s, j + 1, GapText(g), d);
    IntegerReads(s, j + 1 + |GapText(g)|, d);
    DigitSolid(s[j + 1 + |GapText(g)|]);
    GapReads(s, j + 1, g);
  }

  lemma SignSolid(c: char)
    requires c == '+' || c == '-'
    ensures Solid(Some(c))
  {}

  lemma DigitSolid(c: char)
    requires Digit(c)
    ensures Solid(Some(c))
  {}

  // ---------------------------------------------------------------------------------------
  // Arguments

  lemma SignedReads(cx: Context, s: string, i: nat, sense: Sense, c: char)
    requires 0 < i && At(s, i, SenseText(sense)) && CharAt(s, i + |SenseText(sense)|) == Some(c)
    requires Digit(c) || (LetterN(c) && !sense.Bare?)
    ensures NthExpression(cx, s, i) == NthStep(s, i + |SenseText(sense)|, if sense.Minus? then -1 else 1)
  {
    hide NthStep, At;
    if !sense.Bare? { AtChar(s, i, SenseText(sense)[0]); }
  }

  /** What the parser makes of an argument in parentheses, from behind the opening one. */
  ghost predicate Reads(cx: Context, s: string, i: nat, a: Argument, end: nat)
    requires 0 < i <= |s|
  {
    var r := NthExpression(cx, s, i);
    if Accepted(a) then r.Ok? && r.value == ArgumentValue(a) && SkipWhite(s, r.next) == end
    else r.Ok? ==> CharAt(s, SkipWhite(s, r.next)) != Some(')')
  }

  lemma ParityReads(cx: Context, s: string, i: nat, word: seq<Glyph>, odd: bool, tail: Gap)
    requires 0 < i && At(s, i, NameText(word) + (GapText(tail) + ")"))
    requires ArgumentOk(Parity(word, odd), Head(GapText(tail), Some(')')))
    ensures i <= |s| && Reads(cx, s, i, Parity(word, odd), i + |NameText(word)| + |GapText(tail)|)
  {
    hide At, GapText, SkipWhite, NameText, NameValue, NameOk, Lower, Name, LetterN;
    AtSplit(s, i, NameText(word), GapText(tail) + ")");
    TailReads(s, i + |NameText(word)|, tail);
    NameReads(s, i, word);
    BareAt(s, i, word);
    FirstLetter(word, if odd then "odd" else "even");
    FirstLetters(s[i]);
  }

  lemma FirstLetter(word: seq<Glyph>, t: string)
    requires word != [] && word[0].Bare? && t != "" && Lower(NameValue(word)) == t
    ensures LowerChar(word[0].c) == t[0]
  {
    hide LowerChar;
    assert NameValue(word)[0] == word[0].c;
    assert Lower(NameValue(word))[0] == LowerChar(word[0].c);
  }

  lemma FirstLetters(c: char)
    requires LowerChar(c) == 'o' || LowerChar(c) == 'e'
    ensures (c == 'o' || c == 'O' || c == 'e' || c == 'E') && !Digit(c) && !LetterN(c) && c != '-' && c != '+'
  {}

  lemma NumberReads(cx: Context, s: string, i: nat, sense: Sense, d: Digits, tail: Gap)
    requires 0 < i && d != "" && At(s, i, (SenseText(sense) + d) + (GapText(tail) + ")"))
    ensures i <= |s| && Reads(cx, s, i, Number(sense, d), i + |SenseText(sense) + d| + |GapText(tail)|)
  {
    hide At, GapText, SkipWhite, Decimal, Integer, SenseText, LetterN, NthExpression, Digit;
    var t := SenseText(sense);
    AtSplit(s, i, t + d, GapText(tail) + ")");
    AtSplit(s, i, t, d);
    TailReads(s, i + |t + d|, tail);
    IntegerReads(s, i + |t|, d);
    SignedReads(cx, s, i, sense, s[i + |t|]);
  }

  /** Behind the number and the letter. */
  lemma StepsStep(s: string, i: nat, sign: int, d: Digits, letter: char)
    requires At(s, i, d + [letter]) && LetterN(letter)
    ensures i + |d| + 1 <= |s| && s[i + |d|] == letter
    ensures NthStep(s, i, sign) == NthOffset(s, i + |d| + 1, if d == "" then sign else sign * Decimal(d))
  {
    hide At, Decimal, Integer, NthOffset;
    AtSplit(s, i, d, [letter]);
    AtChar(s, i + |d|, letter);
    if d != "" { IntegerReads(s, i, d); }
  }

  lemma StepsReads(cx: Context, s: string, i: nat, a: Argument, tail: Gap)
    requires 0 < i && a.Steps? && ArgumentOk(a, Head(GapText(tail), Some(')')))
    requires At(s, i, ArgumentText(a) + (GapText(tail) + ")"))
    ensures i <= |s| && Reads(cx, s, i, a, i + |ArgumentText(a)| + |GapText(tail)|)
  {
    hide At, GapText, SkipWhite, Decimal, Integer, SenseText, NthExpression, Digit, NthStep, NthOffset, ShiftText,
      LetterN, ShiftValue;
    var t, d, l, f := SenseText(a.sense), a.digits, a.letter, a.shift;
    var g, h := GapText(tail) + ")", ShiftText(f);
    assert ArgumentText(a) + g == t + ((d + [l]) + (h + g));
    AtSplit(s, i, t, (d + [l]) + (h + g));
    AtSplit(s, i + |t|, d + [l], h + g);
    StepsStep(s, i + |t|, if a.sense.Minus? then -1 else 1, d, l);
    if a.sense.Bare? && d == "" {
      BareLetter(cx, s, i, a.sense, l);
    } else {
      SignedReads(cx, s, i, a.sense, (d + [l])[0]);
      ShiftReads(s, i + |t| + |d| + 1, ArgumentValue(a).0, f, tail);
    }
  }

  /** The letter is left unread, where no closing parenthesis is. */
  lemma BareLetter(cx: Context, s: string, i: nat, sense: Sense, l: char)
    requires 0 < i && sense.Bare? && i + |SenseText(sense)| < |s| && s[i + |SenseText(sense)|] == l && LetterN(l)
    ensures NthExpression(cx, s, i) == Ok((cx.unset, 0), i) && SkipWhite(s, i) == i && s[i] != ')'
  {
    NoWhite(s, i);
  }

  lemma ArgumentReads(cx: Context, s: string, i: nat, a: Argument, tail: Gap)
    requires 0 < i && At(s, i, ArgumentText(a) + (GapText(tail) + ")")) && ArgumentOk(a, Head(GapText(tail), Some(')')))
    ensures i <= |s| && Reads(cx, s, i, a, i + |ArgumentText(a)| + |GapText(tail)|)
  {
    hide At, GapText, Reads, NameText, NameOk, SenseText;
    match a
    case Parity(word, odd) => ParityReads(cx, s, i, word, odd, tail);
    case Number(sense, d) => NumberReads(cx, s, i, sense, d, tail);
    case Steps(_, _, _, _) => StepsReads(cx, s, i, a, tail);
  }

  lemma ArgumentStarts(a: Argument, c: Option<char>)
    requires ArgumentOk(a, c)
    ensures ArgumentText(a) != "" && Solid(Some(ArgumentText(a)[0]))
  {
    hide NameOk, NameValue, Lower, ShiftText;
    match a
    case Parity(word, _) => assert NameText(word)[0] == GlyphText(word[0])[0];
    case Number(sense, d) => assert Digit(d[0]);
    case Steps(sense, d, l, _) => assert d != "" ==> Digit(d[0]);
  }

  /** An argument is read with its step and offset exactly when it is accepted. */
  lemma NthReads(cx: Context, s: string, i: nat, lead: Gap, a: Argument, tail: Gap, last: bool, ofType: bool)
    requires At(s, i, InParentheses(lead, a, tail)) && ArgumentOk(a, Head(GapText(tail), Some(')')))
    ensures i <= |s|
    ensures NthArgument(cx, s, i, last, ofType)
      == if Accepted(a) then Ok(Leaf(Counting(a, last, ofType)), i + |InParentheses(lead, a, tail)|) else Error
  {
    hide At, GapText, ArgumentText, ArgumentOk, ArgumentValue, Accepted, NthExpression, SkipWhite, White;
    var l, t, z := GapText(lead), ArgumentText(a), GapText(tail);
    AtSplit(s, i, "(", l + (t + (z + ")")));
    AtChar(s, i, '(');
    AtSplit(s, i + 1, l, t + (z + ")"));
    var j := i + 1 + |l|;
    ArgumentStarts(a, Head(z, Some(')')));
    GapReads(s, i + 1, lead);
    ArgumentReads(cx, s, j, a, tail);
    AtSplit(s, j, t, z + ")");
    TailReads(s, j + |t|, tail);
  }

  // ---------------------------------------------------------------------------------------
  // What is read is an accepted argument

  /** Where an argument that ends at `i` is closed. */
  lemma TailFound(s: string, i: nat) returns (tail: Gap)
    requires i <= |s| && Closing(s, i).Some?
    ensures At(s, i, GapText(tail) + ")") && Closing(s, i).value == i + |GapText(tail)| + 1
    ensures CharAt(s, i) == Head(GapText(tail), Some(')'))
  {
    hide SkipWhite, GapText, At;
    tail := GapFound(s, i);
    AtChar(s, i + |GapText(tail)|, ')');
    AtJoin(s, i, GapText(tail), ")");
  }

  lemma ShiftFound(s: string, i: nat, a: int) returns (f: Option<Shift>, tail: Gap)
    requires 0 < i <= |s| && LetterN(s[i - 1])
    requires var r := NthOffset(s, i, a); r.Ok? && Closing(s, r.next).Some?
    ensures At(s, i, ShiftText(f) + (GapText(tail) + ")")) && NthOffset(s, i, a).value == (a, ShiftValue(f))
    ensures f.Some? ==> f.value.digits != "" && !f.value.minus
    ensures Closing(s, NthOffset(s, i, a).next).value == i + |ShiftText(f)| + |GapText(tail)| + 1
  {
    hide SkipWhite, GapText, At, Integer, Decimal;
    var j := SkipWhite(s, i);
    if s[j] == '-' { MinusFails(s, i, a); }
    var l := GapFound(s, i);
    if s[j] == '+' {
      var r := GapFound(s, j + 1);
      var k := j + 1 + |GapText(r)|;
      var d := IntegerFound(s, k);
      tail := TailFound(s, k + |d|);
      f := Some(Shift(l, false, r, d));
      AtChar(s, j, '+');
      ShiftJoins(s, i, f.value, GapText(tail) + ")");
    } else {
      f, tail := None, l;
      AtChar(s, j, ')');
      AtJoin(s, i, GapText(l), ")");
      assert "" + (GapText(tail) + ")") == GapText(tail) + ")";
    }
  }

  lemma ShiftJoins(s: string, i: nat, f: Shift, z: string)
    requires var l, r := GapText(f.left), GapText(f.right);
      && !f.minus && At(s, i, l) && At(s, i + |l|, "+") && At(s, i + |l| + 1, r) && At(s, i + |l| + 1 + |r|, f.digits)
      && At(s, i + |l| + 1 + |r| + |f.digits|, z)
    ensures At(s, i, ShiftText(Some(f)) + z) && |ShiftText(Some(f))| == |GapText(f.left)| + 1 + |GapText(f.right)| + |f.digits|
  {
    hide At, GapText;
    JoinFive(s, i, GapText(f.left), "+", GapText(f.right), f.digits, z);
  }

  lemma JoinFive(s: string, i: nat, a: string, b: string, c: string, d: string, z: string)
    requires At(s, i, a) && At(s, i + |a|, b) && At(s, i + |a| + |b|, c) && At(s, i + |a| + |b| + |c|, d)
    requires At(s, i + |a| + |b| + |c| + |d|, z)
    ensures var t := a + (b + (c + d)); At(s, i, t + z) && |t| == |a| + |b| + |c| + |d|
  {
    hide At;
    AtJoin(s, i + |a| + |b|, c, d);
    AtJoin(s, i + |a|, b, c + d);
    AtJoin(s, i, a, b + (c + d));
    AtJoin(s, i, a + (b + (c + d)), z);
  }

  lemma ParityFound(s: string, i: nat) returns (a: Argument)
    requires i < |s| && NthWord(s, i).Ok? && NameChar(s[i])
    ensures a.Parity? && At(s, i, NameText(a.word)) && ArgumentOk(a, CharAt(s, i + |NameText(a.word)|))
    ensures NthWord(s, i) == Ok(ArgumentValue(a), i + |NameText(a.word)|)
  {
    hide Name, NameText, NameOk, NameValue, Lower, NameChar, At;
    var word := NameFound(s, i);
    a := Parity(word, Lower(NameValue(word)) == "odd");
  }

  /** The step, from behind the sign on. */
  lemma StepFound(s: string, i: nat, sense: Sense) returns (a: Argument, tail: Gap)
    requires i <= |s|
    requires var r := NthStep(s, i, if sense.Minus? then -1 else 1); r.Ok? && Closing(s, r.next).Some?
    ensures !a.Parity? && a.sense == sense && ArgumentOk(a, Head(GapText(tail), Some(')')))
    ensures a.Steps? && a.digits == "" ==> i < |s| && LetterN(s[i])
    ensures At(s, i, Unsigned(a) + (GapText(tail) + ")")) && (a.Steps? && a.shift.Some? ==> !a.shift.value.minus)
    ensures var r := NthStep(s, i, if sense.Minus? then -1 else 1);
      r.value == ArgumentValue(a) && Closing(s, r.next).value == i + |Unsigned(a)| + |GapText(tail)| + 1
  {
    hide At, GapText, SkipWhite, Closing, Integer, Decimal, NthOffset, ShiftText, ShiftValue;
    var sign := if sense.Minus? then -1 else 1;
    var d: Digits := "";
    AtNothing(s, i);
    if Digit(s[i]) { d := IntegerFound(s, i); }
    var j := i + |d|;
    if LetterN(s[j]) {
      var f, z := ShiftFound(s, j + 1, if d == "" then sign else sign * Decimal(d));
      tail := z;
      a := Steps(sense, d, s[j], f);
      AtChar(s, j, s[j]);
      StepsJoin(s, i, d, s[j], ShiftText(f), GapText(tail) + ")");
    } else {
      tail := TailFound(s, j);
      a := Number(sense, d);
      AtJoin(s, i, d, GapText(tail) + ")");
    }
  }

  lemma AtNothing(s: string, i: nat)
    requires i <= |s|
    ensures At(s, i, "")
  {}

  lemma StepsJoin(s: string, i: nat, d: string, l: char, f: string, z: string)
    requires At(s, i, d) && At(s, i + |d|, [l]) && At(s, i + |d| + 1, f + z)
    ensures At(s, i, (d + ([l] + f)) + z)
  {
    hide At;
    AtJoin(s, i + |d|, [l], f + z);
    AtJoin(s, i, d, [l] + (f + z));
    assert d + ([l] + (f + z)) == (d + ([l] + f)) + z;
  }

  /** The text of a number or a step without its sign. */
  function Unsigned(a: Argument): string
    requires !a.Parity?
  {
    match a
    case Number(_, digits) => digits
    case Steps(_, digits, letter, shift) => digits + ([letter] + ShiftText(shift))
  }

  lemma SignedFound(cx: Context, s: string, i: nat, sense: Sense) returns (a: Argument, tail: Gap)
    requires At(s, i, SenseText(sense)) && i + |SenseText(sense)| < |s|
    requires 0 < i && NthExpression(cx, s, i) == NthStep(s, i + |SenseText(sense)|, if sense.Minus? then -1 else 1)
    requires sense.Bare? ==> Digit(s[i])
    requires var r := NthExpression(cx, s, i); r.Ok? && Closing(s, r.next).Some?
    ensures Found(cx, s, i, a, tail)
  {
    hide At, GapText, SkipWhite, Closing, NthStep, NthExpression, ShiftText, ArgumentValue, ArgumentText, Unsigned,
      ArgumentOk, Digit, LetterN;
    var t := SenseText(sense);
    a, tail := StepFound(s, i + |t|, sense);
    AtJoin(s, i, t, Unsigned(a) + (GapText(tail) + ")"));
    SignedText(a, GapText(tail) + ")");
    assert Accepted(a) by { if sense.Bare? { DigitLetter(s[i]); } }
  }

  lemma DigitLetter(c: char)
    requires Digit(c)
    ensures !LetterN(c)
  {}

  lemma SignedText(a: Argument, z: string)
    requires !a.Parity?
    ensures ArgumentText(a) + z == SenseText(a.sense) + (Unsigned(a) + z) && |ArgumentText(a)| == |SenseText(a.sense)| + |Unsigned(a)|
  {
    hide SenseText, ShiftText;
    assert ArgumentText(a) == SenseText(a.sense) + Unsigned(a);
    hide *;
    assert (SenseText(a.sense) + Unsigned(a)) + z == SenseText(a.sense) + (Unsigned(a) + z);
  }

  ghost predicate Found(cx: Context, s: string, i: nat, a: Argument, tail: Gap) {
    && At(s, i, ArgumentText(a) + (GapText(tail) + ")")) && ArgumentOk(a, Head(GapText(tail), Some(')'))) && Accepted(a)
    && 0 < i <= |s|
    && var r := NthExpression(cx, s, i);
       r.Ok? && r.value == ArgumentValue(a) && Closing(s, r.next) == Some(i + |ArgumentText(a)| + |GapText(tail)| + 1)
  }

  lemma ArgumentFound(cx: Context, s: string, i: nat) returns (a: Argument, tail: Gap)
    requires 0 < i <= |s|
    requires var r := NthExpression(cx, s, i); r.Ok? && Closing(s, r.next).Some?
    ensures Found(cx, s, i, a, tail)
  {
    hide At, GapText, SkipWhite, NthStep, NthWord;
    if s[i] == '-' || s[i] == '+' {
      AtChar(s, i, s[i]);
      a, tail := SignedFound(cx, s, i, if s[i] == '-' then Minus else Plus);
    } else if Digit(s[i]) {
      AtNothing(s, i);
      a, tail := SignedFound(cx, s, i, Sense.Bare);
    } else if LetterN(s[i]) {
      BareLetter(cx, s, i, Sense.Bare, s[i]);
    } else {
      a := ParityFound(s, i);
      tail := TailFound(s, i + |NameText(a.word)|);
      AtJoin(s, i, NameText(a.word), GapText(tail) + ")");
    }
  }

  /** What is read as an argument in parentheses is an accepted one. */
  lemma NthFound(cx: Context, s: string, i: nat, last: bool, ofType: bool) returns (lead: Gap, a: Argument, tail: Gap)
    requires i <= |s| && NthArgument(cx, s, i, last, ofType).Ok?
    ensures At(s, i, InParentheses(lead, a, tail)) && ArgumentOk(a, Head(GapText(tail), Some(')'))) && Accepted(a)
    ensures NthArgument(cx, s, i, last, ofType) == Ok(Leaf(Counting(a, last, ofType)), i + |InParentheses(lead, a, tail)|)
  {
    hide At, GapText, ArgumentText, ArgumentOk, ArgumentValue, Accepted, NthExpression, SkipWhite, Closing;
    lead := GapFound(s, i + 1);
    var j := i + 1 + |GapText(lead)|;
    a, tail := ArgumentFound(cx, s, j);
    AtChar(s, i, '(');
    AtJoin(s, i + 1, GapText(lead), ArgumentText(a) + (GapText(tail) + ")"));
    AtJoin(s, i, "(", GapText(lead) + (ArgumentText(a) + (GapText(tail) + ")")));
  }

  /** The specification of selectors allows both of these; the parser refuses them. */
  lemma RefusedArguments(cx: Context)
    ensures NthArgument(cx, "(n+1)", 0, false, false) == Error
    ensures NthArgument(cx, "(2n-1)", 0, false, false) == Error
  {
    hide NthArgument;
    var n := Steps(Sense.Bare, "", 'n', Some(Shift([], false, [], "1")));
    var m := Steps(Sense.Bare, "2", 'n', Some(Shift([], true, [], "1")));
    assert InParentheses([], n, []) == "(n+1)";
    assert InParentheses([], m, []) == "(2n-1)";
    NthReads(cx, "(n+1)", 0, [], n, [], false, false);
    NthReads(cx, "(2n-1)", 0, [], m, [], false, false);
  }
}
