/** How white space, names and strings may be written, and what the parser makes of each spelling. For
    every construct two lemmas: what is written so is read as its value, and what is read is written so. */
module SelectorNames {
  import opened Options
  import opened Ascii
  import opened SelectorSyntax

  /** `t` is written at `i`. */
  predicate At(s: string, i: nat, t: string) { i + |t| <= |s| && s[i..i + |t|] == t }

  /** What comes at `i`. */
  function CharAt(s: string, i: nat): Option<char> { if i < |s| then Some(s[i]) else None }

  /** How a text starts that has `c` behind it. */
  function Head(t: string, c: Option<char>): Option<char> { if t == "" then c else Some(t[0]) }

  lemma AtSplit(s: string, i: nat, a: string, b: string)
    requires At(s, i, a + b)
    ensures At(s, i, a) && At(s, i + |a|, b) && i + |a| + |b| == i + |a + b| <= |s|
    ensures CharAt(s, i) == Head(a, CharAt(s, i + |a|))
    ensures CharAt(s, i + |a|) == Head(b, CharAt(s, i + |a + b|))
  {
    assert a == (a + b)[..|a|] && b == (a + b)[|a|..];
    if a != "" { AtIndex(s, i, a, 0); }
    if b != "" { AtIndex(s, i + |a|, b, 0); }
  }

  lemma AtJoin(s: string, i: nat, a: string, b: string)
    requires At(s, i, a) && At(s, i + |a|, b)
    ensures At(s, i, a + b) && i + |a + b| == i + |a| + |b|
    ensures CharAt(s, i) == Head(a, CharAt(s, i + |a|))
    ensures CharAt(s, i + |a|) == Head(b, CharAt(s, i + |a + b|))
  {
    assert s[i..i + |a| + |b|] == s[i..i + |a|] + s[i + |a|..i + |a| + |b|];
    AtSplit(s, i, a, b);
  }

  lemma AtIndex(s: string, i: nat, t: string, k: nat)
    requires At(s, i, t) && k < |t|
    ensures i + k < |s| && s[i + k] == t[k]
  {
    assert s[i..i + |t|][k] == t[k];
  }

  lemma AtChar(s: string, i: nat, c: char)
    ensures At(s, i, [c]) <==> CharAt(s, i) == Some(c)
  {
    if At(s, i, [c]) { AtIndex(s, i, [c], 0); }
  }

  // ---------------------------------------------------------------------------------------
  // White space and comments

  datatype Filler = Space(c: char) | Note(body: string)

  /** The end of a comment is the first one. */
  predicate FillerOk(f: Filler) {
    match f
    case Space(c) => White(c)
    case Note(body) => forall k :: 0 <= k < |body| ==> body[k] == '*' ==> (body + "*")[k + 1] != '/'
  }

  type Blank = f: Filler | FillerOk(f) witness Space(' ')

  type Gap = seq<Blank>

  function BlankText(b: Blank): (t: string)
    ensures |t| > 0
  {
    match b
    case Space(c) => [c]
    case Note(body) => "/*" + (body + "*/")
  }

  function GapText(g: Gap): string {
    if g == [] then "" else BlankText(g[0]) + GapText(g[1..])
  }

  /** No white space, and no comment. */
  predicate Solid(c: Option<char>) { c.Some? ==> !White(c.value) && c.value != '/' }

  lemma NoWhite(s: string, i: nat)
    requires i <= |s| && Solid(CharAt(s, i))
    ensures SkipWhite(s, i) == i
  {}

  lemma {:induction false} CommentEnds(s: string, i: nat, body: string, k: nat)
    requires At(s, i, body + "*/") && FillerOk(Note(body)) && k <= |body|
    ensures FindCommentEnd(s, i + k) == i + |body|
    decreases |body| - k
  {
    var t := body + "*/";
    AtIndex(s, i, t, k);
    AtIndex(s, i, t, k + 1);
    if k < |body| { CommentEnds(s, i, body, k + 1); }
  }

  lemma BlankSkips(s: string, i: nat, b: Blank)
    requires At(s, i, BlankText(b))
    ensures i + |BlankText(b)| <= |s| && SkipWhite(s, i) == SkipWhite(s, i + |BlankText(b)|)
  {
    AtIndex(s, i, BlankText(b), 0);
    if b.Note? {
      AtIndex(s, i, BlankText(b), 1);
      AtSplit(s, i, "/*", b.body + "*/");
      CommentEnds(s, i + 2, b.body, 0);
    }
  }

  lemma {:induction false} GapSkips(s: string, i: nat, g: Gap)
    requires At(s, i, GapText(g))
    ensures i + |GapText(g)| <= |s| && SkipWhite(s, i) == SkipWhite(s, i + |GapText(g)|)
    decreases |g|
  {
    hide SkipWhite, BlankText;
    if g != [] {
      AtSplit(s, i, BlankText(g[0]), GapText(g[1..]));
      BlankSkips(s, i, g[0]);
      GapSkips(s, i + |BlankText(g[0])|, g[1..]);
    }
  }

  /** A gap is skipped whole, up to something else. */
  lemma GapReads(s: string, i: nat, g: Gap)
    requires At(s, i, GapText(g)) && Solid(CharAt(s, i + |GapText(g)|))
    ensures i + |GapText(g)| <= |s| && SkipWhite(s, i) == i + |GapText(g)|
  {
    hide SkipWhite, GapText, At, White;
    GapSkips(s, i, g);
    NoWhite(s, i + |GapText(g)|);
  }

  lemma {:induction false} CommentFound(s: string, i: nat, e: nat)
    requires i <= |s| && e == FindCommentEnd(s, i) && e != |s|
    ensures i <= e && e + 2 <= |s| && At(s, i, s[i..e] + "*/") && FillerOk(Note(s[i..e]))
    decreases |s| - i
  {
    if e != i {
      CommentFound(s, i + 1, e);
      assert s[i..e] == [s[i]] + s[i + 1..e];
      var b, b' := s[i..e], s[i + 1..e];
      forall k | 0 <= k < |b| && b[k] == '*' ensures (b + "*")[k + 1] != '/' {
        if k > 0 { assert b'[k - 1] == '*'; }
      }
    }
    assert s[i..e + 2] == s[i..e] + "*/";
  }

  /** What is skipped is a gap. */
  lemma {:induction false} GapFound(s: string, i: nat) returns (g: Gap)
    requires i <= |s|
    ensures At(s, i, GapText(g)) && SkipWhite(s, i) == i + |GapText(g)| && (g == [] <==> SkipWhite(s, i) == i)
    ensures SkipWhite(s, i + |GapText(g)|) == i + |GapText(g)|
    decreases |s| - i
  {
    hide SkipWhite, BlankText, GapText, At;
    var b := BlankFound(s, i);
    if b.None? { g := NoGap(s, i); }
    else {
      var r := GapFound(s, i + |BlankText(b.value)|);
      g := GapMore(s, i, b.value, r);
    }
  }

  lemma NoGap(s: string, i: nat) returns (g: Gap)
    requires i <= |s|
    ensures g == [] && At(s, i, GapText(g)) && |GapText(g)| == 0
  {
    g := [];
  }

  lemma BlankFound(s: string, i: nat) returns (b: Option<Blank>)
    requires i <= |s|
    ensures b.None? ==> SkipWhite(s, i) == i
    ensures b.Some? ==>
      At(s, i, BlankText(b.value)) && i < i + |BlankText(b.value)| <= |s| && SkipWhite(s, i) == SkipWhite(s, i + |BlankText(b.value)|)
  {
    hide At, FindCommentEnd;
    b := None;
    if i < |s| && White(s[i]) {
      b := Some(Space(s[i]));
      AtChar(s, i, s[i]);
    } else if i + 1 < |s| && s[i] == '/' && s[i + 1] == '*' && FindCommentEnd(s, i + 2) != |s| {
      var note := NoteFound(s, i);
      b := Some(note);
    }
  }

  lemma NoteFound(s: string, i: nat) returns (b: Blank)
    requires i + 1 < |s| && s[i] == '/' && s[i + 1] == '*' && FindCommentEnd(s, i + 2) != |s|
    ensures At(s, i, BlankText(b)) && i + |BlankText(b)| == FindCommentEnd(s, i + 2) + 2
  {
    hide FindCommentEnd;
    var e := FindCommentEnd(s, i + 2);
    CommentFound(s, i + 2, e);
    AtJoin(s, i, "/*", s[i + 2..e] + "*/");
    b := Note(s[i + 2..e]);
  }

  lemma GapMore(s: string, i: nat, b: Blank, r: Gap) returns (g: Gap)
    requires At(s, i, BlankText(b)) && At(s, i + |BlankText(b)|, GapText(r))
    ensures g == [b] + r && At(s, i, GapText(g)) && |GapText(g)| == |BlankText(b)| + |GapText(r)|
  {
    g := [b] + r;
    assert g[1..] == r;
    AtJoin(s, i, BlankText(b), GapText(r));
  }

  // ---------------------------------------------------------------------------------------
  // Characters of names

  /** A name character, a character behind a backslash, or the codes of one or two, with the white space
      that belongs to them. */
  datatype Sign = Bare(c: char) | Slash(c: char) | Hex(digits: string, trail: string)

  type Glyph = g: Sign | SignOk(g) witness Bare('a')

  predicate SignOk(g: Sign) {
    match g
    case Bare(c) => NameChar(c)
    case Slash(c) => !HexDigit(c) && !Newline(c)
    case Hex(d, trail) => DigitsOk(d) && TrailOk(trail)
  }

  predicate TrailOk(t: string) { t == "" || t == "\r\n" || (|t| == 1 && White(t[0])) }

  predicate AllHex(d: string) { forall k :: 0 <= k < |d| ==> HexDigit(d[k]) }

  /** Pairs of digits; the third or fifth must be zero. */
  predicate DigitsOk(d: string) { AllHex(d) && 2 <= |d| <= 5 && (|d| % 2 == 1 ==> d[|d| - 1] == '0') }

  /** With `c` behind it, a spelling ends where it does. */
  predicate GlyphEnds(g: Glyph, c: Option<char>) {
    g.Hex? && c.Some? ==>
      && (g.trail == "" ==> !White(c.value) && (|g.digits| < 5 ==> !HexDigit(c.value)))
      && (g.trail == "\r" ==> c.value != '\n')
  }

  function GlyphText(g: Glyph): (t: string)
    ensures |t| > 0
  {
    match g
    case Bare(c) => [c]
    case Slash(c) => ['\\', c]
    case Hex(d, trail) => "\\" + (d + trail)
  }

  /** One byte for each pair of digits. */
  function HexText(d: string): string
    requires AllHex(d)
  {
    seq(|d| / 2, k requires 0 <= k < |d| / 2 => (16 * HexValue(d[2 * k]) + HexValue(d[2 * k + 1])) as char)
  }

  function GlyphValue(g: Glyph): string {
    match g
    case Bare(c) => [c]
    case Slash(c) => [c]
    case Hex(d, _) => HexText(d)
  }

  lemma HexDigits(c: char)
    requires HexDigit(c)
    ensures "0123456789abcdef"[HexValue(c)] == LowerChar(c)
  {}

  lemma HexTextIs(d: string)
    requires AllHex(d)
    ensures |d| < 2 ==> HexText(d) == ""
    ensures |d| >= 2 ==> HexText(d) == [(16 * HexValue(d[0]) + HexValue(d[1])) as char] + HexText(d[2..])
  {
    hide HexDigit, HexValue;
    if |d| >= 2 {
      var e := d[2..];
      var b := [(16 * HexValue(d[0]) + HexValue(d[1])) as char];
      forall k | 0 <= k < |d| / 2 ensures HexText(d)[k] == (b + HexText(e))[k] {
        if k > 0 { assert e[2 * (k - 1)] == d[2 * k] && e[2 * (k - 1) + 1] == d[2 * k + 1]; }
      }
    }
  }

  lemma {:induction false} HexBytesAre(d: string)
    requires AllHex(d)
    ensures HexBytes(d) == if |d| % 2 == 1 && d[|d| - 1] != '0' then None else Some(HexText(d))
    decreases |d|
  {
    hide HexText, HexDigit, HexValue;
    HexTextIs(d);
    if |d| >= 2 {
      HexBytesAre(d[2..]);
    } else if |d| == 1 {
      assert d == [d[0]];
    }
  }

  lemma {:induction false} HexEnds(s: string, i: nat, d: string, limit: nat)
    requires At(s, i, d) && AllHex(d) && |d| <= limit && (|d| < limit && i + |d| < |s| ==> !HexDigit(s[i + |d|]))
    ensures HexEnd(s, i, limit) == i + |d|
    decreases |d|
  {
    if d != "" {
      AtIndex(s, i, d, 0);
      assert d == [d[0]] + d[1..];
      AtSplit(s, i, [d[0]], d[1..]);
      HexEnds(s, i + 1, d[1..], limit - 1);
    }
  }

  lemma TrailReads(s: string, i: nat, g: Glyph)
    requires g.Hex? && At(s, i, g.trail) && GlyphEnds(g, CharAt(s, i + |g.trail|))
    ensures SkipOne(s, i) == i + |g.trail| && (|g.digits| < 5 && i < |s| ==> !HexDigit(s[i]))
  {
    if g.trail != "" { AtIndex(s, i, g.trail, 0); }
    if g.trail == "\r\n" { AtIndex(s, i, g.trail, 1); }
  }

  lemma HexReads(s: string, i: nat, g: Glyph)
    requires g.Hex? && At(s, i, g.digits + g.trail) && GlyphEnds(g, CharAt(s, i + |g.digits + g.trail|))
    ensures i < |s| && HexDigit(s[i]) && HexEnd(s, i, 5) == i + |g.digits| && s[i..i + |g.digits|] == g.digits
    ensures SkipOne(s, i + |g.digits|) == i + |g.digits + g.trail|
    ensures HexBytes(g.digits) == Some(HexText(g.digits)) && HexText(g.digits) != ""
  {
    hide At, HexText, HexBytes, GlyphEnds, SkipOne, HexEnd, TrailOk;
    var d := g.digits;
    AtSplit(s, i, d, g.trail);
    AtIndex(s, i, d, 0);
    TrailReads(s, i + |d|, g);
    HexEnds(s, i, d, 5);
    AtIs(s, i, d);
    HexBytesAre(d);
    HexLength(d);
  }

  /** An escape reads as its character or codes. */
  lemma EscapeReads(s: string, i: nat, g: Glyph)
    requires !g.Bare? && At(s, i, GlyphText(g)) && GlyphEnds(g, CharAt(s, i + |GlyphText(g)|))
    ensures Escape(s, i) == Ok(GlyphValue(g), i + |GlyphText(g)|) && i < |s| && s[i] == '\\'
  {
    hide At, HexText, HexBytes, GlyphEnds, SkipOne, HexEnd, SignOk;
    AtIndex(s, i, GlyphText(g), 0);
    match g
    case Slash(c) =>
      AtIndex(s, i, GlyphText(g), 1);
      SlashIs(g);
    case Hex(d, trail) =>
      AtSplit(s, i, "\\", d + trail);
      HexReads(s, i + 1, g);
      HexNewline(s[i + 1]);
  }

  lemma SlashIs(g: Glyph)
    requires g.Slash?
    ensures !HexDigit(g.c) && !Newline(g.c)
  {}

  lemma HexNewline(c: char)
    requires HexDigit(c)
    ensures !Newline(c)
  {}

  lemma AtIs(s: string, i: nat, t: string)
    requires At(s, i, t)
    ensures i + |t| <= |s| && s[i..i + |t|] == t
  {}

  lemma {:induction false} HexStops(s: string, i: nat, limit: nat)
    requires i <= |s|
    ensures var j := HexEnd(s, i, limit); j < i + limit && j < |s| ==> !HexDigit(s[j])
    decreases limit
  {
    if limit > 0 && i < |s| && HexDigit(s[i]) { HexStops(s, i + 1, limit - 1); }
  }

  lemma TrailFound(s: string, i: nat) returns (trail: string)
    requires i <= |s|
    ensures At(s, i, trail) && SkipOne(s, i) == i + |trail|
    ensures TrailOk(trail)
    ensures trail == "" && i < |s| ==> !White(s[i])
    ensures trail == "\r" && i + 1 < |s| ==> s[i + 1] != '\n'
  {
    var j := SkipOne(s, i);
    trail := s[i..j];
  }

  lemma HexFound(s: string, i: nat) returns (g: Glyph)
    requires i <= |s|
    requires var e := HexBytes(s[i..HexEnd(s, i, 5)]); e.Some? && e.value != ""
    ensures g.Hex? && g.digits == s[i..HexEnd(s, i, 5)] && HexBytes(g.digits) == Some(GlyphValue(g))
    ensures At(s, i, g.digits + g.trail) && i + |g.digits + g.trail| == SkipOne(s, HexEnd(s, i, 5))
    ensures GlyphEnds(g, CharAt(s, i + |g.digits + g.trail|))
  {
    hide HexText, HexBytes, HexDigit, HexEnd, SkipOne, TrailOk;
    var e := HexEnd(s, i, 5);
    var d := s[i..e];
    HexStops(s, i, 5);
    HexBytesAre(d);
    HexLength(d);
    var trail := TrailFound(s, e);
    g := Hex(d, trail);
    AtJoin(s, i, d, trail);
  }

  /** What is read as an escape is one. */
  lemma EscapeFound(s: string, i: nat) returns (g: Glyph)
    requires Escape(s, i).Ok?
    ensures !g.Bare? && At(s, i, GlyphText(g)) && GlyphEnds(g, CharAt(s, i + |GlyphText(g)|))
    ensures Escape(s, i) == Ok(GlyphValue(g), i + |GlyphText(g)|)
  {
    hide HexText, HexBytes, HexDigit, HexEnd, SkipOne;
    if !HexDigit(s[i + 1]) {
      g := Slash(s[i + 1]);
    } else {
      g := HexFound(s, i + 1);
      AtChar(s, i, '\\');
      AtJoin(s, i, "\\", g.digits + g.trail);
    }
  }

  lemma HexLength(d: string)
    requires AllHex(d)
    ensures |HexText(d)| == |d| / 2
  {}

  // ---------------------------------------------------------------------------------------
  // Names

  function NameText(n: seq<Glyph>): string {
    if n == [] then "" else GlyphText(n[0]) + NameText(n[1..])
  }

  /** A name with `c` behind it, where no name goes on. */
  predicate NameOk(n: seq<Glyph>, c: Option<char>) {
    if n == [] then c.Some? ==> !NameChar(c.value) && c.value != '\\'
    else GlyphEnds(n[0], Head(NameText(n[1..]), c)) && NameOk(n[1..], c)
  }

  function NameValue(n: seq<Glyph>): string {
    if n == [] then "" else GlyphValue(n[0]) + NameValue(n[1..])
  }

  lemma GlyphReads(s: string, i: nat, g: Glyph)
    requires At(s, i, GlyphText(g)) && GlyphEnds(g, CharAt(s, i + |GlyphText(g)|))
    ensures i + |GlyphText(g)| <= |s| && NameRest(s, i) == Prepend(GlyphValue(g), NameRest(s, i + |GlyphText(g)|))
  {
    hide Escape, GlyphEnds;
    AtIndex(s, i, GlyphText(g), 0);
    if !g.Bare? { EscapeReads(s, i, g); }
  }

  /** What is left of a name reads as its characters. */
  lemma {:induction false} NameRestReads(s: string, i: nat, n: seq<Glyph>)
    requires At(s, i, NameText(n)) && NameOk(n, CharAt(s, i + |NameText(n)|))
    ensures NameRest(s, i) == Ok(NameValue(n), i + |NameText(n)|)
    decreases |n|
  {
    hide NameRest, At, GlyphEnds, GlyphText, GlyphValue;
    if n == [] { NoMoreName(s, i); }
    else {
      AtSplit(s, i, GlyphText(n[0]), NameText(n[1..]));
      GlyphReads(s, i, n[0]);
      NameRestReads(s, i + |GlyphText(n[0])|, n[1..]);
    }
  }

  lemma NoMoreName(s: string, i: nat)
    requires At(s, i, "") && NameOk([], CharAt(s, i))
    ensures i <= |s| && NameRest(s, i) == Ok("", i)
  {
  }

  lemma {:induction false} NameRestFound(s: string, i: nat) returns (n: seq<Glyph>)
    requires i <= |s| && NameRest(s, i).Ok?
    ensures At(s, i, NameText(n)) && NameOk(n, CharAt(s, i + |NameText(n)|))
    ensures NameRest(s, i) == Ok(NameValue(n), i + |NameText(n)|)
    ensures i < |s| && NameChar(s[i]) ==> n != [] && n[0] == Bare(s[i])
    decreases |s| - i
  {
    hide Escape, At, GlyphEnds, GlyphText, GlyphValue;
    var g := GlyphFound(s, i);
    if g.None? { n := NoName(s, i); }
    else {
      var m := NameRestFound(s, i + |GlyphText(g.value)|);
      n := NameMore(s, i, g.value, m);
    }
  }

  lemma NoName(s: string, i: nat) returns (n: seq<Glyph>)
    requires NameOk([], CharAt(s, i)) && i <= |s|
    ensures n == [] && At(s, i, NameText(n)) && NameText(n) == ""
  {
    n := [];
  }

  lemma NameMore(s: string, i: nat, g: Glyph, m: seq<Glyph>) returns (n: seq<Glyph>)
    requires At(s, i, GlyphText(g)) && GlyphEnds(g, CharAt(s, i + |GlyphText(g)|))
    requires At(s, i + |GlyphText(g)|, NameText(m)) && NameOk(m, CharAt(s, i + |GlyphText(g)| + |NameText(m)|))
    ensures n == [g] + m && At(s, i, NameText(n)) && NameOk(n, CharAt(s, i + |NameText(n)|))
    ensures |NameText(n)| == |GlyphText(g)| + |NameText(m)| && NameValue(n) == GlyphValue(g) + NameValue(m)
  {
    hide At, GlyphEnds, GlyphText, GlyphValue;
    n := [g] + m;
    assert n[1..] == m;
    AtJoin(s, i, GlyphText(g), NameText(m));
  }

  /** The next character of a name, or none where no name goes on. */
  lemma GlyphFound(s: string, i: nat) returns (g: Option<Glyph>)
    requires i <= |s| && NameRest(s, i).Ok?
    ensures g.None? ==> NameOk([], CharAt(s, i)) && NameRest(s, i) == Ok("", i)
    ensures g.Some? ==>
      && At(s, i, GlyphText(g.value)) && GlyphEnds(g.value, CharAt(s, i + |GlyphText(g.value)|))
      && i < i + |GlyphText(g.value)| <= |s| && NameRest(s, i + |GlyphText(g.value)|).Ok?
      && NameRest(s, i) == Prepend(GlyphValue(g.value), NameRest(s, i + |GlyphText(g.value)|))
    ensures i < |s| && NameChar(s[i]) ==> g == Some(Bare(s[i]))
  {
    hide Escape, GlyphEnds, NameStart, At, HexText;
    g := None;
    if i < |s| && NameChar(s[i]) {
      g := Some(Bare(s[i]));
      AtChar(s, i, s[i]);
      BareEnds(g.value, CharAt(s, i + 1));
    } else if i < |s| && s[i] == '\\' {
      var e := EscapeFound(s, i);
      g := Some(e);
    }
  }

  lemma BareEnds(g: Glyph, c: Option<char>)
    requires g.Bare?
    ensures GlyphEnds(g, c)
  {}

  /** A name reads as its characters. */
  lemma NameReads(s: string, i: nat, n: seq<Glyph>)
    requires n != [] && At(s, i, NameText(n)) && NameOk(n, CharAt(s, i + |NameText(n)|))
    ensures Name(s, i) == Ok(NameValue(n), i + |NameText(n)|)
  {
    hide NameRest, At, NameOk;
    NameRestReads(s, i, n);
    SomeValue(n[0]);
  }

  lemma SomeValue(g: Glyph)
    ensures GlyphValue(g) != ""
  {
    if g.Hex? { HexLength(g.digits); }
  }

  /** What is read as a name is one. */
  lemma NameFound(s: string, i: nat) returns (n: seq<Glyph>)
    requires i <= |s| && Name(s, i).Ok?
    ensures n != [] && At(s, i, NameText(n)) && NameOk(n, CharAt(s, i + |NameText(n)|))
    ensures Name(s, i) == Ok(NameValue(n), i + |NameText(n)|)
    ensures i < |s| && NameChar(s[i]) ==> n[0] == Bare(s[i])
  {
    hide NameRest, NameOk;
    n := NameRestFound(s, i);
  }

  // ---------------------------------------------------------------------------------------
  // Identifiers

  datatype Ident = Ident(dash: bool, name: seq<Glyph>)

  predicate IdentOk(n: Ident, c: Option<char>) {
    n.name != [] && (n.name[0].Bare? ==> NameStart(n.name[0].c)) && NameOk(n.name, c)
  }

  function IdentText(n: Ident): (t: string)
    ensures n.name != [] ==> |t| > 0
  {
    (if n.dash then "-" else "") + NameText(n.name)
  }

  function IdentValue(n: Ident): string { (if n.dash then "-" else "") + NameValue(n.name) }

  predicate StartsIdent(c: char) { c == '-' || c == '\\' || NameStart(c) }

  lemma IdentStarts(n: Ident, c: Option<char>)
    requires IdentOk(n, c)
    ensures IdentText(n) != "" && StartsIdent(IdentText(n)[0])
    ensures var t := NameText(n.name); t != "" && (t[0] == '\\' || NameStart(t[0])) && t[0] != '-'
  {
    hide NameOk;
    var g, d := n.name[0], if n.dash then "-" else "";
    assert NameText(n.name)[0] == GlyphText(g)[0];
    assert IdentText(n)[0] == if n.dash then '-' else NameText(n.name)[0];
  }

  /** An identifier reads as its characters. */
  lemma IdentReads(s: string, i: nat, n: Ident)
    requires At(s, i, IdentText(n)) && IdentOk(n, CharAt(s, i + |IdentText(n)|))
    ensures Identifier(s, i) == Ok(IdentValue(n), i + |IdentText(n)|)
    ensures i < |s| && StartsIdent(s[i])
  {
    hide Name, At, NameOk, NameStart, NameText, NameValue;
    var d, t := if n.dash then "-" else "", NameText(n.name);
    AtSplit(s, i, d, t);
    IdentStarts(n, CharAt(s, i + |IdentText(n)|));
    AtIndex(s, i, IdentText(n), 0);
    AtIndex(s, i + |d|, t, 0);
    NameReads(s, i + |d|, n.name);
  }

  /** What is read as an identifier is one. */
  lemma IdentFound(s: string, i: nat) returns (n: Ident)
    requires i <= |s| && Identifier(s, i).Ok?
    ensures At(s, i, IdentText(n)) && IdentOk(n, CharAt(s, i + |IdentText(n)|))
    ensures Identifier(s, i) == Ok(IdentValue(n), i + |IdentText(n)|)
  {
    hide Name, NameOk, NameText, NameValue;
    var dash := i < |s| && s[i] == '-';
    var d := if dash then "-" else "";
    var name := NameFound(s, i + |d|);
    n := Ident(dash, name);
    BareAt(s, i + |d|, name);
    AtJoin(s, i, d, NameText(name));
  }

  lemma BareAt(s: string, i: nat, n: seq<Glyph>)
    requires n != [] && At(s, i, NameText(n))
    ensures i < |s| && (n[0].Bare? ==> s[i] == n[0].c)
  {
    AtIndex(s, i, NameText(n), 0);
    assert NameText(n)[0] == GlyphText(n[0])[0];
  }

  // ---------------------------------------------------------------------------------------
  // Strings

  /** A character, an escape, or a line end behind a backslash, which stands for nothing. */
  datatype Piece = Raw(c: char) | Escaped(glyph: Glyph) | Joined(newline: string)

  /** A piece of a string in these quotes, with `c` behind it. */
  predicate PieceOk(p: Piece, quote: char, c: char) {
    match p
    case Raw(r) => r != quote && r != '\\' && !Newline(r)
    case Escaped(g) => !g.Bare? && GlyphEnds(g, Some(c))
    case Joined(n) => n == "\r\n" || (|n| == 1 && Newline(n[0]) && (n == "\r" ==> c != '\n'))
  }

  function PieceText(p: Piece): string {
    match p
    case Raw(r) => [r]
    case Escaped(g) => GlyphText(g)
    case Joined(n) => "\\" + n
  }

  function PieceValue(p: Piece): string {
    match p
    case Raw(r) => [r]
    case Escaped(g) => GlyphValue(g)
    case Joined(_) => ""
  }

  /** The text of a string from some piece on. */
  function BodyText(b: seq<Piece>, quote: char): (t: string)
    ensures |t| > 0
  {
    if b == [] then [quote] else PieceText(b[0]) + BodyText(b[1..], quote)
  }

  function BodyValue(b: seq<Piece>): string {
    if b == [] then "" else PieceValue(b[0]) + BodyValue(b[1..])
  }

  predicate BodyOk(b: seq<Piece>, quote: char) {
    b == [] || (PieceOk(b[0], quote, BodyText(b[1..], quote)[0]) && BodyOk(b[1..], quote))
  }

  lemma PieceReads(s: string, i: nat, p: Piece, quote: char)
    requires At(s, i, PieceText(p)) && i + |PieceText(p)| < |s| && PieceOk(p, quote, s[i + |PieceText(p)|]) && quote != '\\'
    ensures StringRest(s, i, quote) == Prepend(PieceValue(p), StringRest(s, i + |PieceText(p)|, quote))
  {
    hide GlyphEnds, Escape, At;
    var t := PieceText(p);
    AtIndex(s, i, t, 0);
    match p
    case Raw(_) =>
    case Escaped(g) =>
      EscapeReads(s, i, g);
      EscapeStarts(s, i);
    case Joined(n) =>
      AtIndex(s, i, t, 1);
      if |n| == 2 { AtIndex(s, i, t, 2); }
      PrependNone(StringRest(s, i + |t|, quote));
  }

  lemma EscapeStarts(s: string, i: nat)
    requires Escape(s, i).Ok?
    ensures i + 1 < |s| && !Newline(s[i + 1])
  {}

  lemma PrependNone(r: Parse<string>)
    ensures Prepend("", r) == r
  {
    assert r.Ok? ==> "" + r.value == r.value;
  }

  lemma {:induction false} BodyReads(s: string, i: nat, b: seq<Piece>, quote: char)
    requires At(s, i, BodyText(b, quote)) && BodyOk(b, quote) && quote != '\\'
    ensures i < |s| && StringRest(s, i, quote) == Ok(BodyValue(b), i + |BodyText(b, quote)|)
    decreases |b|
  {
    hide StringRest, At, PieceText, PieceOk, PieceValue;
    if b == [] { ClosingQuote(s, i, quote); }
    else {
      AtSplit(s, i, PieceText(b[0]), BodyText(b[1..], quote));
      PieceReads(s, i, b[0], quote);
      BodyReads(s, i + |PieceText(b[0])|, b[1..], quote);
    }
  }

  lemma ClosingQuote(s: string, i: nat, quote: char)
    requires At(s, i, [quote]) && quote != '\\'
    ensures i < |s| && StringRest(s, i, quote) == Ok("", i + 1)
  {
    AtIndex(s, i, [quote], 0);
  }

  lemma {:induction false} BodyFound(s: string, i: nat, quote: char) returns (b: seq<Piece>)
    requires i <= |s| && StringRest(s, i, quote).Ok? && quote != '\\'
    ensures At(s, i, BodyText(b, quote)) && BodyOk(b, quote)
    ensures StringRest(s, i, quote) == Ok(BodyValue(b), i + |BodyText(b, quote)|)
    decreases |s| - i
  {
    hide StringRest, At, PieceText, PieceOk, PieceValue;
    var p := PieceFound(s, i, quote);
    if p.None? {
      b := [];
      AtChar(s, i, quote);
    } else {
      var r := BodyFound(s, i + |PieceText(p.value)|, quote);
      b := [p.value] + r;
      assert b[1..] == r;
      AtJoin(s, i, PieceText(p.value), BodyText(r, quote));
    }
  }

  /** The next piece of a string, or none at the closing quote. */
  lemma PieceFound(s: string, i: nat, quote: char) returns (p: Option<Piece>)
    requires i <= |s| && StringRest(s, i, quote).Ok? && quote != '\\'
    ensures p.None? ==> CharAt(s, i) == Some(quote) && StringRest(s, i, quote) == Ok("", i + 1)
    ensures p.Some? ==>
      && At(s, i, PieceText(p.value)) && i < i + |PieceText(p.value)| < |s|
      && PieceOk(p.value, quote, s[i + |PieceText(p.value)|]) && StringRest(s, i + |PieceText(p.value)|, quote).Ok?
      && StringRest(s, i, quote) == Prepend(PieceValue(p.value), StringRest(s, i + |PieceText(p.value)|, quote))
  {
    hide Escape, GlyphEnds, GlyphText, GlyphValue, At;
    if s[i] == quote { p := None; }
    else if s[i] != '\\' {
      p := Some(Raw(s[i]));
      AtChar(s, i, s[i]);
    } else if i + 1 < |s| && Newline(s[i + 1]) {
      var n := JoinFound(s, i, quote);
      p := Some(Joined(n));
    } else {
      var g := EscapeFound(s, i);
      p := Some(Escaped(g));
    }
  }

  lemma JoinFound(s: string, i: nat, quote: char) returns (n: string)
    requires i + 1 < |s| && s[i] == '\\' && Newline(s[i + 1]) && StringRest(s, i, quote).Ok?
    ensures At(s, i, "\\" + n) && i + 1 + |n| < |s| && PieceOk(Joined(n), quote, s[i + 1 + |n|])
    ensures StringRest(s, i, quote) == Prepend("", StringRest(s, i + 1 + |n|, quote))
  {
    hide Escape, GlyphEnds;
    PrependNone(StringRest(s, i + 2, quote));
    if i + 2 < |s| && s[i + 1] == '\r' && s[i + 2] == '\n' {
      PrependNone(StringRest(s, i + 3, quote));
      n := "\r\n";
    } else {
      n := [s[i + 1]];
    }
  }

  // ---------------------------------------------------------------------------------------
  // Values

  /** A string in either quotes, or an identifier. */
  datatype Literal = Quoted(quote: char, body: seq<Piece>) | Word(word: Ident)

  predicate LiteralOk(v: Literal, c: Option<char>) {
    match v
    case Quoted(quote, body) => (quote == '"' || quote == '\'') && BodyOk(body, quote)
    case Word(word) => IdentOk(word, c)
  }

  function LiteralText(v: Literal): string {
    match v
    case Quoted(quote, body) => [quote] + BodyText(body, quote)
    case Word(word) => IdentText(word)
  }

  function LiteralValue(v: Literal): string {
    match v
    case Quoted(_, body) => BodyValue(body)
    case Word(word) => IdentValue(word)
  }

  /** A value reads as its characters, quoted either way or not at all. */
  lemma ValueReads(s: string, i: nat, v: Literal)
    requires At(s, i, LiteralText(v)) && LiteralOk(v, CharAt(s, i + |LiteralText(v)|))
    ensures i < |s| && Value(s, i) == Ok(LiteralValue(v), i + |LiteralText(v)|) && Solid(CharAt(s, i))
  {
    hide StringRest, Identifier, At, IdentOk, BodyOk;
    match v
    case Quoted(quote, body) =>
      AtSplit(s, i, [quote], BodyText(body, quote));
      AtIndex(s, i, [quote], 0);
      BodyReads(s, i + 1, body, quote);
    case Word(word) =>
      IdentReads(s, i, word);
  }

  /** What is read as a value is one. */
  lemma ValueFound(s: string, i: nat) returns (v: Literal)
    requires i < |s| && Value(s, i).Ok?
    ensures At(s, i, LiteralText(v)) && LiteralOk(v, CharAt(s, i + |LiteralText(v)|))
    ensures Value(s, i) == Ok(LiteralValue(v), i + |LiteralText(v)|)
  {
    hide StringRest, Identifier, IdentOk, BodyOk, BodyText, IdentText;
    if s[i] == '\'' || s[i] == '"' {
      var b := BodyFound(s, i + 1, s[i]);
      v := Quoted(s[i], b);
      AtChar(s, i, s[i]);
      AtJoin(s, i, [s[i]], BodyText(b, s[i]));
    } else {
      var w := IdentFound(s, i);
      v := Word(w);
    }
  }

  // ---------------------------------------------------------------------------------------
  // Every name and every string can be written

  /** Behind a backslash, digits and line ends by their code; hexadecimal letters stay as they are. */
  function SpellChar(c: char): Glyph {
    if '0' <= c <= '9' then Hex(['3', c], " ")
    else if c == '\r' then Hex("0d", " ")
    else if c == '\n' then Hex("0a", " ")
    else if c == '\U{000C}' then Hex("0c", " ")
    else if HexDigit(c) then Bare(c)
    else Slash(c)
  }

  lemma CharSpelled(c: char, next: Option<char>)
    ensures var g := SpellChar(c); GlyphValue(g) == [c] && GlyphEnds(g, next) && (g.Bare? <==> HexDigit(c) && !('0' <= c <= '9'))
  {
    var g := SpellChar(c);
    if g.Hex? { HexTextIs(g.digits); HexTextIs(g.digits[2..]); }
  }

  function SpellRest(n: string): seq<Glyph> {
    if n == "" then [] else [if NameChar(n[0]) && n[0] as int <= 127 then Bare(n[0]) else SpellChar(n[0])] + SpellRest(n[1..])
  }

  function SpellIdent(n: string): Ident
    requires n != ""
  {
    Ident(false, [if NameStart(n[0]) && n[0] as int <= 127 then Bare(n[0]) else SpellChar(n[0])] + SpellRest(n[1..]))
  }

  lemma SpelledMore(g: Glyph, h: char, m: seq<Glyph>, c: Option<char>)
    requires NameOk(m, c) && (g == Bare(h) || g == SpellChar(h))
    ensures NameOk([g] + m, c) && NameValue([g] + m) == [h] + NameValue(m)
  {
    hide GlyphEnds, SpellChar, NameText;
    var r := [g] + m;
    assert r[1..] == m;
    if g == SpellChar(h) { CharSpelled(h, Head(NameText(m), c)); } else { BareEnds(g, Head(NameText(m), c)); }
  }

  lemma {:induction false} RestSpelled(n: string, c: Option<char>)
    requires NameOk([], c)
    ensures NameOk(SpellRest(n), c) && NameValue(SpellRest(n)) == n
    decreases |n|
  {
    if n != "" {
      RestSpelled(n[1..], c);
      SpelledMore(SpellRest(n)[0], n[0], SpellRest(n[1..]), c);
      assert n == [n[0]] + n[1..];
    }
  }

  lemma IdentSpelled(n: string, c: Option<char>)
    requires n != "" && NameOk([], c)
    ensures IdentOk(SpellIdent(n), c) && IdentValue(SpellIdent(n)) == n
  {
    hide NameOk, NameValue, SpellRest;
    var g := SpellIdent(n).name[0];
    RestSpelled(n[1..], c);
    SpelledMore(g, n[0], SpellRest(n[1..]), c);
    CharSpelled(n[0], c);
    assert n == [n[0]] + n[1..];
    assert "" + n == n;
  }

  function SpellBody(v: string): seq<Piece> {
    if v == "" then []
    else [if v[0] == '"' || v[0] == '\\' || Newline(v[0]) then Escaped(SpellChar(v[0])) else Raw(v[0])] + SpellBody(v[1..])
  }

  lemma {:induction false} BodySpelled(v: string)
    ensures LiteralOk(Quoted('"', SpellBody(v)), None) && BodyValue(SpellBody(v)) == v
    decreases |v|
  {
    hide GlyphEnds, GlyphValue, SpellChar;
    if v != "" {
      BodySpelled(v[1..]);
      var b := SpellBody(v);
      assert b[1..] == SpellBody(v[1..]);
      CharSpelled(v[0], Some(BodyText(b[1..], '"')[0]));
      assert v == [v[0]] + v[1..];
    }
  }
}
