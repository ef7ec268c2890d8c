/** The UTF-8 iterator: decoding, newline folding, replacement of forbidden code points and
    position tracking. */
module InputIterator {
  import opened Utf8

  const CR: int := 13
  const LF: int := 10
  const TAB: int := 9
  const EOF: int := -1

  /** `utf8_is_invalid_code_point`. */
  predicate Forbidden(c: int) {
    || 0x1 <= c <= 0x8 || c == 0xB || 0xE <= c <= 0x1F || 0x7F <= c <= 0x9F || 0xFDD0 <= c <= 0xFDEF
    || c % 0x10000 == 0xFFFE || c % 0x10000 == 0xFFFF
  }

  function Replaced(c: int): int { if Forbidden(c) then REPLACEMENT else c }

  /** What `read_char` finds at a cursor: whether it first steps over a CR, the code point it
      delivers (-1 at the end) and the width in bytes. */
  datatype Reading = Reading(skip: nat, current: int, width: nat)

  function ReadAt(bytes: seq<Byte>, i: nat): (r: Reading) {
    if i >= |bytes| then Reading(0, EOF, 0)
    else
      var raw := ReadRaw(bytes, i);
      if raw.codePoint == CR then
        Reading(if i + 1 < |bytes| && bytes[i + 1] == LF then 1 else 0, LF, raw.width)
      else Reading(0, Replaced(raw.codePoint), raw.width)
  }

  /** The code points delivered from a cursor on, by `next` until -1. */
  function Delivered(bytes: seq<Byte>, i: nat): (r: seq<int>)
    decreases |bytes| - i
  {
    if i >= |bytes| then []
    else
      ReadRawAgrees(bytes, i);
      var r := ReadAt(bytes, i);
      [r.current] + Delivered(bytes, i + r.skip + r.width)
  }

  // ---------------------------------------------------------------------------------------
  // The input stream the standards prescribe

  /** CR LF and lone CR become LF. */
  function Newlines(s: seq<int>): (r: seq<int>) {
    if s == [] then []
    else if s[0] != CR then [s[0]] + Newlines(s[1..])
    else if |s| > 1 && s[1] == LF then Newlines(s[1..])
    else [LF] + Newlines(s[1..])
  }

  function Sanitized(s: seq<int>): (r: seq<int>)
    ensures |r| == |s|
  {
    seq(|s|, i requires 0 <= i < |s| => Replaced(s[i]))
  }

  function InputStream(bytes: seq<Byte>): seq<int> { Sanitized(Newlines(Utf8Decode(bytes))) }

  // ---------------------------------------------------------------------------------------
  // Code points below 128 are single bytes

  /** A partial code point of the automaton is large enough that it cannot end below 128. */
  ghost predicate Started(state: nat, codePoint: int) {
    match state
    case 24 => 2 <= codePoint
    case 36 => 1 <= codePoint
    case 48 => 0 <= codePoint
    case 60 => 1 <= codePoint
    case 72 => 0 <= codePoint
    case 84 => 1 <= codePoint
    case 96 => 1 <= codePoint
    case _ => false
  }

  lemma StartedStep(state: nat, codePoint: int, b: Byte)
    requires Live(state) && Started(state, codePoint)
    ensures var state', codePoint' := NextState(state, b), NextCodePoint(state, codePoint, b);
            if state' == ACCEPT then codePoint' >= 128 else state' == REJECT || (Live(state') && Started(state', codePoint'))
  {
    LaterByte(state, b);
  }

  lemma StartedFirst(b: Byte)
    ensures var state', codePoint' := NextState(ACCEPT, b), NextCodePoint(ACCEPT, 0, b);
            if state' == ACCEPT then codePoint' == b < 128 else state' == REJECT || (Live(state') && Started(state', codePoint'))
  {
    FirstByte(b);
  }

  lemma {:induction false} ScanLarge(bytes: seq<Byte>, start: nat, c: nat, state: nat, codePoint: int)
    requires start <= c <= |bytes| && Live(state) && Started(state, codePoint)
    ensures Scan(bytes, start, c, state, codePoint).codePoint >= 128
    decreases |bytes| - c
  {
    if c < |bytes| {
      StartedStep(state, codePoint, bytes[c]);
      var state', codePoint' := NextState(state, bytes[c]), NextCodePoint(state, codePoint, bytes[c]);
      if state' != ACCEPT && state' != REJECT { ScanLarge(bytes, start, c + 1, state', codePoint'); }
    }
  }

  /** An ASCII byte reads as itself, and nothing else reads as ASCII. */
  lemma ReadAscii(bytes: seq<Byte>, i: nat)
    requires i < |bytes|
    ensures if bytes[i] < 128 then ReadRaw(bytes, i) == Raw(bytes[i], 1) else ReadRaw(bytes, i).codePoint >= 128
  {
    StartedFirst(bytes[i]);
    var state', codePoint' := NextState(ACCEPT, bytes[i]), NextCodePoint(ACCEPT, 0, bytes[i]);
    if state' != ACCEPT && state' != REJECT { ScanLarge(bytes, i, i + 1, state', codePoint'); }
  }

  // ---------------------------------------------------------------------------------------
  // Agreement

  lemma SanitizedCons(x: int, s: seq<int>)
    ensures Sanitized([x] + s) == [Replaced(x)] + Sanitized(s)
  {
  }

  lemma NewlinesCons(x: int, s: seq<int>)
    ensures Newlines([x] + s) ==
            if x != CR then [x] + Newlines(s)
            else if s != [] && s[0] == LF then Newlines(s) else [LF] + Newlines(s)
  {
    assert ([x] + s)[1..] == s;
  }

  lemma DecodedHead(bytes: seq<Byte>, i: nat)
    requires i <= |bytes|
    ensures i == |bytes| ==> Utf8Decode(bytes[i..]) == []
    ensures i < |bytes| ==> Utf8Decode(bytes[i..]) != [] && (Utf8Decode(bytes[i..])[0] == LF <==> bytes[i] == LF)
  {
    if i < |bytes| {
      ReadRawAgrees(bytes, i);
      ReadAscii(bytes, i);
    }
  }

  lemma NothingToDeliver()
    ensures InputStream([]) == []
  {}

  /** A CR before an LF disappears into it. */
  lemma CrLfDelivered(bytes: seq<Byte>, i: nat)
    requires i < |bytes| && ReadAt(bytes, i).skip == 1
    ensures var r := ReadAt(bytes, i);
            i + 2 <= |bytes| && r.width == 1 && InputStream(bytes[i..]) == [r.current] + InputStream(bytes[i + 2..])
  {
    hide ReadRaw, Decode, Newlines, Sanitized, Utf8Decode;
    ReadRawAgrees(bytes, i);
    ReadAscii(bytes, i);
    ReadRawAgrees(bytes, i + 1);
    ReadAscii(bytes, i + 1);
    var rest := Utf8Decode(bytes[i + 2..]);
    assert Utf8Decode(bytes[i + 1..]) == [LF] + rest;
    NewlinesCons(CR, [LF] + rest);
    NewlinesCons(LF, rest);
    SanitizedCons(LF, Newlines(rest));
  }

  lemma PlainDelivered(bytes: seq<Byte>, i: nat)
    requires i < |bytes| && ReadAt(bytes, i).skip == 0
    ensures var r := ReadAt(bytes, i);
            i + r.width <= |bytes| && 0 < r.width && InputStream(bytes[i..]) == [r.current] + InputStream(bytes[i + r.width..])
  {
    hide ReadRaw, Decode, Newlines, Sanitized, Utf8Decode;
    var raw := ReadRaw(bytes, i);
    ReadRawAgrees(bytes, i);
    ReadAscii(bytes, i);
    var rest := Utf8Decode(bytes[i + raw.width..]);
    DecodedHead(bytes, i + raw.width);
    NewlinesCons(raw.codePoint, rest);
    SanitizedCons(if raw.codePoint == CR then LF else raw.codePoint, Newlines(rest));
  }

  lemma SkipAtMostOne(bytes: seq<Byte>, i: nat)
    ensures ReadAt(bytes, i).skip <= 1
  {}

  /** For every byte string, what the iterator delivers is the standard's input stream: decoded
      with one U+FFFD for each maximal bad prefix, newlines folded, forbidden code points
      replaced. */
  lemma {:induction false} DeliveredIsInputStream(bytes: seq<Byte>, i: nat)
    requires i <= |bytes|
    ensures Delivered(bytes, i) == InputStream(bytes[i..])
    decreases |bytes| - i
  {
    hide ReadRaw, ReadAt, InputStream;
    if i == |bytes| {
      assert bytes[i..] == [];
      NothingToDeliver();
    } else {
      SkipAtMostOne(bytes, i);
      var r := ReadAt(bytes, i);
      if r.skip == 1 { CrLfDelivered(bytes, i); } else { PlainDelivered(bytes, i); }
      DeliveredIsInputStream(bytes, i + r.skip + r.width);
    }
  }

  /** Reading again where a reading left the cursor finds the same character, without another
      step over a CR. */
  lemma ReadAgain(bytes: seq<Byte>, i: nat)
    ensures var r := ReadAt(bytes, i); ReadAt(bytes, i + r.skip) == Reading(0, r.current, r.width)
    ensures var r := ReadAt(bytes, i); i < |bytes| ==> 0 < r.width && i + r.skip + r.width <= |bytes|
  {
    if i < |bytes| {
      ReadRawAgrees(bytes, i);
      ReadAscii(bytes, i);
      if ReadAt(bytes, i).skip == 1 { ReadAscii(bytes, i + 1); }
    }
  }

  // ---------------------------------------------------------------------------------------
  // The iterator object

  datatype Position = Position(line: nat, column: nat, offset: nat)

  /** `update_position`: the position behind a character of the given width. */
  function Advance(p: Position, current: int, width: nat, tabStop: nat): Position
    requires tabStop > 0
  {
    var offset := p.offset + width;
    if current == LF then Position(p.line + 1, 1, offset)
    else if current == TAB then Position(p.line, (p.column / tabStop + 1) * tabStop, offset)
    else if current != EOF then Position(p.line, p.column + 1, offset)
    else p.(offset := offset)
  }

  /** Everything a caller can observe. */
  datatype View = View(start: nat, current: int, width: nat, pos: Position)

  /** The view once `read_char` has run at a cursor with a position. */
  function ViewAt(bytes: seq<Byte>, start: nat, pos: Position): View {
    var r := ReadAt(bytes, start);
    View(start + r.skip, r.current, r.width, pos.(offset := pos.offset + r.skip))
  }

  /** `utf8iterator_next`, on views. */
  function NextView(bytes: seq<Byte>, v: View, tabStop: nat): View
    requires tabStop > 0
  {
    ViewAt(bytes, v.start + v.width, Advance(v.pos, v.current, v.width, tabStop))
  }

  /** A view whose position counts the bytes before the cursor and whose reading is repeatable. */
  ghost predicate Sound(bytes: seq<Byte>, v: View) {
    && v.start <= |bytes| && v.pos.offset == v.start && v.start + v.width <= |bytes|
    && ReadAt(bytes, v.start) == Reading(0, v.current, v.width)
    && (v.current == EOF <==> v.start == |bytes|)
  }

  lemma ReadingAtEnd(bytes: seq<Byte>, i: nat)
    requires i <= |bytes|
    ensures ReadAt(bytes, i).current == EOF <==> i == |bytes|
  {
    if i < |bytes| { RawNonNegative(bytes, i, i, ACCEPT, 0); }
  }

  lemma {:induction false} RawNonNegative(bytes: seq<Byte>, start: nat, c: nat, state: nat, codePoint: int)
    requires start <= c <= |bytes| && codePoint >= 0
    ensures Scan(bytes, start, c, state, codePoint).codePoint >= 0
    decreases |bytes| - c
  {
    if c < |bytes| {
      var state', codePoint' := NextState(state, bytes[c]), NextCodePoint(state, codePoint, bytes[c]);
      assert codePoint' >= 0;
      if state' != ACCEPT && state' != REJECT { RawNonNegative(bytes, start, c + 1, state', codePoint'); }
    }
  }

  lemma ViewAtSound(bytes: seq<Byte>, start: nat, pos: Position)
    requires start <= |bytes| && pos.offset == start
    ensures Sound(bytes, ViewAt(bytes, start, pos))
  {
    ReadAgain(bytes, start);
    ReadingAtEnd(bytes, start);
    ReadingAtEnd(bytes, ViewAt(bytes, start, pos).start);
  }

  /** Every step keeps the view sound and, before the end, consumes at least one byte. */
  lemma NextSound(bytes: seq<Byte>, v: View, tabStop: nat)
    requires Sound(bytes, v) && tabStop > 0
    ensures Sound(bytes, NextView(bytes, v, tabStop))
    ensures v.current != EOF ==> v.start < NextView(bytes, v, tabStop).start <= |bytes|
  {
    ReadAgain(bytes, v.start);
    ViewAtSound(bytes, v.start + v.width, Advance(v.pos, v.current, v.width, tabStop));
  }

  /** Reading again at a sound view's cursor restores the view. */
  lemma SoundRereads(bytes: seq<Byte>, v: View)
    requires Sound(bytes, v)
    ensures ViewAt(bytes, v.start, v.pos) == v
  {
  }

  /** Where a code point sequence is at an index; -1 behind its end. */
  function CodePointAt(s: seq<int>, i: nat): int { if i < |s| then s[i] else EOF }

  /** From byte `p` on, what is delivered is the input stream from index `i` on. */
  ghost predicate StandsAt(bytes: seq<Byte>, p: nat, i: nat) {
    i <= |InputStream(bytes)| && p <= |bytes| && Delivered(bytes, p) == InputStream(bytes)[i..]
  }

  lemma StandsAtStart(bytes: seq<Byte>)
    ensures StandsAt(bytes, 0, 0)
  {
    assert bytes[0..] == bytes;
    DeliveredIsInputStream(bytes, 0);
  }

  /** A sound view at index `i` shows code point `i`, and is at the end only there. */
  lemma ShowsIndex(bytes: seq<Byte>, v: View, i: nat)
    requires Sound(bytes, v) && StandsAt(bytes, v.start, i)
    ensures v.current == CodePointAt(InputStream(bytes), i)
    ensures v.current == EOF <==> i == |InputStream(bytes)|
  {
    hide InputStream, ReadAt;
    var s := InputStream(bytes);
    if v.current == EOF { NoMoreDelivered(bytes, v); }
    else {
      assert Delivered(bytes, v.start)[0] == v.current;
      assert s[i..][0] == s[i];
    }
  }

  lemma StandsInside(bytes: seq<Byte>, start: nat, i: nat)
    requires StandsAt(bytes, start, i)
    ensures i <= |InputStream(bytes)|
  {}

  /** A step moves to the next index, up to the end. */
  lemma NextIndex(bytes: seq<Byte>, v: View, tabStop: nat, i: nat)
    requires Sound(bytes, v) && StandsAt(bytes, v.start, i) && tabStop > 0
    ensures StandsAt(bytes, NextView(bytes, v, tabStop).start, if i < |InputStream(bytes)| then i + 1 else i)
  {
    hide InputStream, ReadAt, Delivered;
    var s := InputStream(bytes);
    NextSound(bytes, v, tabStop);
    ShowsIndex(bytes, v, i);
    if v.current != EOF {
      NextDelivers(bytes, v, tabStop);
      var rest := Delivered(bytes, NextView(bytes, v, tabStop).start);
      assert ([v.current] + rest)[1..] == rest;
      assert s[i..][1..] == s[i + 1..];
    } else {
      StaysAtEnd(bytes, v, tabStop);
    }
  }

  lemma StaysAtEnd(bytes: seq<Byte>, v: View, tabStop: nat)
    requires Sound(bytes, v) && v.current == EOF && tabStop > 0
    ensures NextView(bytes, v, tabStop) == v
  {
  }

  // ---------------------------------------------------------------------------------------
  // Lines and columns

  /** The line of index `i` starts at `k`. */
  ghost predicate LineStarts(s: seq<int>, i: nat, k: nat) {
    k <= i <= |s| && (k == 0 || s[k - 1] == LF) && forall j :: k <= j < i ==> s[j] != LF
  }

  /** One more than the newlines before an index. */
  ghost function Line(s: seq<int>, i: nat): nat
    requires i <= |s|
  {
    1 + multiset(s[..i])[LF]
  }

  function LastTab(t: seq<int>): (q: nat)
    requires TAB in t
    ensures q < |t| && t[q] == TAB && forall j :: q < j < |t| ==> t[j] != TAB
  {
    if t[|t| - 1] == TAB then |t| - 1 else LastTab(t[..|t| - 1])
  }

  /** The column behind the code points of a line: counted from 1, or from the tab stop that the last tab
      went to. */
  function Column(t: seq<int>, tabStop: nat): nat
    requires tabStop > 0
  {
    if TAB !in t then 1 + |t|
    else
      var q := LastTab(t);
      NextStop(Column(t[..q], tabStop), tabStop) + (|t| - q - 1)
  }

  /** The first multiple of the tab stop behind a column. */
  function NextStop(column: nat, tabStop: nat): (r: nat)
    requires tabStop > 0
    ensures r == (column / tabStop + 1) * tabStop && column < r <= column + tabStop
  {
    (column / tabStop + 1) * tabStop
  }

  /** A position says the line and column of an index. */
  ghost predicate Locates(s: seq<int>, i: nat, pos: Position, tabStop: nat) {
    && i <= |s| && tabStop > 0 && pos.line == Line(s, i)
    && exists k: nat :: LineStarts(s, i, k) && pos.column == Column(s[k..i], tabStop)
  }

  lemma LineStep(s: seq<int>, i: nat)
    requires i < |s|
    ensures Line(s, i + 1) == Line(s, i) + if s[i] == LF then 1 else 0
  {
    assert s[..i + 1] == s[..i] + [s[i]];
  }

  lemma ColumnStep(t: seq<int>, c: int, tabStop: nat)
    requires tabStop > 0
    ensures Column(t + [c], tabStop) == if c == TAB then NextStop(Column(t, tabStop), tabStop) else Column(t, tabStop) + 1
  {
    hide LastTab, NextStop;
    var u := t + [c];
    if c == TAB {
      assert u[|t|] == TAB;
      assert LastTab(u) == |t| && u[..|t|] == t;
    } else if TAB in t {
      var q := LastTab(t);
      assert u[q] == TAB;
      assert LastTab(u) == q && u[..q] == t[..q];
    }
  }

  /** `update_position` moves from the place of an index to that of the next. */
  lemma AdvanceLocates(s: seq<int>, i: nat, pos: Position, width: nat, tabStop: nat)
    requires Locates(s, i, pos, tabStop) && i < |s| && s[i] != EOF
    ensures Locates(s, i + 1, Advance(pos, s[i], width, tabStop), tabStop)
  {
    hide Column, Line;
    var k: nat :| LineStarts(s, i, k) && pos.column == Column(s[k..i], tabStop);
    LineStep(s, i);
    if s[i] == LF {
      assert LineStarts(s, i + 1, i + 1);
      assert s[i + 1..i + 1] == [];
      ColumnOne(tabStop);
    } else {
      ColumnStep(s[k..i], s[i], tabStop);
      assert s[k..i + 1] == s[k..i] + [s[i]];
      assert LineStarts(s, i + 1, k);
    }
  }

  lemma ColumnOne(tabStop: nat)
    requires tabStop > 0
    ensures Column([], tabStop) == 1
  {}

  lemma StartLocates(s: seq<int>, tabStop: nat, offset: nat)
    requires tabStop > 0
    ensures Locates(s, 0, Position(1, 1, offset), tabStop)
  {
    assert s[..0] == [];
    assert LineStarts(s, 0, 0) && s[0..0] == [];
  }

  /** The byte offset plays no part. */
  lemma SameLocates(s: seq<int>, i: nat, pos: Position, offset: nat, tabStop: nat)
    requires Locates(s, i, pos, tabStop)
    ensures Locates(s, i, pos.(offset := offset), tabStop)
  {}

  /** A step of the view moves its position with the index. */
  lemma NextLocates(bytes: seq<Byte>, v: View, tabStop: nat, i: nat)
    requires Sound(bytes, v) && StandsAt(bytes, v.start, i) && Locates(InputStream(bytes), i, v.pos, tabStop) && tabStop > 0
    ensures Locates(InputStream(bytes), if i < |InputStream(bytes)| then i + 1 else i, NextView(bytes, v, tabStop).pos, tabStop)
  {
    hide InputStream, ReadAt, Delivered, Locates, StandsAt;
    var s, r := InputStream(bytes), ReadAt(bytes, v.start + v.width);
    ShowsIndex(bytes, v, i);
    if v.current != EOF {
      AdvanceLocates(s, i, v.pos, v.width, tabStop);
      SameLocates(s, i + 1, Advance(v.pos, v.current, v.width, tabStop), v.pos.offset + v.width + r.skip, tabStop);
    } else {
      SameLocates(s, i, v.pos, v.pos.offset + v.width + r.skip, tabStop);
    }
  }

  class Utf8Iterator {
    const bytes: seq<Byte>
    const tabStop: nat

    /** The indices, in the input stream, of the current and of the marked code point. */
    ghost var index: nat
    ghost var markIndex: nat

    var start: nat
    var current: int
    var width: nat
    var pos: Position
    var mark: nat
    var markPos: Position

    ghost function Now(): View
      reads this
    {
      View(start, current, width, pos)
    }

    /** The view the mark stands for. */
    ghost function Marked(): View
      reads this
    {
      ViewAt(bytes, mark, markPos)
    }

    ghost predicate Valid()
      reads this
    {
      && tabStop > 0 && Sound(bytes, Now()) && mark <= |bytes| && markPos.offset == mark
      && StandsAt(bytes, start, index) && StandsAt(bytes, mark, markIndex)
      && current == CodePointAt(InputStream(bytes), index)
      && Locates(InputStream(bytes), index, pos, tabStop) && Locates(InputStream(bytes), markIndex, markPos, tabStop)
    }

    constructor (bytes: seq<Byte>, tabStop: nat)
      requires tabStop > 0
      ensures Valid() && this.bytes == bytes && this.tabStop == tabStop
      ensures Now() == ViewAt(bytes, 0, Position(1, 1, 0)) && index == 0 && markIndex == 0
    {
      this.bytes, this.tabStop := bytes, tabStop;
      start, pos := 0, Position(1, 1, 0);
      mark, markPos := 0, Position(1, 1, 0);
      current, width := EOF, 0;
      index, markIndex := 0, 0;
      new;
      hide ReadAt, Delivered, InputStream, Locates;
      StartLocates(InputStream(bytes), tabStop, 0);
      SameLocates(InputStream(bytes), 0, pos, ReadAt(bytes, 0).skip, tabStop);
      ReadChar();
      ViewAtSound(bytes, 0, Position(1, 1, 0));
      StandsAtStart(bytes);
      SkipDelivers(bytes, 0);
      ShowsIndex(bytes, Now(), 0);
    }

    method ReadChar()
      requires start <= |bytes|
      modifies this`start, this`current, this`width, this`pos
      ensures Now() == ViewAt(bytes, old(start), old(pos))
    {
      if start >= |bytes| {
        current, width := EOF, 0;
        return;
      }
      var state, codePoint := ACCEPT, 0;
      var c := start;
      ReadAscii(bytes, start);
      while c < |bytes|
        invariant start == old(start) <= c <= |bytes| && pos == old(pos)
        invariant Scan(bytes, start, c, state, codePoint) == ReadRaw(bytes, start)
      {
        codePoint := NextCodePoint(state, codePoint, bytes[c]);
        state := NextState(state, bytes[c]);
        if state == ACCEPT {
          width := c - start + 1;
          if codePoint == CR {
            assert width == 1;
            if c + 1 < |bytes| && bytes[c + 1] == LF {
              start := start + 1;
              pos := pos.(offset := pos.offset + 1);
            }
            codePoint := LF;
          }
          if Forbidden(codePoint) {
            codePoint := REPLACEMENT;
          }
          current := codePoint;
          return;
        } else if state == REJECT {
          width := c - start + if c == start then 1 else 0;
          current := REPLACEMENT;
          return;
        }
        c := c + 1;
      }
      current := REPLACEMENT;
      width := |bytes| - start;
    }

    method UpdatePosition()
      requires tabStop > 0
      modifies this`pos
      ensures pos == Advance(old(pos), current, width, tabStop)
    {
      pos := pos.(offset := pos.offset + width);
      if current == LF {
        pos := pos.(line := pos.line + 1, column := 1);
      } else if current == TAB {
        pos := pos.(column := (pos.column / tabStop + 1) * tabStop);
      } else if current != EOF {
        pos := pos.(column := pos.column + 1);
      }
    }

    method Next()
      requires Valid()
      modifies this`start, this`current, this`width, this`pos, this`index
      ensures Valid() && Now() == NextView(bytes, old(Now()), tabStop)
      ensures old(current) != EOF ==> old(start) < start
      ensures index == if old(index) < |InputStream(bytes)| then old(index) + 1 else old(index)
    {
      hide ReadAt, Delivered, InputStream, StandsAt, Sound, Locates;
      NextSound(bytes, Now(), tabStop);
      NextLocates(bytes, Now(), tabStop, index);
      NextIndex(bytes, Now(), tabStop, index);
      ViewBounds(bytes, Now());
      index := if index < |InputStream(bytes)| then index + 1 else index;
      UpdatePosition();
      start := start + width;
      ReadChar();
      ShowsIndex(bytes, Now(), index);
    }

    method SetMark()
      requires Valid()
      modifies this`mark, this`markPos, this`markIndex
      ensures Valid() && Marked() == Now() && markIndex == index
    {
      hide ReadAt, Delivered, InputStream, Locates;
      mark, markPos := start, pos;
      markIndex := index;
      SoundRereads(bytes, Now());
    }

    method Reset()
      requires Valid()
      modifies this`start, this`current, this`width, this`pos, this`index
      ensures Valid() && Now() == old(Marked()) && index == old(markIndex)
    {
      hide ReadAt, Delivered, InputStream, Locates;
      SameLocates(InputStream(bytes), markIndex, markPos, markPos.offset + ReadAt(bytes, mark).skip, tabStop);
      start, pos := mark, markPos;
      ViewAtSound(bytes, mark, markPos);
      SkipDelivers(bytes, mark);
      ReadChar();
      index := markIndex;
      ShowsIndex(bytes, Now(), index);
    }

    /** A mark, any number of steps and a reset change nothing a caller can observe. */
    method MarkStepReset(steps: nat)
      requires Valid()
      modifies this
      ensures Valid() && Now() == old(Now()) && index == old(index)
    {
      hide Sound, StandsAt;
      SetMark();
      ghost var v := Now();
      for i := 0 to steps
        invariant Valid() && Marked() == v && markIndex == old(index)
      {
        Next();
      }
      Reset();
    }

    /** Next until -1: the rest of the input stream. */
    method Collect() returns (s: seq<int>)
      requires Valid()
      modifies this`start, this`current, this`width, this`pos, this`index
      ensures Valid() && current == EOF && s == InputStream(bytes)[old(index)..]
    {
      hide Delivered, InputStream, ReadAt;
      s := [];
      ghost var from := index;
      while current != EOF
        invariant Valid() && from <= index && s == InputStream(bytes)[from..index]
        decreases |bytes| - start
      {
        ShowsIndex(bytes, Now(), index);
        s := s + [current];
        Next();
      }
      ShowsIndex(bytes, Now(), index);
    }
  }

  /** Init, then next until -1: for every byte string, the input stream the standards prescribe. */
  method ReadAll(bytes: seq<Byte>, tabStop: nat) returns (s: seq<int>)
    requires tabStop > 0
    ensures s == InputStream(bytes)
  {
    var it := new Utf8Iterator(bytes, tabStop);
    s := it.Collect();
  }

  lemma ViewBounds(bytes: seq<Byte>, v: View)
    requires Sound(bytes, v)
    ensures v.start + v.width <= |bytes|
  {}

  /** The input stream holds code points only, no -1. */
  lemma {:induction false} StreamNonNegative(bytes: seq<Byte>, i: nat)
    requires i <= |bytes|
    ensures forall c :: c in Delivered(bytes, i) ==> c >= 0
    decreases |bytes| - i
  {
    hide ReadAt;
    if i < |bytes| {
      ReadNonNegative(bytes, i);
      ReadAgain(bytes, i);
      var r := ReadAt(bytes, i);
      var rest := Delivered(bytes, i + r.skip + r.width);
      StreamNonNegative(bytes, i + r.skip + r.width);
      assert Delivered(bytes, i) == [r.current] + rest;
    }
  }

  lemma ReadNonNegative(bytes: seq<Byte>, i: nat)
    requires i < |bytes|
    ensures ReadAt(bytes, i).current >= 0
  {
    hide Scan;
    RawNonNegative(bytes, i, i, ACCEPT, 0);
  }

  lemma NoMoreDelivered(bytes: seq<Byte>, v: View)
    requires Sound(bytes, v) && v.current == EOF
    ensures Delivered(bytes, v.start) == []
  {}

  lemma NextDelivers(bytes: seq<Byte>, v: View, tabStop: nat)
    requires Sound(bytes, v) && v.current != EOF && tabStop > 0
    ensures Delivered(bytes, v.start) == [v.current] + Delivered(bytes, NextView(bytes, v, tabStop).start)
  {
    hide ReadRaw;
    NextSound(bytes, v, tabStop);
    SkipDelivers(bytes, v.start + v.width);
  }

  /** Stepping over the CR of a CR LF delivers the same. */
  lemma SkipDelivers(bytes: seq<Byte>, i: nat)
    requires i <= |bytes|
    ensures i + ReadAt(bytes, i).skip <= |bytes|
    ensures Delivered(bytes, i + ReadAt(bytes, i).skip) == Delivered(bytes, i)
  {
    ReadAgain(bytes, i);
  }
}
