/** Decoding of UTF-8: the table-driven automaton of the iterator, and the decoder of the WHATWG
    Encoding standard (section 8.1.1) it has to agree with. Masks and shifts are written as
    remainders, products and quotients. */
module Utf8 {

  type Byte = b: int | 0 <= b < 256

  const REPLACEMENT: int := 0xFFFD

  // ---------------------------------------------------------------------------------------
  // The automaton

  const ACCEPT: nat := 0
  const REJECT: nat := 12

  /** The first 256 entries of the table, run by run: the class of a byte. */
  function ClassOf(b: Byte): (c: nat)
    ensures c < 12
  {
    if b <= 0x7F then 0
    else if b <= 0x8F then 1
    else if b <= 0x9F then 9
    else if b <= 0xBF then 7
    else if b <= 0xC1 then 8
    else if b <= 0xDF then 2
    else if b == 0xE0 then 10
    else if b <= 0xEC then 3
    else if b == 0xED then 4
    else if b <= 0xEF then 3
    else if b == 0xF0 then 11
    else if b <= 0xF3 then 6
    else if b == 0xF4 then 5
    else 8
  }

  /** The rest of the table: a row of twelve next states for each state. */
  function Row(state: nat): (r: seq<nat>)
    ensures |r| == 12
  {
    match state
    case 0 => [0, 12, 24, 36, 60, 96, 84, 12, 12, 12, 48, 72]
    case 24 => [12, 0, 12, 12, 12, 12, 12, 0, 12, 0, 12, 12]
    case 36 => [12, 24, 12, 12, 12, 12, 12, 24, 12, 24, 12, 12]
    case 48 => [12, 12, 12, 12, 12, 12, 12, 24, 12, 12, 12, 12]
    case 60 => [12, 24, 12, 12, 12, 12, 12, 12, 12, 24, 12, 12]
    case 72 => [12, 12, 12, 12, 12, 12, 12, 36, 12, 36, 12, 12]
    case 84 => [12, 36, 12, 12, 12, 12, 12, 36, 12, 36, 12, 12]
    case 96 => [12, 36, 12, 12, 12, 12, 12, 12, 12, 12, 12, 12]
    case _ => [12, 12, 12, 12, 12, 12, 12, 12, 12, 12, 12, 12]
  }

  /** `(0xff >> class) & byte`. */
  function Masked(class_: nat, b: Byte): int {
    match class_
    case 0 => b
    case 1 => b % 128
    case 2 => b % 64
    case 3 => b % 32
    case 4 => b % 16
    case 5 => b % 8
    case 6 => b % 4
    case 7 => b % 2
    case _ => 0
  }

  function NextState(state: nat, b: Byte): nat { Row(state)[ClassOf(b)] }

  function NextCodePoint(state: nat, codePoint: int, b: Byte): int {
    if state != ACCEPT then b % 64 + codePoint * 64 else Masked(ClassOf(b), b)
  }

  datatype Raw = Raw(codePoint: int, width: nat)

  /** The reading loop from byte `c` on, for a character that starts at `start`. */
  function Scan(bytes: seq<Byte>, start: nat, c: nat, state: nat, codePoint: int): (r: Raw)
    requires start <= c <= |bytes|
    decreases |bytes| - c
  {
    if c == |bytes| then Raw(REPLACEMENT, |bytes| - start)
    else
      var state', codePoint' := NextState(state, bytes[c]), NextCodePoint(state, codePoint, bytes[c]);
      if state' == ACCEPT then Raw(codePoint', c - start + 1)
      else if state' == REJECT then Raw(REPLACEMENT, c - start + if c == start then 1 else 0)
      else Scan(bytes, start, c + 1, state', codePoint')
  }

  /** The character at `i` before newline handling. */
  function ReadRaw(bytes: seq<Byte>, i: nat): (r: Raw)
    requires i < |bytes|
  {
    Scan(bytes, i, i, ACCEPT, 0)
  }

  // ---------------------------------------------------------------------------------------
  // The standard's decoder

  /** The decoder's variables: code point, bytes still needed, boundaries for the next byte. */
  datatype Decoder = Decoder(codePoint: int, needed: nat, lower: int, upper: int)

  const INITIAL := Decoder(0, 0, 0x80, 0xBF)

  /** What the handler does with one byte: emit a code point, continue, report an error, or report
      an error and look at the byte again. */
  datatype Action = Emit(codePoint: int) | Continue(d: Decoder) | Fail | FailAndRestore

  function Handler(d: Decoder, b: Byte): Action {
    if d.needed == 0 then
      if b <= 0x7F then Emit(b)
      else if 0xC2 <= b <= 0xDF then Continue(Decoder(b % 32, 1, 0x80, 0xBF))
      else if 0xE0 <= b <= 0xEF then
        Continue(Decoder(b % 16, 2, if b == 0xE0 then 0xA0 else 0x80, if b == 0xED then 0x9F else 0xBF))
      else if 0xF0 <= b <= 0xF4 then
        Continue(Decoder(b % 8, 3, if b == 0xF0 then 0x90 else 0x80, if b == 0xF4 then 0x8F else 0xBF))
      else Fail
    else if !(d.lower <= b <= d.upper) then FailAndRestore
    else
      var codePoint := d.codePoint * 64 + b % 64;
      if d.needed == 1 then Emit(codePoint) else Continue(Decoder(codePoint, d.needed - 1, 0x80, 0xBF))
  }

  /** The decoder run over a byte stream, errors replaced. */
  function Decode(bytes: seq<Byte>, d: Decoder): (r: seq<int>)
    decreases |bytes|, d.needed
  {
    if bytes == [] then if d.needed == 0 then [] else [REPLACEMENT]
    else
      match Handler(d, bytes[0])
      case Emit(codePoint) => [codePoint] + Decode(bytes[1..], INITIAL)
      case Continue(d') => Decode(bytes[1..], d')
      case Fail => [REPLACEMENT] + Decode(bytes[1..], INITIAL)
      case FailAndRestore => [REPLACEMENT] + Decode(bytes, INITIAL)
  }

  function Utf8Decode(bytes: seq<Byte>): seq<int> { Decode(bytes, INITIAL) }

  // ---------------------------------------------------------------------------------------
  // The automaton simulates the decoder

  /** The decoder state an automaton state with its partial code point stands for. */
  function Meaning(state: nat, codePoint: int): Decoder {
    match state
    case 24 => Decoder(codePoint, 1, 0x80, 0xBF)
    case 36 => Decoder(codePoint, 2, 0x80, 0xBF)
    case 48 => Decoder(codePoint, 2, 0xA0, 0xBF)
    case 60 => Decoder(codePoint, 2, 0x80, 0x9F)
    case 72 => Decoder(codePoint, 3, 0x90, 0xBF)
    case 84 => Decoder(codePoint, 3, 0x80, 0xBF)
    case 96 => Decoder(codePoint, 3, 0x80, 0x8F)
    case _ => INITIAL
  }

  predicate Live(state: nat) {
    state == 24 || state == 36 || state == 48 || state == 60 || state == 72 || state == 84 || state == 96
  }

  /** One byte of the automaton is one byte of the decoder. */
  lemma StepAgrees(state: nat, codePoint: int, b: Byte)
    requires state == ACCEPT || Live(state)
    ensures var state', codePoint' := NextState(state, b), NextCodePoint(state, codePoint, b);
            Handler(Meaning(state, codePoint), b) ==
              if state' == ACCEPT then Emit(codePoint')
              else if state' == REJECT then (if state == ACCEPT then Fail else FailAndRestore)
              else Continue(Meaning(state', codePoint'))
    ensures NextState(state, b) == ACCEPT || NextState(state, b) == REJECT || Live(NextState(state, b))
  {
    hide Row;
    if state == ACCEPT {
      FirstByte(b);
    } else {
      LaterByte(state, b);
    }
  }

  lemma FirstByte(b: Byte)
    ensures NextState(ACCEPT, b) ==
      if b <= 0x7F then 0 else if b < 0xC2 then 12 else if b <= 0xDF then 24 else if b == 0xE0 then 48
      else if b == 0xED then 60 else if b <= 0xEF then 36 else if b == 0xF0 then 72 else if b <= 0xF3 then 84
      else if b == 0xF4 then 96 else 12
  {
    var c := ClassOf(b);
    assert Row(0)[c] == if c == 0 then 0 else if c == 2 then 24 else if c == 3 then 36 else if c == 4 then 60
                        else if c == 5 then 96 else if c == 6 then 84 else if c == 10 then 48 else if c == 11 then 72 else 12;
  }

  lemma LaterByte(state: nat, b: Byte)
    requires Live(state)
    ensures var d := Meaning(state, 0);
            NextState(state, b) == if !(d.lower <= b <= d.upper) then 12
                                   else if d.needed == 1 then 0 else if d.needed == 2 then 24 else 36
  {
    var c := ClassOf(b);
    if c == 1 { } else if c == 7 { } else if c == 9 { } else { }
  }

  /** The rest of a character read by the automaton is what the decoder makes of the same bytes. */
  lemma {:induction false} ScanAgrees(bytes: seq<Byte>, start: nat, c: nat, state: nat, codePoint: int)
    requires start <= c <= |bytes| && (if c == start then state == ACCEPT && c < |bytes| else Live(state))
    ensures var r := Scan(bytes, start, c, state, codePoint);
            && 0 < r.width && c <= start + r.width <= |bytes|
            && Decode(bytes[c..], Meaning(state, codePoint)) == [r.codePoint] + Utf8Decode(bytes[start + r.width..])
    decreases |bytes| - c
  {
    hide Handler, NextState, NextCodePoint, Meaning;
    if c == |bytes| { LiveNeeds(state, codePoint); }
    else {
      StepAgrees(state, codePoint, bytes[c]);
      assert bytes[c..][0] == bytes[c] && bytes[c..][1..] == bytes[c + 1..];
      var state', codePoint' := NextState(state, bytes[c]), NextCodePoint(state, codePoint, bytes[c]);
      if state' != ACCEPT && state' != REJECT {
        ScanAgrees(bytes, start, c + 1, state', codePoint');
      }
    }
  }

  lemma LiveNeeds(state: nat, codePoint: int)
    requires Live(state)
    ensures Meaning(state, codePoint).needed > 0
  {}

  lemma ReadRawAgrees(bytes: seq<Byte>, i: nat)
    requires i < |bytes|
    ensures var r := ReadRaw(bytes, i);
            0 < r.width <= |bytes| - i && Utf8Decode(bytes[i..]) == [r.codePoint] + Utf8Decode(bytes[i + r.width..])
  {
    hide Scan, Decode;
    ScanAgrees(bytes, i, i, ACCEPT, 0);
  }
}
