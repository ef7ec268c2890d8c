/** The growing byte buffer and the UTF-8 encoder that appends to it. */
module StringBuffers {
  import opened Utf8
  import opened InputIterator

  // ---------------------------------------------------------------------------------------
  // Encoding, as in section 3 of RFC 3629

  predicate CodePoint(c: int) { 0 <= c <= 0x10FFFF }

  predicate AllCodePoints(s: seq<int>) { forall i :: 0 <= i < |s| ==> CodePoint(s[i]) }

  predicate Scalar(c: int) { 0 <= c < 0xD800 || 0xE000 <= c <= 0x10FFFF }

  /** The bytes of one code point. */
  function Encode(c: int): (r: seq<Byte>)
    requires 0 <= c <= 0x10FFFF
    ensures |r| == if c <= 0x7F then 1 else if c <= 0x7FF then 2 else if c <= 0xFFFF then 3 else 4
  {
    if c <= 0x7F then [c]
    else if c <= 0x7FF then [0xC0 + c / 64, 0x80 + c % 64]
    else if c <= 0xFFFF then [0xE0 + c / 4096, 0x80 + c / 64 % 64, 0x80 + c % 64]
    else [0xF0 + c / 262144, 0x80 + c / 4096 % 64, 0x80 + c / 64 % 64, 0x80 + c % 64]
  }

  function EncodeAll(s: seq<int>): (r: seq<Byte>)
    requires AllCodePoints(s)
  {
    if s == [] then [] else assert CodePoint(s[0]); Encode(s[0]) + EncodeAll(s[1..])
  }

  // ---------------------------------------------------------------------------------------
  // The decoder reads encodings back

  /** The standard's decoder emits exactly the encoded scalar value. */
  lemma EncodeDecodes(c: int, rest: seq<Byte>)
    requires Scalar(c)
    ensures Utf8Decode(Encode(c) + rest) == [c] + Utf8Decode(rest)
  {
    var e := Encode(c);
    var s := e + rest;
    assert s[0] == e[0];
    if c <= 0x7F {
      assert s[1..] == rest;
    } else if c <= 0x7FF {
      DecodeTwo(s, c);
      assert s[2..] == rest;
    } else if c <= 0xFFFF {
      DecodeThree(s, c);
      assert s[3..] == rest;
    } else {
      DecodeFour(s, c);
      assert s[4..] == rest;
    }
  }

  lemma DecodeLast(s: seq<Byte>, d: Decoder)
    requires |s| >= 1 && d.needed == 1 && d.lower <= s[0] <= d.upper
    ensures Decode(s, d) == [d.codePoint * 64 + s[0] % 64] + Utf8Decode(s[1..])
  {
  }

  lemma DecodeMore(s: seq<Byte>, d: Decoder)
    requires |s| >= 1 && d.needed > 1 && d.lower <= s[0] <= d.upper
    ensures Decode(s, d) == Decode(s[1..], Decoder(d.codePoint * 64 + s[0] % 64, d.needed - 1, 0x80, 0xBF))
  {
  }

  lemma TwoLead(top: int)
    requires 2 <= top < 32
    ensures Handler(INITIAL, 0xC0 + top) == Continue(Decoder(top, 1, 0x80, 0xBF))
  {}

  lemma DecodeTwo(s: seq<Byte>, c: int)
    requires |s| >= 2 && 0x80 <= c <= 0x7FF && s[..2] == Encode(c)
    ensures Utf8Decode(s) == [c] + Utf8Decode(s[2..])
  {
    hide Decode, Handler, Utf8Decode;
    assert s[0] == s[..2][0] == 0xC0 + c / 64 && s[1] == s[..2][1] == 0x80 + c % 64;
    TwoHandled(s, c / 64, c % 64, c);
  }

  lemma TwoHandled(s: seq<Byte>, top: int, low: int, c: int)
    requires |s| >= 2 && 2 <= top < 32 && 0 <= low < 64 && s[0] == 0xC0 + top && s[1] == 0x80 + low
    requires top * 64 + low == c
    ensures Utf8Decode(s) == [c] + Utf8Decode(s[2..])
  {
    hide Decode, Handler;
    var d := Decoder(top, 1, 0x80, 0xBF);
    TwoLead(top);
    DecodeLead(s, d);
    DecodeLast(s[1..], d);
    assert s[1..][1..] == s[2..];
  }

  /** The six-bit groups of a three-byte value, and what keeps its second byte in bounds. */
  lemma ThreeGroups(c: int)
    requires 0x800 <= c <= 0xFFFF && Scalar(c)
    ensures var top, mid := c / 4096, c / 64 % 64;
            && 0 <= top < 16 && top * 64 + mid == c / 64 && c / 64 * 64 + c % 64 == c
            && (top == 0 ==> 32 <= mid) && (top == 13 ==> mid < 32)
            && (0xE0 + top) % 16 == top && (0x80 + mid) % 64 == mid && (0x80 + c % 64) % 64 == c % 64
  {
    assert c / 4096 == c / 64 / 64;
  }

  lemma FourGroups(c: int)
    requires 0x10000 <= c <= 0x10FFFF
    ensures var top, high, mid := c / 262144, c / 4096 % 64, c / 64 % 64;
            && 0 <= top <= 4 && top * 64 + high == c / 4096 && c / 4096 * 64 + mid == c / 64
            && (top == 0 ==> 16 <= high) && (top == 4 ==> high < 16)
            && (0xF0 + top) % 8 == top && (0x80 + high) % 64 == high && (0x80 + mid) % 64 == mid
            && (0x80 + c % 64) % 64 == c % 64 && c / 64 * 64 + c % 64 == c
  {
    assert c / 262144 == c / 4096 / 64 && c / 4096 == c / 64 / 64;
  }

  lemma DecodeThree(s: seq<Byte>, c: int)
    requires |s| >= 3 && 0x800 <= c <= 0xFFFF && Scalar(c) && s[..3] == Encode(c)
    ensures Utf8Decode(s) == [c] + Utf8Decode(s[3..])
  {
    var top, mid := c / 4096, c / 64 % 64;
    assert s[0] == s[..3][0] == 0xE0 + top && s[1] == s[..3][1] == 0x80 + mid && s[2] == s[..3][2] == 0x80 + c % 64;
    ThreeGroups(c);
    ThreeHandled(s, top, mid, c % 64, c);
  }

  lemma ThreeLead(top: int)
    requires 0 <= top < 16
    ensures Handler(INITIAL, 0xE0 + top)
      == Continue(Decoder(top, 2, if top == 0 then 0xA0 else 0x80, if top == 13 then 0x9F else 0xBF))
  {}

  /** Three bytes in bounds decode to their groups. */
  lemma ThreeHandled(s: seq<Byte>, top: int, mid: int, low: int, c: int)
    requires |s| >= 3 && 0 <= top < 16 && 0 <= mid < 64 && 0 <= low < 64
    requires s[0] == 0xE0 + top && s[1] == 0x80 + mid && s[2] == 0x80 + low && (top * 64 + mid) * 64 + low == c
    requires (top == 0 ==> 32 <= mid) && (top == 13 ==> mid < 32)
    ensures Utf8Decode(s) == [c] + Utf8Decode(s[3..])
  {
    hide Handler, Decode;
    var d := Decoder(top, 2, if s[0] == 0xE0 then 0xA0 else 0x80, if s[0] == 0xED then 0x9F else 0xBF);
    ThreeLead(top);
    DecodeLead(s, d);
    DecodeMore(s[1..], d);
    assert s[1..][1..] == s[2..];
    DecodeLast(s[2..], Decoder(top * 64 + mid, 1, 0x80, 0xBF));
    assert s[2..][1..] == s[3..];
  }

  lemma DecodeFour(s: seq<Byte>, c: int)
    requires |s| >= 4 && 0x10000 <= c <= 0x10FFFF && s[..4] == Encode(c)
    ensures Utf8Decode(s) == [c] + Utf8Decode(s[4..])
  {
    var top, high, mid := c / 262144, c / 4096 % 64, c / 64 % 64;
    assert s[0] == s[..4][0] == 0xF0 + top && s[1] == s[..4][1] == 0x80 + high;
    assert s[2] == s[..4][2] == 0x80 + mid && s[3] == s[..4][3] == 0x80 + c % 64;
    FourGroups(c);
    FourHandled(s, top, high, mid, c % 64, c);
  }

  lemma FourLead(top: int)
    requires 0 <= top <= 4
    ensures Handler(INITIAL, 0xF0 + top)
      == Continue(Decoder(top, 3, if top == 0 then 0x90 else 0x80, if top == 4 then 0x8F else 0xBF))
  {}

  lemma DecodeLead(s: seq<Byte>, d: Decoder)
    requires s != [] && Handler(INITIAL, s[0]) == Continue(d)
    ensures Utf8Decode(s) == Decode(s[1..], d)
  {}

  lemma FourHandled(s: seq<Byte>, top: int, high: int, mid: int, low: int, c: int)
    requires |s| >= 4 && 0 <= top <= 4 && 0 <= high < 64 && 0 <= mid < 64 && 0 <= low < 64
    requires s[0] == 0xF0 + top && s[1] == 0x80 + high && s[2] == 0x80 + mid && s[3] == 0x80 + low
    requires ((top * 64 + high) * 64 + mid) * 64 + low == c && (top == 0 ==> 16 <= high) && (top == 4 ==> high < 16)
    ensures Utf8Decode(s) == [c] + Utf8Decode(s[4..])
  {
    hide Handler, Decode;
    var d := Decoder(top, 3, if s[0] == 0xF0 then 0x90 else 0x80, if s[0] == 0xF4 then 0x8F else 0xBF);
    FourLead(top);
    DecodeLead(s, d);
    DecodeMore(s[1..], d);
    assert s[1..][1..] == s[2..];
    DecodeMore(s[2..], Decoder(top * 64 + high, 2, 0x80, 0xBF));
    assert s[2..][1..] == s[3..];
    DecodeLast(s[3..], Decoder((top * 64 + high) * 64 + mid, 1, 0x80, 0xBF));
    assert s[3..][1..] == s[4..];
  }

  /** Encoding and decoding a sequence of scalar values gives it back. */
  lemma {:induction false} RoundTrip(s: seq<int>)
    requires forall i :: 0 <= i < |s| ==> CodePoint(s[i]) && Scalar(s[i])
    ensures Utf8Decode(EncodeAll(s)) == s
  {
    if s != [] {
      RoundTrip(s[1..]);
      EncodeDecodes(s[0], EncodeAll(s[1..]));
    }
  }

  lemma {:induction false} PlainNewlines(s: seq<int>)
    requires forall i :: 0 <= i < |s| ==> s[i] != CR
    ensures Newlines(s) == s
  {
    if s != [] { PlainNewlines(s[1..]); }
  }

  /** Iterating over the encoding of scalar values that are neither CR nor forbidden delivers
      them unchanged. */
  lemma IterateEncoded(s: seq<int>)
    requires Plain(s)
    ensures InputStream(EncodeAll(s)) == s
  {
    hide EncodeAll, Utf8Decode, Newlines;
    RoundTrip(s);
    PlainNewlines(s);
  }

  lemma {:induction false} EncodeAllConcat(s: seq<int>, t: seq<int>)
    requires AllCodePoints(s)
    requires AllCodePoints(t)
    ensures EncodeAll(s + t) == EncodeAll(s) + EncodeAll(t)
  {
    hide Encode;
    if s == [] { assert s + t == t; }
    else {
      assert (s + t)[1..] == s[1..] + t;
      EncodeAllConcat(s[1..], t);
    }
  }

  lemma EncodeAllOne(c: int)
    requires CodePoint(c)
    ensures EncodeAll([c]) == Encode(c)
  {
    hide Encode;
    assert [c][1..] == [];
  }

  /** Where code point `i` of an encoded sequence starts. */
  lemma EncodedAt(s: seq<int>, i: nat)
    requires AllCodePoints(s) && i < |s|
    ensures EncodeAll(s) == EncodeAll(s[..i]) + Encode(s[i]) + EncodeAll(s[i + 1..])
    ensures EncodeAll(s[..i + 1]) == EncodeAll(s[..i]) + Encode(s[i])
  {
    hide Encode, EncodeAll, AllCodePoints;
    PartsCodePoints(s, i);
    EncodedParts(s[..i], s[i], s[i + 1..]);
    assert s[..i] + [s[i]] == s[..i + 1];
    assert s[..i + 1] + s[i + 1..] == s;
  }

  lemma PartsCodePoints(s: seq<int>, i: nat)
    requires AllCodePoints(s) && i < |s|
    ensures AllCodePoints(s[..i]) && CodePoint(s[i]) && AllCodePoints(s[i + 1..]) && AllCodePoints(s[..i + 1])
  {}

  lemma EncodedParts(a: seq<int>, c: int, rest: seq<int>)
    requires AllCodePoints(a)
    requires CodePoint(c) && AllCodePoints(rest)
    ensures EncodeAll(a + [c]) == EncodeAll(a) + Encode(c)
    ensures EncodeAll(a + [c] + rest) == EncodeAll(a) + Encode(c) + EncodeAll(rest)
  {
    hide Encode, EncodeAll, CodePoint;
    EncodeAllConcat(a, [c]);
    EncodeAllConcat(a + [c], rest);
    EncodeAllOne(c);
  }

  ghost predicate Plain(s: seq<int>) {
    forall i :: 0 <= i < |s| ==> CodePoint(s[i]) && Scalar(s[i]) && s[i] != CR && !Forbidden(s[i])
  }

  /** At each code point of an encoded sequence the iterator reads it with its encoded length, and
      nothing is skipped; at the end it reads nothing. */
  lemma ReadsEncodedAt(s: seq<int>, i: nat)
    requires Plain(s) && i <= |s|
    ensures ReadAt(EncodeAll(s), |EncodeAll(s[..i])|)
      == if i < |s| then Reading(0, s[i], |Encode(s[i])|) else Reading(0, EOF, 0)
  {
    hide Encode, EncodeAll, Scalar, Forbidden, ReadRaw;
    if i < |s| {
      EncodedAt(s, i);
      WidthIsLength(EncodeAll(s[..i]), s[i], EncodeAll(s[i + 1..]));
    } else {
      assert s[..i] == s;
    }
  }

  /** At the start of an encoded scalar value the iterator reads it with its encoded length. */
  lemma WidthIsLength(before: seq<Byte>, c: int, rest: seq<Byte>)
    requires Scalar(c) && c != CR && !Forbidden(c)
    ensures ReadAt(before + Encode(c) + rest, |before|) == Reading(0, c, |Encode(c)|)
  {
    var bytes, i := before + Encode(c) + rest, |before|;
    ScanEncoded(bytes, i, c);
  }

  lemma ScanEncoded(bytes: seq<Byte>, i: nat, c: int)
    requires Scalar(c) && i + |Encode(c)| <= |bytes| && bytes[i..i + |Encode(c)|] == Encode(c)
    ensures ReadRaw(bytes, i) == Raw(c, |Encode(c)|)
  {
    var e := Encode(c);
    assert forall j :: 0 <= j < |e| ==> bytes[i + j] == bytes[i..i + |e|][j] == e[j];
    assert bytes[i] == e[0];
    if c > 0x7F {
      assert bytes[i + 1] == e[1];
      if c <= 0x7FF {
        ScanTwo(bytes, i, c / 64, c % 64);
      } else {
        assert bytes[i + 2] == e[2];
        if c <= 0xFFFF {
          ThreeGroups(c);
          ScanThree(bytes, i, c / 4096, c / 64 % 64, c % 64);
        } else {
          assert bytes[i + 3] == e[3];
          FourGroups(c);
          ScanFour(bytes, i, c / 262144, c / 4096 % 64, c / 64 % 64, c % 64);
        }
      }
    }
  }

  /** One continuation byte ends the character. */
  lemma ScanLast(bytes: seq<Byte>, start: nat, c: nat, codePoint: int, low: int)
    requires start < c < |bytes| && 0 <= low < 64 && bytes[c] == 0x80 + low
    ensures Scan(bytes, start, c, 24, codePoint) == Raw(codePoint * 64 + low, c - start + 1)
  {
    LaterByte(24, bytes[c]);
    assert (0x80 + low) % 64 == low;
  }

  lemma ScanTwo(bytes: seq<Byte>, i: nat, top: int, low: int)
    requires i + 2 <= |bytes| && 2 <= top < 32 && 0 <= low < 64 && bytes[i] == 0xC0 + top && bytes[i + 1] == 0x80 + low
    ensures ReadRaw(bytes, i) == Raw(top * 64 + low, 2)
  {
    FirstByte(bytes[i]);
    assert (0xC0 + top) % 64 == top;
    ScanLast(bytes, i, i + 1, top, low);
  }

  /** Two continuation bytes end the character, whatever the state allows for the first. */
  lemma ScanLastTwo(bytes: seq<Byte>, start: nat, c: nat, state: nat, codePoint: int, mid: int, low: int)
    requires start < c < |bytes| - 1 && 0 <= mid < 64 && 0 <= low < 64
    requires bytes[c] == 0x80 + mid && bytes[c + 1] == 0x80 + low
    requires state == 36 || (state == 48 && 32 <= mid) || (state == 60 && mid < 32)
    ensures Scan(bytes, start, c, state, codePoint) == Raw((codePoint * 64 + mid) * 64 + low, c - start + 2)
  {
    LaterByte(state, bytes[c]);
    assert (0x80 + mid) % 64 == mid;
    ScanLast(bytes, start, c + 1, codePoint * 64 + mid, low);
  }

  lemma ScanThree(bytes: seq<Byte>, i: nat, top: int, mid: int, low: int)
    requires i + 3 <= |bytes| && 0 <= top < 16 && 0 <= mid < 64 && 0 <= low < 64
    requires bytes[i] == 0xE0 + top && bytes[i + 1] == 0x80 + mid && bytes[i + 2] == 0x80 + low
    requires (top == 0 ==> 32 <= mid) && (top == 13 ==> mid < 32)
    ensures ReadRaw(bytes, i) == Raw((top * 64 + mid) * 64 + low, 3)
  {
    FirstByte(bytes[i]);
    assert (0xE0 + top) % 32 == top && (0xE0 + top) % 16 == top;
    ScanLastTwo(bytes, i, i + 1, NextState(ACCEPT, bytes[i]), top, mid, low);
  }

  lemma ScanFour(bytes: seq<Byte>, i: nat, top: int, high: int, mid: int, low: int)
    requires i + 4 <= |bytes| && 0 <= top <= 4 && 0 <= high < 64 && 0 <= mid < 64 && 0 <= low < 64
    requires bytes[i] == 0xF0 + top && bytes[i + 1] == 0x80 + high && bytes[i + 2] == 0x80 + mid && bytes[i + 3] == 0x80 + low
    requires (top == 0 ==> 16 <= high) && (top == 4 ==> high < 16)
    ensures ReadRaw(bytes, i) == Raw(((top * 64 + high) * 64 + mid) * 64 + low, 4)
  {
    FirstByte(bytes[i]);
    var state := NextState(ACCEPT, bytes[i]);
    LaterByte(state, bytes[i + 1]);
    assert NextCodePoint(ACCEPT, 0, bytes[i]) == top;
    assert (0x80 + high) % 64 == high;
    assert Scan(bytes, i, i + 1, state, top) == Scan(bytes, i, i + 2, 36, top * 64 + high);
    ScanLastTwo(bytes, i, i + 2, 36, top * 64 + high, mid, low);
  }

  // ---------------------------------------------------------------------------------------
  // The buffer

  class StringBuffer {
    var data: array<Byte>
    var length: nat

    ghost predicate Valid()
      reads this
    {
      length <= data.Length && data.Length > 0
    }

    ghost function Contents(): (s: seq<Byte>)
      requires Valid()
      reads this, data
    {
      data[..length]
    }

    constructor ()
      ensures Valid() && Contents() == [] && fresh(data)
    {
      data := new Byte[5](_ => 0);
      length := 0;
    }

    /** Double the capacity until the additional bytes fit. */
    method MaybeResize(additional: nat)
      requires Valid()
      modifies this`data
      ensures Valid() && Contents() == old(Contents()) && length + additional <= data.Length
      ensures data == old(data) || fresh(data)
    {
      var newLength := length + additional;
      var newCapacity := data.Length;
      while newCapacity < newLength
        invariant newCapacity >= data.Length
        decreases newLength - newCapacity
      {
        newCapacity := newCapacity * 2;
      }
      if newCapacity != data.Length {
        var newData := new Byte[newCapacity](_ => 0);
        var i := 0;
        while i < length
          invariant 0 <= i <= length && newData[..i] == data[..i]
          modifies newData
        {
          newData[i] := data[i];
          i := i + 1;
        }
        data := newData;
      }
    }

    method AppendByte(b: Byte)
      requires Valid() && length < data.Length
      modifies this`length, data
      ensures Valid() && data == old(data) && Contents() == old(Contents()) + [b] && length == old(length) + 1
    {
      data[length] := b;
      length := length + 1;
    }

    /** `gumbo_string_buffer_append_codepoint`: the leading byte, then the six-bit groups from
        the highest down. */
    method AppendCodepoint(c: int)
      requires Valid() && CodePoint(c)
      modifies this, data
      ensures Valid() && Contents() == old(Contents()) + Encode(c)
      ensures data == old(data) || fresh(data)
    {
      hide Encode, Shifted;
      var numBytes, prefix := 0, 0;
      if c <= 0x7F {
      } else if c <= 0x7FF {
        numBytes, prefix := 1, 0xC0;
      } else if c <= 0xFFFF {
        numBytes, prefix := 2, 0xE0;
      } else {
        numBytes, prefix := 3, 0xF0;
      }
      MaybeResize(numBytes + 1);
      ghost var before := Contents();
      LeadingByte(c, numBytes, prefix);
      AppendByte(prefix + Shifted(c, numBytes));
      var i := numBytes - 1;
      while i >= 0
        invariant -1 <= i < numBytes && Valid() && length + i + 1 <= data.Length
        invariant data == old(data) || fresh(data)
        invariant Contents() == before + Encode(c)[..numBytes - i]
      {
        assert Encode(c)[..numBytes - i + 1] == Encode(c)[..numBytes - i] + [Encode(c)[numBytes - i]];
        ContinuationByte(c, numBytes, i);
        AppendByte(0x80 + Shifted(c, i) % 64);
        i := i - 1;
      }
      assert Encode(c)[..numBytes + 1] == Encode(c);
    }

    method AppendString(str: seq<Byte>)
      requires Valid()
      modifies this, data
      ensures Valid() && Contents() == old(Contents()) + str
      ensures data == old(data) || fresh(data)
    {
      MaybeResize(|str|);
      ghost var before := Contents();
      var i := 0;
      while i < |str|
        invariant 0 <= i <= |str| && Valid() && length + (|str| - i) <= data.Length
        invariant data == old(data) || fresh(data)
        invariant Contents() == before + str[..i]
      {
        AppendByte(str[i]);
        i := i + 1;
      }
    }
  }

  /** `c >> (6 * i)`. */
  function Shifted(c: int, i: nat): int {
    match i
    case 0 => c
    case 1 => c / 64
    case 2 => c / 4096
    case _ => c / 262144
  }

  lemma LeadingByte(c: int, numBytes: nat, prefix: int)
    requires CodePoint(c) && numBytes == |Encode(c)| - 1
    requires prefix == match numBytes case 0 => 0 case 1 => 0xC0 case 2 => 0xE0 case _ => 0xF0
    ensures 0 <= prefix + Shifted(c, numBytes) < 256 && Encode(c)[0] == prefix + Shifted(c, numBytes)
    ensures Encode(c)[..1] == [Encode(c)[0]]
  {
  }

  lemma ContinuationByte(c: int, numBytes: nat, i: nat)
    requires CodePoint(c) && numBytes == |Encode(c)| - 1 && i < numBytes
    ensures Encode(c)[numBytes - i] == 0x80 + Shifted(c, i) % 64
  {
  }

  /** Append code points to an empty buffer: its bytes are their encodings. */
  method WriteAll(s: seq<int>) returns (bytes: seq<Byte>)
    requires AllCodePoints(s)
    ensures bytes == EncodeAll(s)
  {
    hide Encode, EncodeAll;
    var buffer := new StringBuffer();
    EncodeAllNone();
    assert s[..0] == [];
    for i := 0 to |s|
      invariant buffer.Valid() && fresh(buffer) && fresh(buffer.data) && buffer.Contents() == EncodeAll(s[..i])
    {
      EncodedAt(s, i);
      buffer.AppendCodepoint(s[i]);
    }
    assert s[..|s|] == s;
    bytes := buffer.data[..buffer.length];
  }

  /** Append code points to an empty buffer, then iterate over its bytes: the same code points come
      back, each with a width equal to its encoded length. */
  method WriteThenRead(s: seq<int>, tabStop: nat) returns (values: seq<int>, widths: seq<nat>)
    requires Plain(s) && tabStop > 0
    ensures values == s
    ensures |widths| == |s| && forall i :: 0 <= i < |s| ==> widths[i] == |Encode(s[i])|
  {
    hide Encode, EncodeAll, Plain, ReadAt, InputStream, StandsAt, Locates;
    PlainFacts(s);
    var bytes := WriteAll(s);
    var it := new Utf8Iterator(bytes, tabStop);
    values, widths := [], [];
    ReadsEncodedAt(s, 0);
    EncodeAllNone();
    while it.current != EOF
      invariant fresh(it) && it.Valid() && it.bytes == bytes && |values| <= |s| && values == s[..|values|]
      invariant it.start == |EncodeAll(s[..|values|])|
      invariant |widths| == |values| && forall i :: 0 <= i < |widths| ==> widths[i] == |Encode(s[i])|
      decreases |bytes| - it.start
    {
      ghost var n := |values|;
      ReadsEncodedAt(s, n);
      values := values + [it.current];
      widths := widths + [it.width];
      EncodedAt(s, n);
      ReadsEncodedAt(s, n + 1);
      it.Next();
      assert s[..n + 1] == s[..n] + [s[n]];
    }
    ReadsEncodedAt(s, |values|);
  }

  lemma PlainFacts(s: seq<int>)
    requires Plain(s)
    ensures AllCodePoints(s) && forall i :: 0 <= i < |s| ==> s[i] != EOF
  {
  }

  lemma EncodeAllNone()
    ensures EncodeAll([]) == []
  {
  }
}
