/** The bit64 codec: bytes read as one little-endian number, written in base 64 over a shuffled
    alphabet. */
module Bit64 {
  import opened Sequences
  import opened Bit64Numbers

  /** The number of symbols for `n` bytes, rounded up. */
  function SymbolCount(n: nat): nat { (4 * n + 2) / 3 }

  /** The symbol indices of a byte string. */
  function Encoded(bytes: seq<nat>): seq<nat> {
    Digits(64, Value(256, bytes), SymbolCount(|bytes|))
  }

  /** The bytes of a string of symbol indices: the whole bytes, and one more for leftover bits
      that are not all zero. */
  function Decoded(symbols: seq<nat>): seq<nat> {
    var n, k := Value(64, symbols), 6 * |symbols| / 8;
    Digits(256, n, k) + if Rest(256, n, k) > 0 then [Rest(256, n, k)] else []
  }

  /** Symbols and bytes measure the same bits. */
  lemma PowBits(k: nat)
    ensures Pow(64, k) == Pow(2, 6 * k) && Pow(256, k) == Pow(2, 8 * k)
  {
    Powers();
    PowOfTwo(6, k);
    PowOfTwo(8, k);
  }

  lemma {:induction false} PowGrows(a: nat, b: nat)
    requires a <= b
    ensures Pow(2, a) <= Pow(2, b)
    decreases b
  {
    if a < b { PowGrows(a, b - 1); }
  }

  /** The symbols carry the whole number: nothing is left over. */
  lemma EncodedValue(bytes: seq<nat>)
    requires DigitsOk(256, bytes)
    ensures Value(64, Encoded(bytes)) == Value(256, bytes)
  {
    var n, m := Value(256, bytes), SymbolCount(|bytes|);
    ValueBound(256, bytes);
    PowBits(|bytes|);
    PowBits(m);
    PowGrows(8 * |bytes|, 6 * m);
    ValueOfDigits(64, n, m);
    NothingLeft(n, Value(64, Digits(64, n, m)), Pow(64, m), Rest(64, n, m));
  }

  lemma NothingLeft(n: nat, v: nat, p: nat, t: nat)
    requires n == v + p * t && n < p
    ensures t == 0 && v == n
  {
    MulAtLeast(p, t);
  }

  /** Decoding an encoding gives every byte string back: the padding bits are zero and drop. */
  lemma DecodeEncode(bytes: seq<nat>)
    requires DigitsOk(256, bytes)
    ensures Decoded(Encoded(bytes)) == bytes
  {
    EncodedValue(bytes);
    var k := 6 * |Encoded(bytes)| / 8;
    assert k == |bytes|;
    DigitsOfValue(256, bytes, 0);
    assert bytes + [] == bytes;
  }

  /** Which symbol strings are encodings: no lone symbol at the end, and zero padding. */
  predicate Canonical(symbols: seq<nat>) {
    |symbols| % 4 != 1 && Rest(256, Value(64, symbols), 6 * |symbols| / 8) == 0
  }

  /** Only a string without a lone last symbol has the length of an encoding, and an extra byte
      always needs more symbols. */
  lemma Lengths(m: nat)
    ensures SymbolCount(6 * m / 8) == m <==> m % 4 != 1
    ensures SymbolCount(6 * m / 8 + 1) != m
  {
    var q, r := m / 4, m % 4;
    assert m == 4 * q + r && 6 * m / 8 == 3 * q + 6 * r / 8;
  }

  /** Encoding a decoding gives the symbols back exactly for the canonical strings. */
  lemma EncodeDecode(symbols: seq<nat>)
    requires DigitsOk(64, symbols)
    ensures Encoded(Decoded(symbols)) == symbols <==> Canonical(symbols)
  {
    hide Value, Digits, Rest, Pow, SymbolCount;
    var n, k := Value(64, symbols), 6 * |symbols| / 8;
    var d := Decoded(symbols);
    Lengths(|symbols|);
    assert |Encoded(d)| == SymbolCount(|d|);
    if Canonical(symbols) {
      assert d == Digits(256, n, k);
      ValueOfDigits(256, n, k);
      DigitsOfValue(64, symbols, 0);
    }
  }

  /** Reading and writing back changes some strings: a lone symbol becomes a byte, so two symbols. */
  lemma LoneSymbolChanges()
    ensures DigitsOk(64, [1]) && Encoded(Decoded([1])) != [1]
  {
    EncodeDecode([1]);
  }

  // ---------------------------------------------------------------------------------------
  // Repacking digits through an accumulator

  /** The two digit sizes. */
  datatype Unit = Symbol | Octet {
    function Base(): nat { if Symbol? then 64 else 256 }

    function Bits(n: nat): nat { if Symbol? then 6 * n else 8 * n }
  }

  lemma UnitPow(u: Unit, n: nat)
    ensures Pow(u.Base(), n) == Pow(2, u.Bits(n)) && Pow(2, u.Bits(1)) == u.Base()
  {
    PowBits(n);
    Powers();
  }

  /** The digits `ins` of unit `a` have gone in, the digits `outs` of unit `b` have come out, and
      the accumulator `tmp` holds the `tb` bits in between. */
  ghost predicate Packed(a: Unit, b: Unit, ins: seq<nat>, outs: seq<nat>, tmp: nat, tb: nat) {
    && DigitsOk(b.Base(), outs) && a.Bits(|ins|) == b.Bits(|outs|) + tb && tmp < Pow(2, tb)
    && Value(a.Base(), ins) == Value(b.Base(), outs) + Pow(b.Base(), |outs|) * tmp
  }

  /** `tmp | (x << tb)`: the shifted digit lands above the bits already there. */
  lemma FeedKeeps(a: Unit, b: Unit, ins: seq<nat>, outs: seq<nat>, tmp: nat, tb: nat, x: nat)
    requires Packed(a, b, ins, outs, tmp, tb) && x < a.Base()
    ensures Packed(a, b, ins + [x], outs, tmp + Pow(2, tb) * x, tb + a.Bits(1))
  {
    hide Value, Pow;
    ValueAppend(a.Base(), ins, x);
    UnitPow(a, |ins|);
    UnitPow(b, |outs|);
    PowAdd(2, b.Bits(|outs|), tb);
    PowAdd(2, tb, a.Bits(1));
    FeedBound(tmp, Pow(2, tb), x, a.Base());
    FeedSum(Value(b.Base(), outs), Pow(b.Base(), |outs|), tmp, Pow(2, tb), x);
  }

  lemma FeedSum(v: nat, p: nat, tmp: nat, t: nat, x: nat)
    ensures v + p * tmp + p * t * x == v + p * (tmp + t * x)
  {
    assert p * (tmp + t * x) == p * tmp + p * (t * x);
    assert p * (t * x) == p * t * x;
  }

  lemma FeedBound(tmp: nat, t: nat, x: nat, limit: nat)
    requires tmp < t && x < limit
    ensures tmp + t * x < t * limit
  {
    MulAtLeast(t, limit - x);
    assert t * (limit - x) == t * limit - t * x;
  }

  /** Taking the low digit off the accumulator. */
  lemma DrainKeeps(a: Unit, b: Unit, ins: seq<nat>, outs: seq<nat>, tmp: nat, tb: nat)
    requires Packed(a, b, ins, outs, tmp, tb) && tb >= b.Bits(1)
    ensures Packed(a, b, ins, outs + [tmp % b.Base()], tmp / b.Base(), tb - b.Bits(1))
  {
    hide Value, Pow;
    var l, q, p := tmp % b.Base(), tmp / b.Base(), Pow(b.Base(), |outs|);
    ValueAppend(b.Base(), outs, l);
    UnitPow(b, |outs|);
    PowStep(b.Base(), |outs| + 1);
    PowAdd(2, b.Bits(1), tb - b.Bits(1));
    DrainSum(p, b.Base(), tmp);
  }

  lemma DrainSum(p: nat, base: nat, tmp: nat)
    requires base == 64 || base == 256
    ensures p * tmp == p * (tmp % base) + base * p * (tmp / base)
  {
    var l, q := tmp % base, tmp / base;
    assert tmp == l + base * q;
    FeedSum(0, p, l, base, q);
    assert p * base == base * p;
  }

  // ---------------------------------------------------------------------------------------
  // The codec object

  type Byte = b: nat | b < 256

  /** `rev` undoes the alphabet. */
  ghost predicate Inverse(cMap: seq<Byte>, rev: seq<nat>) {
    |rev| == 256 && forall i :: 0 <= i < |cMap| ==> rev[cMap[i]] == i
  }

  function Range(from: Byte, n: nat): (r: seq<Byte>)
    requires from + n <= 256
    ensures |r| == n
  {
    seq(n, i requires 0 <= i < n => from + i)
  }

  /** The symbols before shuffling: digits, lower case, upper case, underscore, hyphen. */
  function Symbols(): (r: seq<Byte>)
    ensures |r| == 64
  {
    Range('0' as int, 10) + Range('a' as int, 26) + Range('A' as int, 26) + ['_' as int, '-' as int]
  }

  lemma SymbolsDistinct()
    ensures Distinct(Symbols()) && forall i :: 0 <= i < 64 ==> Symbols()[i] < 128
  {
    var s := Symbols();
    forall i | 0 <= i < 64
      ensures s[i] == if i < 10 then 48 + i else if i < 36 then 87 + i else if i < 62 then 29 + i else if i == 62 then 95 else 45
    {
    }
  }

  const KEY: nat := 32

  lemma RemoveOneMultiset(s: seq<Byte>, off: nat)
    requires off < |s|
    ensures multiset(s[..off] + s[off + 1..]) + multiset{s[off]} == multiset(s)
  {
    assert s == s[..off] + [s[off]] + s[off + 1..];
  }

  /** Count on from the last removal, modulo what is left, and remove: the order in which the
      symbols come out. */
  function RemovalOrder(symbols: seq<Byte>, off: nat): (r: seq<Byte>)
    ensures |r| == |symbols|
    decreases |symbols|
  {
    if symbols == [] then []
    else
      var o := off % |symbols|;
      [symbols[o]] + RemovalOrder(symbols[..o] + symbols[o + 1..], o + 1)
  }

  /** Every symbol comes out exactly once. */
  lemma {:induction false} RemovalPermutes(symbols: seq<Byte>, off: nat)
    ensures multiset(RemovalOrder(symbols, off)) == multiset(symbols)
    decreases |symbols|
  {
    if symbols != [] {
      var o := off % |symbols|;
      RemoveOneMultiset(symbols, o);
      RemovalPermutes(symbols[..o] + symbols[o + 1..], o + 1);
    }
  }

  /** The next symbol out is new, and the rest of the order goes on from it. */
  lemma RemovalStep(res: seq<Byte>, off: nat, cMap: seq<Byte>, order: seq<Byte>)
    requires res != [] && cMap + RemovalOrder(res, off) == order && Distinct(order)
    ensures var o := off % |res|;
            && cMap + [res[o]] + RemovalOrder(res[..o] + res[o + 1..], o + 1) == order
            && forall i :: 0 <= i < |cMap| ==> cMap[i] != res[o]
  {
    hide RemovalOrder;
    var o := off % |res|;
    NextRemoved(res, off);
    var rest := RemovalOrder(res[..o] + res[o + 1..], o + 1);
    assert cMap + ([res[o]] + rest) == cMap + [res[o]] + rest;
    assert order[|cMap|] == res[o];
    assert forall i :: 0 <= i < |cMap| ==> cMap[i] == order[i];
  }

  lemma NextRemoved(res: seq<Byte>, off: nat)
    requires res != []
    ensures var o := off % |res|;
            RemovalOrder(res, off) == [res[o]] + RemovalOrder(res[..o] + res[o + 1..], o + 1)
  {}

  lemma DistinctByCount(s: seq<Byte>, t: seq<Byte>)
    requires Distinct(s) && multiset(s) == multiset(t)
    ensures Distinct(t)
  {
    forall i, j | 0 <= i < j < |t| ensures t[i] != t[j] {
      AtMostOnce(s, t[i]);
      TwicePresent(t, i, j);
    }
  }

  lemma {:induction false} AtMostOnce(s: seq<Byte>, x: Byte)
    requires Distinct(s)
    ensures multiset(s)[x] <= 1
  {
    if s != [] {
      var rest := s[1..];
      assert s == [s[0]] + rest;
      assert forall i :: 0 <= i < |rest| ==> rest[i] == s[i + 1];
      AtMostOnce(rest, x);
      assert s[0] !in rest;
    }
  }

  lemma TwicePresent(t: seq<Byte>, i: nat, j: nat)
    requires i < j < |t|
    ensures t[i] == t[j] ==> multiset(t)[t[i]] >= 2
  {
    assert t == t[..j] + [t[j]] + t[j + 1..];
    assert t[..j][i] in multiset(t[..j]);
  }

  // ---------------------------------------------------------------------------------------
  // The alphabet

  /** Every second symbol, from the first, and the others. */
  function Evens(t: seq<Byte>): (r: seq<Byte>)
    ensures |r| == (|t| + 1) / 2 && forall i :: 0 <= i < |r| ==> r[i] == t[2 * i]
  {
    seq((|t| + 1) / 2, i requires 0 <= i < (|t| + 1) / 2 => t[2 * i])
  }

  function Odds(t: seq<Byte>): (r: seq<Byte>)
    ensures |r| == |t| / 2 && forall i :: 0 <= i < |r| ==> r[i] == t[2 * i + 1]
  {
    seq(|t| / 2, i requires 0 <= i < |t| / 2 => t[2 * i + 1])
  }

  /** From a place on, the removal takes every second symbol up to the end. */
  lemma {:induction false} Sweep(pre: seq<Byte>, t: seq<Byte>)
    requires |t| % 2 == 0
    ensures RemovalOrder(pre + t, |pre|) == Evens(t) + RemovalOrder(pre + Odds(t), |pre| + |t| / 2)
    decreases |t|
  {
    hide RemovalOrder, Evens, Odds;
    if t == [] {
      assert pre + t == pre && pre + Odds(t) == pre;
      assert Evens(t) == [];
    } else {
      var pre', t' := pre + [t[1]], t[2..];
      NextRemoved(pre + t, |pre|);
      TakenOut(pre, t);
      Sweep(pre', t');
      PairOff(pre, t);
      Joined([t[0]], Evens(t'), RemovalOrder(pre' + Odds(t'), |pre'| + |t'| / 2));
    }
  }

  lemma TakenOut(pre: seq<Byte>, t: seq<Byte>)
    requires |t| >= 2
    ensures var list, o := pre + t, |pre|; o % |list| == o && list[o] == t[0] && list[..o] + list[o + 1..] == pre + [t[1]] + t[2..]
  {
    SmallMod(|pre|, |pre + t|);
    assert (pre + t)[..|pre|] == pre && (pre + t)[|pre| + 1..] == [t[1]] + t[2..];
  }

  lemma SmallMod(a: nat, n: nat)
    requires a < n
    ensures a % n == a
  {
    DivMod(n, a, 0);
  }

  lemma PairOff(pre: seq<Byte>, t: seq<Byte>)
    requires |t| >= 2
    ensures Evens(t) == [t[0]] + Evens(t[2..]) && pre + Odds(t) == pre + [t[1]] + Odds(t[2..])
  {
    hide Evens, Odds;
  }

  lemma Joined(a: seq<nat>, b: seq<nat>, c: seq<nat>)
    ensures a + (b + c) == a + b + c
  {}

  /** Behind the end it starts over. */
  lemma StartsOver(list: seq<Byte>)
    requires list != []
    ensures RemovalOrder(list, |list|) == RemovalOrder(list, 0)
  {
    NextRemoved(list, |list|);
    NextRemoved(list, 0);
  }

  lemma SweepAll(t: seq<Byte>)
    requires |t| % 2 == 0 && t != []
    ensures RemovalOrder(t, 0) == Evens(t) + RemovalOrder(Odds(t), 0)
  {
    hide RemovalOrder, Evens, Odds;
    NoPrefix(t);
    NoPrefix(Odds(t));
    Sweep([], t);
    assert RemovalOrder(Odds(t), |t| / 2) == RemovalOrder(Odds(t), 0) by { HalfLeft(t); }
  }

  lemma NoPrefix(t: seq<Byte>)
    ensures [] + t == t
  {}

  lemma HalfLeft(t: seq<Byte>)
    requires |t| >= 2
    ensures RemovalOrder(Odds(t), |t| / 2) == RemovalOrder(Odds(t), 0)
  {
    hide RemovalOrder;
    StartsOver(Odds(t));
  }

  /** The last three. */
  lemma LastThree(t: seq<Byte>)
    requires |t| == 3
    ensures RemovalOrder(t, 0) == [t[0], t[2], t[1]]
  {
    hide RemovalOrder;
    NextRemoved(t, 0);
    var u := t[..0] + t[1..];
    assert u == [t[1], t[2]];
    NextRemoved(u, 1);
    var v := u[..1] + u[2..];
    assert v == [t[1]];
    NextRemoved(v, 2);
    assert v[..0] + v[1..] == [];
    assert |RemovalOrder([], 1)| == 0;
  }

  /** What is left after each sweep: the first goes from the key on, the others over all that is left. */
  function Left(s: seq<Byte>, k: nat): (r: seq<Byte>)
    requires |s| == 64 && 1 <= k <= 5
    ensures |r| == if k == 1 then 48 else if k == 2 then 24 else if k == 3 then 12 else if k == 4 then 6 else 3
  {
    if k == 1 then s[..32] + Odds(s[32..]) else Odds(Left(s, k - 1))
  }

  /** What comes out from sweep `k` on, the first not counted. */
  function Sweeps(s: seq<Byte>, k: nat): (r: seq<Byte>)
    requires |s| == 64 && 1 <= k <= 5
    ensures |r| == |Left(s, k)|
    decreases 5 - k
  {
    if k == 5 then LastOut(Left(s, 5)) else Evens(Left(s, k)) + Sweeps(s, k + 1)
  }

  lemma OrderIsSwept(s: seq<Byte>)
    requires |s| == 64
    ensures RemovalOrder(s, 32) == Evens(s[32..]) + Sweeps(s, 1)
  {
    hide RemovalOrder, Evens, Odds;
    assert s[..32] + s[32..] == s;
    Sweep(s[..32], s[32..]);
    StartsOver(Left(s, 1));
    SweepsOut(s, 1);
  }

  lemma {:induction false} SweepsOut(s: seq<Byte>, k: nat)
    requires |s| == 64 && 1 <= k <= 5
    ensures RemovalOrder(Left(s, k), 0) == Sweeps(s, k)
    decreases 5 - k
  {
    hide RemovalOrder, Evens, Odds;
    if k == 5 {
      LastThree(Left(s, 5));
    } else {
      SweepAll(Left(s, k));
      SweepsOut(s, k + 1);
    }
  }

  function LastOut(t: seq<Byte>): (r: seq<Byte>)
    requires |t| == 3
  {
    [t[0], t[2], t[1]]
  }

  /** Where symbol `i` of the shuffled alphabet stood before. */
  function Shuffled(i: nat): nat {
    if i < 16 then 32 + 2 * i
    else if i < 32 then 2 * (i - 16)
    else if i < 40 then 33 + 4 * (i - 32)
    else if i < 48 then 1 + 4 * (i - 40)
    else if i < 52 then 35 + 8 * (i - 48)
    else if i < 56 then 3 + 8 * (i - 52)
    else if i < 58 then 39 + 16 * (i - 56)
    else if i < 60 then 7 + 16 * (i - 58)
    else if i == 60 then 47 else if i == 61 then 15 else if i == 62 then 63 else 31
  }

  lemma LeftAt(s: seq<Byte>, k: nat, j: nat)
    requires |s| == 64 && 1 <= k <= 5 && j < |Left(s, k)|
    ensures k == 1 ==> Left(s, 1)[j] == s[if j < 32 then j else 2 * j - 31]
    ensures k == 2 ==> Left(s, 2)[j] == s[if j < 16 then 2 * j + 1 else 4 * j - 29]
    ensures k == 3 ==> Left(s, 3)[j] == s[if j < 8 then 4 * j + 3 else 8 * j - 25]
    ensures k == 4 ==> Left(s, 4)[j] == s[if j < 4 then 8 * j + 7 else 16 * j - 17]
    ensures k == 5 ==> Left(s, 5)[j] == s[if j == 0 then 15 else if j == 1 then 31 else 63]
  {
    hide Evens, Odds;
    if k > 1 { LeftAt(s, k - 1, 2 * j + 1); }
  }

  lemma SweepsAt(s: seq<Byte>, k: nat, i: nat)
    requires |s| == 64 && 1 <= k < 5 && i < |Sweeps(s, k)|
    ensures var n := |Left(s, k)| / 2;
            Sweeps(s, k)[i] == if i < n then Left(s, k)[2 * i] else Sweeps(s, k + 1)[i - n]
  {
    hide Evens, Odds, Left;
  }

  lemma RemovedAt(s: seq<Byte>, i: nat)
    requires |s| == 64 && i < 64
    ensures Shuffled(i) < 64 && RemovalOrder(s, 32)[i] == s[Shuffled(i)]
  {
    hide RemovalOrder, Evens, Odds, Left, Sweeps;
    OrderIsSwept(s);
    if i >= 16 { SweptAt(s, i); }
  }

  lemma SweptAt(s: seq<Byte>, i: nat)
    requires |s| == 64 && 16 <= i < 64
    ensures Shuffled(i) < 64 && Sweeps(s, 1)[i - 16] == s[Shuffled(i)]
  {
    hide Evens, Odds, Left, Sweeps;
    SweepsAt(s, 1, i - 16);
    if i < 40 {
      LeftAt(s, 1, 2 * (i - 16));
    } else {
      SweepsAt(s, 2, i - 40);
      if i < 52 {
        LeftAt(s, 2, 2 * (i - 40));
      } else {
        SweptLate(s, i);
      }
    }
  }

  lemma SweptLate(s: seq<Byte>, i: nat)
    requires |s| == 64 && 52 <= i < 64
    ensures Shuffled(i) < 64 && Sweeps(s, 3)[i - 52] == s[Shuffled(i)]
  {
    hide Evens, Odds, Left;
    SweepsAt(s, 3, i - 52);
    if i < 58 {
      LeftAt(s, 3, 2 * (i - 52));
    } else {
      SweepsAt(s, 4, i - 58);
      if i < 61 { LeftAt(s, 4, 2 * (i - 58)); } else { LeftAt(s, 5, if i == 61 then 0 else if i == 62 then 2 else 1); }
    }
  }

  /** The digits, the lower-case and the upper-case letters, underscore and hyphen. */
  lemma SymbolAt(j: nat)
    requires j < 64
    ensures Symbols()[j] == if j < 10 then '0' as int + j else if j < 36 then 'a' as int + (j - 10)
                            else if j < 62 then 'A' as int + (j - 36) else if j == 62 then '_' as int else '-' as int
  {
  }

  /** The alphabet, in the order of the symbol numbers. */
  function Alphabet(): (r: string)
    ensures |r| == 64
  {
    "wyACEGIKMOQSUWY_" + "02468acegikmoqsu" + "xBFJNRVZ159dhlpt" + "zHPX3bjrDT7nLf-v"
  }

  lemma AlphabetFirst(i: nat)
    requires i < 16
    ensures "wyACEGIKMOQSUWY_"[i] as int == Symbols()[Shuffled(i)]
  {
    hide Symbols;
    SymbolAt(Shuffled(i));
    var s := "wyACEGIKMOQSUWY_";
    assert s[0] == 'w' && s[1] == 'y' && s[2] == 'A' && s[3] == 'C' && s[4] == 'E' && s[5] == 'G' && s[6] == 'I' && s[7] == 'K';
    assert s[8] == 'M' && s[9] == 'O' && s[10] == 'Q' && s[11] == 'S' && s[12] == 'U' && s[13] == 'W' && s[14] == 'Y' && s[15] == '_';
  }

  lemma AlphabetSecond(i: nat)
    requires 16 <= i < 32
    ensures "02468acegikmoqsu"[i - 16] as int == Symbols()[Shuffled(i)]
  {
    hide Symbols;
    SymbolAt(Shuffled(i));
    var s := "02468acegikmoqsu";
    assert s[0] == '0' && s[1] == '2' && s[2] == '4' && s[3] == '6' && s[4] == '8' && s[5] == 'a' && s[6] == 'c' && s[7] == 'e';
    assert s[8] == 'g' && s[9] == 'i' && s[10] == 'k' && s[11] == 'm' && s[12] == 'o' && s[13] == 'q' && s[14] == 's' && s[15] == 'u';
  }

  lemma AlphabetThird(i: nat)
    requires 32 <= i < 48
    ensures "xBFJNRVZ159dhlpt"[i - 32] as int == Symbols()[Shuffled(i)]
  {
    hide Symbols;
    SymbolAt(Shuffled(i));
    var s := "xBFJNRVZ159dhlpt";
    assert s[0] == 'x' && s[1] == 'B' && s[2] == 'F' && s[3] == 'J' && s[4] == 'N' && s[5] == 'R' && s[6] == 'V' && s[7] == 'Z';
    assert s[8] == '1' && s[9] == '5' && s[10] == '9' && s[11] == 'd' && s[12] == 'h' && s[13] == 'l' && s[14] == 'p' && s[15] == 't';
  }

  lemma AlphabetFourth(i: nat)
    requires 48 <= i < 64
    ensures "zHPX3bjrDT7nLf-v"[i - 48] as int == Symbols()[Shuffled(i)]
  {
    hide Symbols;
    SymbolAt(Shuffled(i));
    var s := "zHPX3bjrDT7nLf-v";
    assert s[0] == 'z' && s[1] == 'H' && s[2] == 'P' && s[3] == 'X' && s[4] == '3' && s[5] == 'b' && s[6] == 'j' && s[7] == 'r';
    assert s[8] == 'D' && s[9] == 'T' && s[10] == '7' && s[11] == 'n' && s[12] == 'L' && s[13] == 'f' && s[14] == '-' && s[15] == 'v';
  }

  /** The removal loop, from the symbols and the key of the program, yields this alphabet. */
  lemma RemovalIsAlphabet(i: nat)
    requires i < 64
    ensures RemovalOrder(Symbols(), KEY)[i] == Alphabet()[i] as int
  {
    hide RemovalOrder, Symbols, Shuffled;
    RemovedAt(Symbols(), i);
    if i < 16 { AlphabetFirst(i); }
    else if i < 32 { AlphabetSecond(i); }
    else if i < 48 { AlphabetThird(i); }
    else { AlphabetFourth(i); }
  }

  class Codec {
    var cMap: seq<Byte>
    const revMap: array<nat>

    /** The alphabet is built: a permutation of the symbols, undone by the reverse map. */
    ghost predicate Ready()
      reads this, revMap
    {
      && cMap == RemovalOrder(Symbols(), KEY) && multiset(cMap) == multiset(Symbols()) && Inverse(cMap, revMap[..])
      && forall i :: 0 <= i < 64 ==> cMap[i] == Alphabet()[i] as int
    }

    ghost predicate Valid()
      reads this, revMap
    {
      && revMap.Length == 256 && (forall c :: 0 <= c < 256 ==> revMap[c] < 64) && (cMap == [] || Ready())
    }

    constructor ()
      ensures Valid() && cMap == [] && fresh(revMap)
    {
      cMap := [];
      revMap := new nat[256](_ => 0);
    }

    /** The removal loop of `bit64_makeIndex`, for any distinct symbols and any starting key. */
    method Shuffle(symbols: seq<Byte>, key: nat)
      requires revMap.Length == 256 && Distinct(symbols) && cMap == []
      modifies this, revMap
      ensures cMap == RemovalOrder(symbols, key) && multiset(cMap) == multiset(symbols) && Inverse(cMap, revMap[..])
      ensures forall c :: 0 <= c < 256 ==> revMap[c] == old(revMap[c]) || revMap[c] < |symbols|
    {
      hide RemovalOrder, Distinct;
      ghost var order := RemovalOrder(symbols, key);
      RemovalPermutes(symbols, key);
      DistinctByCount(symbols, order);
      var res, off: nat := symbols, key;
      while res != []
        invariant cMap + RemovalOrder(res, off) == order
        invariant forall i :: 0 <= i < |cMap| ==> revMap[cMap[i]] == i
        invariant forall c :: 0 <= c < 256 ==> revMap[c] == old(revMap[c]) || revMap[c] < |cMap|
        decreases |res|
      {
        RemovalStep(res, off, cMap, order);
        off := off % |res|;
        var ch := res[off];
        res := res[..off] + res[off + 1..];
        off := off + 1;
        revMap[ch] := |cMap|;
        cMap := cMap + [ch];
      }
    }

    method MakeIndex()
      requires Valid() && cMap == []
      modifies this, revMap
      ensures Valid() && Ready()
    {
      SymbolsDistinct();
      Shuffle(Symbols(), KEY);
      forall i | 0 <= i < 64 ensures cMap[i] == Alphabet()[i] as int { RemovalIsAlphabet(i); }
    }

    method Hex64(num: int) returns (symbol: Byte)
      requires Valid()
      modifies this, revMap
      ensures Valid() && (old(cMap) != [] ==> cMap == old(cMap))
      ensures if 0 <= num < 64 then Ready() && symbol == cMap[num] else symbol == 0
    {
      if 0 <= num < 64 {
        if cMap == [] {
          MakeIndex();
        }
        return cMap[num];
      }
      return 0;
    }

    method Hex64Rev(ch: Byte) returns (num: nat)
      requires Valid()
      modifies this, revMap
      ensures Valid() && Ready() && (old(cMap) != [] ==> cMap == old(cMap) && revMap[..] == old(revMap[..]))
      ensures num == revMap[ch] && num < 64
    {
      if cMap == [] {
        MakeIndex();
      }
      return revMap[ch];
    }

    /** Bytes in, symbols out, through the accumulator. */
    method Encode(buffer: seq<Byte>) returns (result: seq<Byte>)
      requires Valid()
      modifies this, revMap
      ensures Valid() && |result| == SymbolCount(|buffer|)
      ensures buffer != [] ==> Ready() && forall i :: 0 <= i < |result| ==> result[i] == cMap[Encoded(buffer)[i]]
      ensures Written(buffer, result)
    {
      hide Value, Pow, Encoded, RemovalOrder, Symbols, Packed, Spells, Inverse, Alphabet;
      result := [];
      ghost var outs: seq<nat> := [];
      var tb: int, tmp: nat := 0, 0;
      PackedEmpty(Octet, Symbol);
      SpellsNothing(cMap);
      var i := 0;
      while i < |buffer|
        invariant 0 <= i <= |buffer| && Valid() && (i > 0 ==> Ready()) && 0 <= tb < 6
        invariant Packed(Octet, Symbol, buffer[..i], outs, tmp, tb) && Spells(result, cMap, outs)
      {
        assert buffer[..i + 1] == buffer[..i] + [buffer[i]];
        FeedKeeps(Octet, Symbol, buffer[..i], outs, tmp, tb, buffer[i]);
        tmp := tmp + Pow(2, tb) * buffer[i];
        tb := tb + 8;
        i := i + 1;
        while tb >= 6
          invariant Valid() && 0 <= tb < 14 && (tb < 8 ==> Ready())
          invariant Packed(Octet, Symbol, buffer[..i], outs, tmp, tb) && Spells(result, cMap, outs)
        {
          DrainKeeps(Octet, Symbol, buffer[..i], outs, tmp, tb);
          var l := tmp % 64;
          tmp := tmp / 64;
          tb := tb - 6;
          ghost var cMap' := cMap;
          var symbol := Hex64(l);
          SpellsAppend(result, cMap', outs, cMap, l);
          outs := outs + [l];
          result := result + [symbol];
        }
      }
      assert buffer[..i] == buffer;
      if tb == 0 { PackedExactly(Octet, Symbol, buffer, outs, tmp); }
      while tb > 0
        invariant Valid() && Spells(result, cMap, outs) && -6 < tb < 6 && (buffer != [] ==> Ready())
        invariant tb > 0 ==> Packed(Octet, Symbol, buffer, outs, tmp, tb)
        invariant tb <= 0 ==> DigitsOk(64, outs) && |outs| == SymbolCount(|buffer|) && Value(64, outs) == Value(256, buffer)
        decreases tb
      {
        PackedPadded(buffer, outs, tmp, tb);
        var l := tmp % 64;
        tmp := tmp / 64;
        tb := tb - 6;
        ghost var cMap' := cMap;
        var symbol := Hex64(l);
        SpellsAppend(result, cMap', outs, cMap, l);
        outs := outs + [l];
        result := result + [symbol];
      }
      SpellsAll(result, cMap, outs);
      EncodedIs(buffer, outs);
      WrittenSo(buffer, cMap, result);
    }

    /** Symbols in, bytes out; bits left over at the end make one more byte unless they are
        zero. */
    method Decode(buffer: seq<Byte>) returns (result: seq<Byte>)
      requires Valid()
      modifies this, revMap
      ensures Valid() && (old(cMap) != [] ==> cMap == old(cMap) && revMap[..] == old(revMap[..]))
      ensures buffer == [] ==> result == []
      ensures buffer != [] ==> Ready() && result == Decoded(Indices(buffer, revMap[..]))
      ensures buffer != [] ==> result == Octets(Indices(buffer, revMap[..]))
    {
      hide Value, Pow, Decoded, RemovalOrder, Symbols, Inverse, Packed, Alphabet, Octets;
      result := [];
      var tb: int, tmp: nat := 0, 0;
      PackedEmpty(Symbol, Octet);
      if buffer == [] { return; }
      var _ := Hex64Rev(buffer[0]);
      ghost var indices := Indices(buffer, revMap[..]);
      ghost var map_, rev := cMap, revMap[..];
      var i := 0;
      while i < |buffer|
        invariant 0 <= i <= |buffer| && Valid() && Ready() && 0 <= tb < 8 && cMap == map_ && revMap[..] == rev
        invariant Packed(Symbol, Octet, indices[..i], result, tmp, tb)
      {
        assert indices[..i + 1] == indices[..i] + [indices[i]];
        var index := Hex64Rev(buffer[i]);
        assert index == indices[i];
        FeedKeeps(Symbol, Octet, indices[..i], result, tmp, tb, index);
        tmp := tmp + Pow(2, tb) * index;
        tb := tb + 6;
        i := i + 1;
        while tb >= 8
          invariant 0 <= tb < 14 && Packed(Symbol, Octet, indices[..i], result, tmp, tb)
          modifies {}
        {
          DrainKeeps(Symbol, Octet, indices[..i], result, tmp, tb);
          var l := tmp % 256;
          tmp := tmp / 256;
          tb := tb - 8;
          result := result + [l];
        }
      }
      assert indices[..i] == indices;
      DecodedIs(indices, result, tmp, tb);
      DecodedOctets(indices);
      while tb > 0
        invariant -8 < tb < 8
        invariant tb > 0 ==> tmp < 256 && Decoded(indices) == result + if tmp > 0 then [tmp] else []
        invariant tb <= 0 ==> Decoded(indices) == result
        modifies {}
        decreases tb
      {
        var l := tmp % 256;
        tmp := tmp / 256;
        tb := tb - 8;
        if l > 0 {
          result := result + [l];
        }
      }
    }

    /** Whatever is encoded decodes to itself. */
    method RoundTrip(buffer: seq<Byte>) returns (result: seq<Byte>)
      requires Valid()
      modifies this, revMap
      ensures Valid() && result == buffer
    {
      hide Encoded, Decoded, RemovalOrder, Symbols, Alphabet;
      var text := Encode(buffer);
      result := Decode(text);
      if buffer != [] {
        DecodeEncode(buffer);
        EncodedShape(buffer);
        IndicesOfSpelled(text, cMap, revMap[..], Encoded(buffer));
      }
    }
  }

  /** What is written for a byte string: for three bytes four symbols, six bits each from the lowest up, and
      for one or two bytes at the end two or three. */
  function Sextets(bytes: seq<nat>): (r: seq<nat>) {
    if bytes == [] then []
    else if |bytes| == 1 then [bytes[0] % 64, bytes[0] / 64]
    else if |bytes| == 2 then [bytes[0] % 64, bytes[0] / 64 + 4 * (bytes[1] % 16), bytes[1] / 16]
    else
      [bytes[0] % 64, bytes[0] / 64 + 4 * (bytes[1] % 16), bytes[1] / 16 + 16 * (bytes[2] % 4), bytes[2] / 4]
      + Sextets(bytes[3..])
  }

  lemma {:induction false} DigitsSplit(base: nat, v: nat, w: nat, j: nat, k: nat)
    requires base > 0 && v < Pow(base, j)
    ensures Digits(base, v + Pow(base, j) * w, j + k) == Digits(base, v, j) + Digits(base, w, k)
    decreases j
  {
    if j == 0 {
      assert v == 0 && Pow(base, 0) == 1;
    } else {
      var p := Pow(base, j - 1);
      var q, r := v / base, v % base;
      assert v + base * p * w == r + base * (q + p * w) by { Distribute(base, q, p, w); }
      DivMod(base, r, q + p * w);
      QuotientBound(v, base, p);
      DigitsSplit(base, q, w, j - 1, k);
    }
  }

  lemma QuotientBound(v: nat, base: nat, p: nat)
    requires base > 0 && v < base * p
    ensures v / base < p
  {
    var q := v / base;
    if q >= p { MulMono(base, p, q); }
  }

  lemma OneByte(a: nat)
    requires a < 256
    ensures Encoded([a]) == [a % 64, a / 64]
  {
    assert Value(256, [a]) == a by { assert [a][1..] == []; }
    DigitsTwo(a);
  }

  lemma DigitsTwo(n: nat)
    requires n < 64 * 64
    ensures Digits(64, n, 2) == [n % 64, n / 64]
  {
    assert Digits(64, n / 64, 1) == [n / 64 % 64] + Digits(64, n / 64 / 64, 0);
  }

  lemma TwoBytes(a: nat, b: nat)
    requires a < 256 && b < 256
    ensures Encoded([a, b]) == [a % 64, a / 64 + 4 * (b % 16), b / 16]
  {
    hide Digits;
    ValueTwo(a, b);
    var n, n1 := a + 256 * b, a / 64 + 4 * b;
    assert n == a % 64 + 64 * n1;
    DivMod(64, a % 64, n1);
    assert n1 == (a / 64 + 4 * (b % 16)) + 64 * (b / 16);
    DivMod(64, a / 64 + 4 * (b % 16), b / 16);
    DigitsStep(64, n, 3);
    DigitsTwo(n1);
    var d := Digits(64, n, 3);
    assert d == [d[0]] + d[1..];
  }

  lemma ValueTwo(a: nat, b: nat)
    ensures Value(256, [a, b]) == a + 256 * b
  {
    assert [a, b][1..] == [b] && [b][1..] == [];
    assert Value(256, [b]) == b + 256 * Value(256, []);
  }

  lemma ThreeBytes(a: nat, b: nat, c: nat)
    requires a < 256 && b < 256 && c < 256
    ensures Digits(64, a + 256 * (b + 256 * c), 4) == [a % 64, a / 64 + 4 * (b % 16), b / 16 + 16 * (c % 4), c / 4]
  {
    hide Digits;
    var n1, n2 := a / 64 + 4 * (b + 256 * c), b / 16 + 16 * c;
    var n := a + 256 * (b + 256 * c);
    assert n == a % 64 + 64 * n1;
    DivMod(64, a % 64, n1);
    assert n1 == (a / 64 + 4 * (b % 16)) + 64 * n2;
    DivMod(64, a / 64 + 4 * (b % 16), n2);
    LowBits(b, c);
    DigitsStep(64, n, 4);
    DigitsStep(64, n1, 3);
    DigitsTwo(n2);
    var d, e := Digits(64, n, 4), Digits(64, n1, 3);
    assert d == [d[0]] + d[1..] && e == [e[0]] + e[1..];
  }

  lemma LowBits(b: nat, c: nat)
    requires b < 256 && c < 256
    ensures var n := b / 16 + 16 * c; n < 4096 && n % 64 == b / 16 + 16 * (c % 4) && n / 64 == c / 4
  {
    assert b / 16 + 16 * c == (b / 16 + 16 * (c % 4)) + 64 * (c / 4);
    DivMod(64, b / 16 + 16 * (c % 4), c / 4);
  }

  /** The encoding, group by group. */
  lemma {:induction false} EncodedSextets(bytes: seq<nat>)
    requires DigitsOk(256, bytes)
    ensures Encoded(bytes) == Sextets(bytes)
  {
    hide Digits, Value, Pow;
    if bytes == [] {
      EncodedNone();
    } else if |bytes| == 1 {
      assert bytes == [bytes[0]];
      OneByte(bytes[0]);
    } else if |bytes| == 2 {
      assert bytes == [bytes[0], bytes[1]];
      TwoBytes(bytes[0], bytes[1]);
    } else {
      var a, b, c, rest := bytes[0], bytes[1], bytes[2], bytes[3..];
      EncodedSextets(rest);
      ValueThree(bytes);
      ThreeBytes(a, b, c);
      PowFour();
      DigitsSplit(64, a + 256 * (b + 256 * c), Value(256, rest), 4, SymbolCount(|rest|));
      GroupCount(|bytes|);
    }
  }

  lemma EncodedNone()
    ensures Encoded([]) == []
  {}

  lemma ValueThree(bytes: seq<nat>)
    requires |bytes| >= 3
    ensures Value(256, bytes) == bytes[0] + 256 * (bytes[1] + 256 * bytes[2]) + 16777216 * Value(256, bytes[3..])
  {
    assert bytes[1..][1..] == bytes[2..] && bytes[2..][1..] == bytes[3..];
    assert Value(256, bytes[1..]) == bytes[1] + 256 * Value(256, bytes[2..]);
    assert Value(256, bytes[2..]) == bytes[2] + 256 * Value(256, bytes[3..]);
  }

  lemma PowFour()
    ensures Pow(64, 4) == 16777216
  {
    assert Pow(64, 1) == 64 && Pow(64, 2) == 4096 && Pow(64, 3) == 262144;
  }

  lemma GroupCount(n: nat)
    requires n >= 3
    ensures SymbolCount(n) == 4 + SymbolCount(n - 3)
  {}

  /** What is read: three bytes from four symbols; at the end the whole bytes, and one more for bits left
      over, unless they are all zero. */
  function Octets(t: seq<nat>): (r: seq<nat>) {
    if t == [] then []
    else if |t| == 1 then if t[0] > 0 then [t[0]] else []
    else if |t| == 2 then [t[0] + 64 * (t[1] % 4)] + if t[1] / 4 > 0 then [t[1] / 4] else []
    else if |t| == 3 then
      [t[0] + 64 * (t[1] % 4), t[1] / 4 + 16 * (t[2] % 16)] + if t[2] / 16 > 0 then [t[2] / 16] else []
    else [t[0] + 64 * (t[1] % 4), t[1] / 4 + 16 * (t[2] % 16), t[2] / 16 + 4 * t[3]] + Octets(t[4..])
  }

  lemma {:induction false} RestSplit(base: nat, v: nat, w: nat, j: nat, k: nat)
    requires base > 0 && v < Pow(base, j)
    ensures Rest(base, v + Pow(base, j) * w, j + k) == Rest(base, w, k)
    decreases j
  {
    if j == 0 {
      assert v == 0 && Pow(base, 0) == 1;
    } else {
      var p := Pow(base, j - 1);
      var q, r := v / base, v % base;
      assert v + base * p * w == r + base * (q + p * w) by { Distribute(base, q, p, w); }
      DivMod(base, r, q + p * w);
      QuotientBound(v, base, p);
      RestSplit(base, q, w, j - 1, k);
    }
  }

  lemma BytesOf(n: nat, x: nat, y: nat)
    requires n == x + 256 * y && x < 256
    ensures Digits(256, n, 1) == [x] && Rest(256, n, 1) == y
  {
    DivMod(256, x, y);
    assert Digits(256, n / 256, 0) == [];
  }

  lemma BytesTwo(n: nat, x: nat, y: nat, z: nat)
    requires n == x + 256 * (y + 256 * z) && x < 256 && y < 256
    ensures Digits(256, n, 2) == [x, y] && Rest(256, n, 2) == z
  {
    hide Digits, Rest;
    DivMod(256, x, y + 256 * z);
    DigitsStep(256, n, 2);
    BytesOf(y + 256 * z, y, z);
    var d := Digits(256, n, 2);
    assert d == [d[0]] + d[1..];
  }

  lemma BytesThree(n: nat, x: nat, y: nat, z: nat)
    requires n == x + 256 * (y + 256 * z) && x < 256 && y < 256 && z < 256
    ensures Digits(256, n, 3) == [x, y, z]
  {
    hide Digits, Rest;
    DivMod(256, x, y + 256 * z);
    DigitsStep(256, n, 3);
    BytesTwo(y + 256 * z, y, z, 0);
    var d := Digits(256, n, 3);
    assert d == [d[0]] + d[1..];
  }

  lemma ValueUpToThree(t: seq<nat>)
    requires |t| <= 3
    ensures Value(64, t) == (if |t| > 0 then t[0] else 0) + 64 * ((if |t| > 1 then t[1] else 0) + 64 * if |t| > 2 then t[2] else 0)
  {
    if |t| > 0 { ValueCons(64, t); }
    if |t| > 1 { ValueCons(64, t[1..]); assert t[1..][1..] == t[2..]; }
    if |t| > 2 { ValueCons(64, t[2..]); }
  }

  lemma ShortOctets(t: seq<nat>)
    requires DigitsOk(64, t) && |t| <= 3
    ensures Decoded(t) == Octets(t)
  {
    hide Decoded, Octets;
    if |t| == 0 {
      NoOctets();
    } else if |t| == 1 {
      assert t == [t[0]];
      OneLeft(t[0]);
    } else if |t| == 2 {
      assert t == [t[0], t[1]];
      TwoLeft(t[0], t[1]);
    } else {
      assert t == [t[0], t[1], t[2]];
      ThreeLeft(t[0], t[1], t[2]);
    }
  }

  lemma NoOctets()
    ensures Decoded([]) == Octets([])
  {}

  lemma OneLeft(a: nat)
    ensures Decoded([a]) == Octets([a])
  {
    hide Value, Digits, Rest;
    ValueUpToThree([a]);
    NothingTaken(a);
  }

  lemma TwoLeft(a: nat, b: nat)
    requires a < 64 && b < 64
    ensures Decoded([a, b]) == Octets([a, b])
  {
    hide Value, Digits, Rest;
    ValueUpToThree([a, b]);
    TwoSymbols(a, b);
  }

  lemma ThreeLeft(a: nat, b: nat, c: nat)
    requires a < 64 && b < 64 && c < 64
    ensures Decoded([a, b, c]) == Octets([a, b, c])
  {
    hide Value, Digits, Rest;
    ValueUpToThree([a, b, c]);
    ThreeSymbols(a, b, c);
  }

  lemma TwoSymbols(a: nat, b: nat)
    requires a < 64 && b < 64
    ensures var n := a + 64 * b; Digits(256, n, 1) == [a + 64 * (b % 4)] && Rest(256, n, 1) == b / 4
  {
    hide Digits, Rest;
    BytesOf(a + 64 * b, a + 64 * (b % 4), b / 4);
  }

  lemma ThreeSymbols(a: nat, b: nat, c: nat)
    requires a < 64 && b < 64 && c < 64
    ensures var n := a + 64 * (b + 64 * c);
            Digits(256, n, 2) == [a + 64 * (b % 4), b / 4 + 16 * (c % 16)] && Rest(256, n, 2) == c / 16
  {
    hide Digits, Rest;
    BytesTwo(a + 64 * (b + 64 * c), a + 64 * (b % 4), b / 4 + 16 * (c % 16), c / 16);
  }

  lemma NothingTaken(n: nat)
    ensures Digits(256, n, 0) == [] && Rest(256, n, 0) == n
  {}

  lemma ValueFour(t: seq<nat>)
    requires |t| >= 4
    ensures Value(64, t) == t[0] + 64 * (t[1] + 64 * (t[2] + 64 * t[3])) + 16777216 * Value(64, t[4..])
  {
    hide Value;
    ValueCons(64, t);
    ValueCons(64, t[1..]);
    ValueCons(64, t[2..]);
    ValueCons(64, t[3..]);
    assert t[1..][1..] == t[2..] && t[2..][1..] == t[3..] && t[3..][1..] == t[4..];
  }

  lemma PowThree()
    ensures Pow(256, 3) == 16777216
  {
    assert Pow(256, 1) == 256 && Pow(256, 2) == 65536;
  }

  lemma FourSymbols(a: nat, b: nat, c: nat, d: nat)
    requires a < 64 && b < 64 && c < 64 && d < 64
    ensures var n := a + 64 * (b + 64 * (c + 64 * d));
            n < 16777216 && Digits(256, n, 3) == [a + 64 * (b % 4), b / 4 + 16 * (c % 16), c / 16 + 4 * d]
  {
    hide Digits;
    var n := a + 64 * (b + 64 * (c + 64 * d));
    var x, y, z := a + 64 * (b % 4), b / 4 + 16 * (c % 16), c / 16 + 4 * d;
    assert n == x + 256 * (y + 256 * z);
    BytesThree(n, x, y, z);
  }

  lemma ByteCount(m: nat)
    requires m >= 4
    ensures 6 * m / 8 == 3 + 6 * (m - 4) / 8
  {}

  /** The decoding, group by group. */
  lemma {:induction false} DecodedOctets(t: seq<nat>)
    requires DigitsOk(64, t)
    ensures Decoded(t) == Octets(t)
  {
    hide Decoded;
    if |t| <= 3 {
      ShortOctets(t);
    } else {
      DecodedOctets(t[4..]);
      FirstOctets(t);
    }
  }

  lemma FirstOctets(t: seq<nat>)
    requires DigitsOk(64, t) && |t| >= 4
    ensures Decoded(t) == [t[0] + 64 * (t[1] % 4), t[1] / 4 + 16 * (t[2] % 16), t[2] / 16 + 4 * t[3]] + Decoded(t[4..])
  {
    hide Value, Digits, Rest, Pow;
    var rest := t[4..];
    var n := Value(64, rest);
    var k := 6 * |rest| / 8;
    PowThree();
    ByteCount(|t|);
    FourSymbols(t[0], t[1], t[2], t[3]);
    Splits(t, n, k);
    Joined(Digits(256, t[0] + 64 * (t[1] + 64 * (t[2] + 64 * t[3])), 3), Digits(256, n, k),
           if Rest(256, n, k) > 0 then [Rest(256, n, k)] else []);
  }

  lemma Splits(t: seq<nat>, n: nat, k: nat)
    requires DigitsOk(64, t) && |t| >= 4 && n == Value(64, t[4..])
    ensures var v := t[0] + 64 * (t[1] + 64 * (t[2] + 64 * t[3]));
            && Digits(256, Value(64, t), 3 + k) == Digits(256, v, 3) + Digits(256, n, k)
            && Rest(256, Value(64, t), 3 + k) == Rest(256, n, k)
  {
    hide Value, Digits, Rest, Pow;
    ValueFour(t);
    PowThree();
    FourSymbols(t[0], t[1], t[2], t[3]);
    var v := t[0] + 64 * (t[1] + 64 * (t[2] + 64 * t[3]));
    DigitsSplit(256, v, n, 3, k);
    RestSplit(256, v, n, 3, k);
  }

  /** The text of a byte string, symbol by symbol. */
  ghost predicate Written(bytes: seq<nat>, text: seq<Byte>) {
    && |text| == |Sextets(bytes)|
    && forall i :: 0 <= i < |text| ==> Sextets(bytes)[i] < 64 && text[i] == Alphabet()[Sextets(bytes)[i]] as int
  }

  lemma WrittenSo(bytes: seq<Byte>, cMap: seq<Byte>, text: seq<Byte>)
    requires |text| == |Encoded(bytes)|
    requires bytes != [] ==> |cMap| == 64 && forall i :: 0 <= i < 64 ==> cMap[i] == Alphabet()[i] as int
    requires forall i :: 0 <= i < |text| ==> Encoded(bytes)[i] < |cMap| && text[i] == cMap[Encoded(bytes)[i]]
    ensures Written(bytes, text)
  {
    hide Encoded, Alphabet;
    EncodedSextets(bytes);
    EncodedShape(bytes);
    if bytes == [] { EncodedNone(); }
  }

  /** The symbols of the given indices. */
  ghost predicate Spells(result: seq<Byte>, cMap: seq<Byte>, outs: seq<nat>) {
    |result| == |outs| && forall i :: 0 <= i < |outs| ==> outs[i] < |cMap| && result[i] == cMap[outs[i]]
  }

  function Indices(buffer: seq<Byte>, rev: seq<nat>): (r: seq<nat>)
    requires |rev| == 256
    ensures |r| == |buffer| && forall i :: 0 <= i < |r| ==> r[i] == rev[buffer[i]]
  {
    seq(|buffer|, i requires 0 <= i < |buffer| => rev[buffer[i]])
  }

  lemma IndicesOfSpelled(text: seq<Byte>, cMap: seq<Byte>, rev: seq<nat>, outs: seq<nat>)
    requires Inverse(cMap, rev) && |text| == |outs|
    requires forall i :: 0 <= i < |outs| ==> outs[i] < |cMap| && text[i] == cMap[outs[i]]
    ensures Indices(text, rev) == outs
  {
  }

  lemma EncodedShape(bytes: seq<nat>)
    ensures |Encoded(bytes)| == SymbolCount(|bytes|) && DigitsOk(64, Encoded(bytes))
    ensures bytes != [] ==> SymbolCount(|bytes|) > 0
  {
  }

  lemma SpellsAppend(result: seq<Byte>, cMap: seq<Byte>, outs: seq<nat>, cMap': seq<Byte>, l: nat)
    requires Spells(result, cMap, outs) && (cMap != [] ==> cMap' == cMap) && l < |cMap'|
    ensures Spells(result + [cMap'[l]], cMap', outs + [l])
  {
  }

  lemma SpellsAll(result: seq<Byte>, cMap: seq<Byte>, outs: seq<nat>)
    requires Spells(result, cMap, outs)
    ensures |result| == |outs| && forall i :: 0 <= i < |outs| ==> outs[i] < |cMap| && result[i] == cMap[outs[i]]
  {
  }

  lemma SpellsNothing(cMap: seq<Byte>)
    ensures Spells([], cMap, [])
  {
  }

  lemma PackedEmpty(a: Unit, b: Unit)
    ensures Packed(a, b, [], [], 0, 0)
  {
  }

  lemma PackedExactly(a: Unit, b: Unit, ins: seq<nat>, outs: seq<nat>, tmp: nat)
    requires Packed(a, b, ins, outs, tmp, 0)
    ensures tmp == 0 && Value(b.Base(), outs) == Value(a.Base(), ins) && DigitsOk(b.Base(), outs)
    ensures a.Octet? && b.Symbol? ==> |outs| == SymbolCount(|ins|)
  {
    hide Value;
    assert Pow(2, 0) == 1;
    if a.Octet? && b.Symbol? { CountExact(|ins|, |outs|); }
  }

  lemma CountExact(n: nat, m: nat)
    requires 8 * n == 6 * m
    ensures m == SymbolCount(n)
  {}

  /** The last symbol takes the bits that are left, padded with zeros. */
  lemma PackedPadded(ins: seq<nat>, outs: seq<nat>, tmp: nat, tb: nat)
    requires Packed(Octet, Symbol, ins, outs, tmp, tb) && 0 < tb < 6
    ensures tmp < 64 && DigitsOk(64, outs + [tmp % 64]) && |outs| + 1 == SymbolCount(|ins|)
    ensures Value(64, outs + [tmp % 64]) == Value(256, ins)
  {
    hide Value, Pow, SymbolCount;
    Powers();
    PowGrows(tb, 6);
    ValueAppend(64, outs, tmp);
    CountPadded(|ins|, |outs|, tb);
  }

  lemma CountPadded(n: nat, m: nat, tb: nat)
    requires 8 * n == 6 * m + tb && 0 < tb < 6
    ensures m + 1 == SymbolCount(n)
  {}

  lemma EncodedIs(bytes: seq<Byte>, outs: seq<nat>)
    requires DigitsOk(64, outs) && |outs| == SymbolCount(|bytes|) && Value(64, outs) == Value(256, bytes)
    ensures outs == Encoded(bytes)
  {
    DigitsOfValue(64, outs, 0);
  }

  lemma DecodedIs(symbols: seq<nat>, outs: seq<nat>, tmp: nat, tb: nat)
    requires Packed(Symbol, Octet, symbols, outs, tmp, tb) && tb < 8
    ensures Decoded(symbols) == outs + (if tmp > 0 then [tmp] else []) && tmp < 256 && (tb == 0 ==> tmp == 0)
  {
    hide Value, Pow, Digits, Rest;
    Powers();
    PowGrows(tb, 8);
    PowZero();
    WholeBytes(|symbols|, |outs|, tb);
    DigitsOfValue(256, outs, tmp);
  }

  lemma PowZero()
    ensures Pow(2, 0) == 1
  {}

  lemma WholeBytes(n: nat, m: nat, tb: nat)
    requires 6 * n == 8 * m + tb && tb < 8
    ensures 6 * n / 8 == m
  {}
}
