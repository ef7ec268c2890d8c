/** Numbers and their digits in a base, least significant first. */
module Bit64Numbers {

  function Pow(base: nat, k: nat): (p: nat)
    requires base > 0
    ensures p > 0
  {
    if k == 0 then 1 else base * Pow(base, k - 1)
  }

  ghost predicate DigitsOk(base: nat, s: seq<nat>) {
    forall i :: 0 <= i < |s| ==> s[i] < base
  }

  /** The number with the given digits, least significant first. */
  function Value(base: nat, s: seq<nat>): (v: nat)
    requires base > 0
  {
    if s == [] then 0 else s[0] + base * Value(base, s[1..])
  }

  /** The `k` lowest digits of a number. */
  function Digits(base: nat, n: nat, k: nat): (s: seq<nat>)
    requires base > 0
    ensures |s| == k && DigitsOk(base, s)
    decreases k
  {
    if k == 0 then [] else [n % base] + Digits(base, n / base, k - 1)
  }

  /** What is left of a number without its `k` lowest digits. */
  function Rest(base: nat, n: nat, k: nat): nat
    requires base > 0
    decreases k
  {
    if k == 0 then n else Rest(base, n / base, k - 1)
  }

  lemma {:induction false} PowAdd(base: nat, a: nat, b: nat)
    requires base > 0
    ensures Pow(base, a + b) == Pow(base, a) * Pow(base, b)
  {
    if a > 0 {
      PowAdd(base, a - 1, b);
      assert base * (Pow(base, a - 1) * Pow(base, b)) == base * Pow(base, a - 1) * Pow(base, b);
    }
  }

  lemma {:induction false} PowOfTwo(bits: nat, k: nat)
    ensures Pow(Pow(2, bits), k) == Pow(2, bits * k)
  {
    if k > 0 {
      PowOfTwo(bits, k - 1);
      PowAdd(2, bits, bits * (k - 1));
      assert bits + bits * (k - 1) == bits * k;
    }
  }

  lemma Powers()
    ensures Pow(2, 6) == 64 && Pow(2, 8) == 256
  {
    assert Pow(2, 1) == 2 && Pow(2, 2) == 4 && Pow(2, 3) == 8 && Pow(2, 4) == 16 && Pow(2, 5) == 32 && Pow(2, 7) == 128;
  }

  lemma {:induction false} ValueAppend(base: nat, s: seq<nat>, d: nat)
    requires base > 0
    ensures Value(base, s + [d]) == Value(base, s) + Pow(base, |s|) * d
  {
    if s == [] {
      assert (s + [d])[1..] == [];
    } else {
      assert (s + [d])[1..] == s[1..] + [d];
      ValueAppend(base, s[1..], d);
      Distribute(base, Value(base, s[1..]), Pow(base, |s| - 1), d);
    }
  }

  lemma Distribute(a: nat, v: nat, p: nat, d: nat)
    ensures a * (v + p * d) == a * v + a * p * d
  {
    assert a * (p * d) == a * p * d;
  }

  lemma MulMono(a: nat, x: nat, y: nat)
    requires x <= y
    ensures a * x <= a * y
  {
    assert a * (y - x) >= 0;
  }

  lemma {:induction false} ValueBound(base: nat, s: seq<nat>)
    requires base > 0 && DigitsOk(base, s)
    ensures Value(base, s) < Pow(base, |s|)
  {
    if s != [] {
      ValueBound(base, s[1..]);
      var v, p := Value(base, s[1..]), Pow(base, |s| - 1);
      MulMono(base, v + 1, p);
      assert base * (v + 1) == base * v + base;
    }
  }

  /** The lowest digits of a number built from digits are those digits. */
  lemma {:induction false} DigitsOfValue(base: nat, s: seq<nat>, t: nat)
    requires base > 0 && DigitsOk(base, s)
    ensures Digits(base, Value(base, s) + Pow(base, |s|) * t, |s|) == s
    ensures Rest(base, Value(base, s) + Pow(base, |s|) * t, |s|) == t
  {
    if s != [] {
      var v, p := Value(base, s[1..]), Pow(base, |s| - 1);
      var rest := v + p * t;
      assert base * v + base * p * t == base * rest;
      assert Value(base, s) + Pow(base, |s|) * t == s[0] + base * rest;
      DivMod(base, s[0], rest);
      DigitsOfValue(base, s[1..], t);
    }
  }

  lemma MulAtLeast(a: int, x: int)
    requires a >= 0
    ensures x >= 1 ==> a * x >= a
    ensures x <= -1 ==> a * x <= -a
  {
  }

  lemma DivMod(base: nat, r: nat, q: nat)
    requires r < base
    ensures (r + base * q) % base == r && (r + base * q) / base == q
  {
    var n := r + base * q;
    var x := n / base - q;
    assert base * x == r - n % base;
    MulAtLeast(base, x);
  }

  /** A number is the value of its lowest digits plus the rest. */
  lemma {:induction false} ValueOfDigits(base: nat, n: nat, k: nat)
    requires base > 0
    ensures n == Value(base, Digits(base, n, k)) + Pow(base, k) * Rest(base, n, k)
    decreases k
  {
    hide Value, Pow, Digits, Rest;
    if k == 0 { NoDigits(base, n); }
    else {
      var q, p := n / base, Pow(base, k - 1);
      ValueOfDigits(base, q, k - 1);
      DigitsStep(base, n, k);
      var v, t := Value(base, Digits(base, q, k - 1)), Rest(base, q, k - 1);
      ValueCons(base, Digits(base, n, k));
      Regroup(base, n % base, v, p, t, q);
      PowStep(base, k);
    }
  }

  lemma NoDigits(base: nat, n: nat)
    requires base > 0
    ensures n == Value(base, Digits(base, n, 0)) + Pow(base, 0) * Rest(base, n, 0)
  {}

  lemma DigitsStep(base: nat, n: nat, k: nat)
    requires base > 0 && k > 0
    ensures Digits(base, n, k)[0] == n % base && Digits(base, n, k)[1..] == Digits(base, n / base, k - 1)
    ensures Rest(base, n, k) == Rest(base, n / base, k - 1)
  {}

  lemma ValueCons(base: nat, s: seq<nat>)
    requires base > 0 && s != []
    ensures Value(base, s) == s[0] + base * Value(base, s[1..])
  {
  }

  lemma PowStep(base: nat, k: nat)
    requires base > 0 && k > 0
    ensures Pow(base, k) == base * Pow(base, k - 1)
  {
  }

  lemma Regroup(base: nat, r: nat, v: nat, p: nat, t: nat, q: nat)
    requires q == v + p * t
    ensures r + base * q == r + base * v + base * p * t
  {
    assert base * (v + p * t) == base * v + base * (p * t);
  }
}
