/** Attribute vectors: look-up ignoring case, and the one-directional equality test. */
module Attributes {
  import opened Options
  import opened Ascii
  import opened Dom

  /** `gumbo_get_attribute`: the first attribute with that name up to case. */
  function Find(attrs: seq<Attribute>, name: string): (r: Option<Attribute>)
    ensures r.Some? ==> r.value in attrs && Lower(r.value.name) == Lower(name)
    ensures r.None? ==> forall a :: a in attrs ==> Lower(a.name) != Lower(name)
  {
    if attrs == [] then None
    else if Lower(attrs[0].name) == Lower(name) then Some(attrs[0])
    else Find(attrs[1..], name)
  }

  /** `attribute_matches_case_sensitive`. */
  predicate Holds(attrs: seq<Attribute>, a: Attribute) {
    var r := Find(attrs, a.name);
    r.Some? && r.value.value == a.value
  }

  /** What the loop of `all_attributes_match` decides. */
  predicate AllMatch(a: seq<Attribute>, b: seq<Attribute>) {
    (forall i :: 0 <= i < |a| ==> Holds(b, a[i])) && |a| == |b|
  }

  /** No two names are equal up to case. */
  ghost predicate DistinctNames(attrs: seq<Attribute>) {
    forall i, j :: 0 <= i < j < |attrs| ==> Lower(attrs[i].name) != Lower(attrs[j].name)
  }

  /** The attribute map: folded name to value, the first occurrence winning. */
  function AsMap(attrs: seq<Attribute>): map<string, string> {
    if attrs == [] then map[] else AsMap(attrs[1..])[Lower(attrs[0].name) := attrs[0].value]
  }

  lemma {:induction false} FindIsLookup(attrs: seq<Attribute>, name: string)
    ensures Find(attrs, name).Some? <==> Lower(name) in AsMap(attrs)
    ensures Find(attrs, name).Some? ==> Find(attrs, name).value.value == AsMap(attrs)[Lower(name)]
  {
    if attrs != [] { FindIsLookup(attrs[1..], name); }
  }

  lemma DistinctTail(attrs: seq<Attribute>)
    requires DistinctNames(attrs) && attrs != []
    ensures DistinctNames(attrs[1..]) && Find(attrs[1..], attrs[0].name) == None
  {
    var rest := attrs[1..];
    assert forall i :: 0 <= i < |rest| ==> rest[i] == attrs[i + 1];
  }

  /** The map of distinct names has one key for each attribute. */
  lemma {:induction false} MapSize(attrs: seq<Attribute>)
    requires DistinctNames(attrs)
    ensures |AsMap(attrs)| == |attrs|
  {
    if attrs != [] {
      DistinctTail(attrs);
      MapSize(attrs[1..]);
      FindIsLookup(attrs[1..], attrs[0].name);
    }
  }

  lemma FindOwn(attrs: seq<Attribute>, i: nat)
    requires DistinctNames(attrs) && i < |attrs|
    ensures Find(attrs, attrs[i].name) == Some(attrs[i])
  {
    assert attrs[i] in attrs;
  }

  /** A set inside another of the same size is the other. */
  lemma SubsetOfSameSize<T>(s: set<T>, t: set<T>)
    requires s <= t && |s| == |t|
    ensures s == t
  {
    if s != t {
      var x :| x in t && x !in s;
      SubsetSize(s, t - {x});
    }
  }

  lemma {:induction false} SubsetSize<T>(s: set<T>, t: set<T>)
    requires s <= t
    ensures |s| <= |t|
  {
    if s != {} {
      var x :| x in s;
      SubsetSize(s - {x}, t - {x});
    }
  }

  /** One direction of matching makes one map part of the other. */
  lemma {:induction false} HeldKeys(a: seq<Attribute>, b: seq<Attribute>)
    requires forall i :: 0 <= i < |a| ==> Holds(b, a[i])
    ensures AsMap(a).Keys <= AsMap(b).Keys
    ensures forall k :: k in AsMap(a) ==> AsMap(a)[k] == AsMap(b)[k]
  {
    if a != [] {
      assert forall i :: 0 <= i < |a[1..]| ==> a[1..][i] == a[i + 1];
      HeldKeys(a[1..], b);
      assert Holds(b, a[0]);
      FindIsLookup(b, a[0].name);
    }
  }

  /** With names distinct up to case, matching in one direction plus the count decides equality
      of the attribute maps. */
  lemma MatchIsMapEquality(a: seq<Attribute>, b: seq<Attribute>)
    requires DistinctNames(a) && DistinctNames(b)
    ensures AllMatch(a, b) <==> AsMap(a) == AsMap(b)
  {
    hide AsMap, Find;
    MapSize(a);
    MapSize(b);
    if AllMatch(a, b) {
      HeldKeys(a, b);
      SubsetOfSameSize(AsMap(a).Keys, AsMap(b).Keys);
    }
    if AsMap(a) == AsMap(b) {
      forall i | 0 <= i < |a| ensures Holds(b, a[i]) {
        FindOwn(a, i);
        FindIsLookup(a, a[i].name);
        FindIsLookup(b, a[i].name);
      }
    }
  }

  /** The pigeonhole behind the counter: no more attributes can match than there are. */
  lemma MatchedAtMost(a: seq<Attribute>, b: seq<Attribute>, n: nat)
    requires DistinctNames(a) && DistinctNames(b) && n <= |a|
    requires forall i :: 0 <= i < n ==> Holds(b, a[i])
    ensures n <= |b|
  {
    hide AsMap, Holds;
    var p := a[..n];
    assert forall i :: 0 <= i < n ==> p[i] == a[i];
    HeldKeys(p, b);
    MapSize(p);
    MapSize(b);
    SubsetSize(AsMap(p).Keys, AsMap(b).Keys);
  }

  /** With a repeated name the test is not even symmetric. */
  lemma RepeatedNamesMatchOneWay()
    ensures var a, b := [Attribute("x", "1"), Attribute("X", "1")], [Attribute("x", "1"), Attribute("y", "2")];
            AllMatch(a, b) && !AllMatch(b, a)
  {
    var a, b := [Attribute("x", "1"), Attribute("X", "1")], [Attribute("x", "1"), Attribute("y", "2")];
    assert Lower("x") == ['x'] && Lower("X") == ['x'] && Lower("y") == ['y'];
    assert Find(b, "x") == Some(b[0]) && Find(b, "X") == Some(b[0]);
    assert Find(a[1..], "y") == Find(a[1..][1..], "y") == None;
    assert !Holds(a, b[1]);
  }

  lemma {:induction false} MapAtMost(attrs: seq<Attribute>)
    ensures |AsMap(attrs)| <= |attrs|
  {
    if attrs != [] { MapAtMost(attrs[1..]); }
  }

  /** A repeated name leaves the map smaller than the vector. */
  lemma {:induction false} RepeatedIsSmaller(attrs: seq<Attribute>)
    requires !DistinctNames(attrs)
    ensures |AsMap(attrs)| < |attrs|
  {
    var i, j :| 0 <= i < j < |attrs| && Lower(attrs[i].name) == Lower(attrs[j].name);
    var rest := attrs[1..];
    if i == 0 {
      assert rest[j - 1] == attrs[j] && rest[j - 1] in rest;
      assert Find(rest, attrs[0].name).Some?;
      FindIsLookup(rest, attrs[0].name);
      MapAtMost(rest);
    } else {
      assert rest[i - 1] == attrs[i] && rest[j - 1] == attrs[j];
      RepeatedIsSmaller(rest);
    }
  }

  /** The attributes with other names. */
  function Without(attrs: seq<Attribute>, key: string): (r: seq<Attribute>)
    ensures forall a :: a in r ==> a in attrs && Lower(a.name) != key
  {
    if attrs == [] then []
    else (if Lower(attrs[0].name) == key then [] else [attrs[0]]) + Without(attrs[1..], key)
  }

  lemma {:induction false} WithoutMap(attrs: seq<Attribute>, key: string)
    requires DistinctNames(attrs)
    ensures DistinctNames(Without(attrs, key)) && AsMap(Without(attrs, key)) == AsMap(attrs) - {key}
  {
    hide Find, Lower, DistinctNames, AsMap, Without;
    if attrs == [] { WithoutNone(key); }
    else {
      DistinctTail(attrs);
      var a, tail := attrs[0], attrs[1..];
      WithoutMap(tail, key);
      var rest := Without(tail, key);
      assert attrs == [a] + tail;
      WithoutCons(a, tail, key);
      MapCons(a, tail);
      MapCons(a, rest);
      FindIsLookup(tail, a.name);
      MapMinus(AsMap(tail), Lower(a.name), a.value, key);
      if Lower(a.name) != key { ConsDistinct(a, rest, tail); }
    }
  }

  lemma WithoutNone(key: string)
    ensures Without([], key) == [] && DistinctNames([]) && AsMap([]) - {key} == AsMap([])
  {}

  lemma WithoutCons(a: Attribute, tail: seq<Attribute>, key: string)
    ensures Without([a] + tail, key) == if Lower(a.name) == key then Without(tail, key) else [a] + Without(tail, key)
  {
    hide Lower;
    assert ([a] + tail)[1..] == tail;
    assert [] + Without(tail, key) == Without(tail, key);
  }

  lemma MapMinus(m: map<string, string>, k: string, v: string, key: string)
    ensures k != key ==> m[k := v] - {key} == (m - {key})[k := v]
    ensures k == key && k !in m ==> m[k := v] - {key} == m - {key}
  {}

  lemma MapCons(a: Attribute, rest: seq<Attribute>)
    ensures AsMap([a] + rest) == AsMap(rest)[Lower(a.name) := a.value]
  {
    assert ([a] + rest)[1..] == rest;
  }

  lemma ConsDistinct(a: Attribute, rest: seq<Attribute>, whole: seq<Attribute>)
    requires DistinctNames(rest) && (forall x :: x in rest ==> x in whole) && Find(whole, a.name) == None
    ensures DistinctNames([a] + rest)
  {
    var s := [a] + rest;
    forall i, j | 0 <= i < j < |s| ensures Lower(s[i].name) != Lower(s[j].name) {
      assert s[j] == rest[j - 1] && rest[j - 1] in whole;
      if i > 0 { assert s[i] == rest[i - 1]; }
    }
  }

  /** Every attribute map is the map of some vector with distinct names. */
  lemma {:induction false} MapAsVector(attrs: seq<Attribute>) returns (b: seq<Attribute>)
    ensures DistinctNames(b) && AsMap(b) == AsMap(attrs)
  {
    b := [];
    if attrs != [] {
      var u := MapAsVector(attrs[1..]);
      var key := Lower(attrs[0].name);
      WithoutMap(u, key);
      var w := Without(u, key);
      FindIsLookup(w, attrs[0].name);
      ConsDistinct(attrs[0], w, w);
      b := [attrs[0]] + w;
      assert b[1..] == w;
    }
  }

  /** Exactly when it works: a vector's names are distinct if and only if the test decides map
      equality against every vector with distinct names. */
  lemma MatchDecidesExactly(a: seq<Attribute>)
    ensures DistinctNames(a) <==>
            forall b :: DistinctNames(b) ==> (AllMatch(a, b) <==> AsMap(a) == AsMap(b))
  {
    hide AsMap, DistinctNames, AllMatch;
    if DistinctNames(a) {
      forall b | DistinctNames(b) ensures AllMatch(a, b) <==> AsMap(a) == AsMap(b) { MatchIsMapEquality(a, b); }
    } else {
      RepeatedIsSmaller(a);
      var b := MapAsVector(a);
      MapSize(b);
      assert AsMap(b) == AsMap(a) && !AllMatch(a, b) by { LengthsDiffer(a, b); }
    }
  }

  lemma LengthsDiffer(a: seq<Attribute>, b: seq<Attribute>)
    requires |a| != |b|
    ensures !AllMatch(a, b)
  {}

  /** `all_attributes_match`, with the counter of unmatched attributes as the code keeps it. */
  method AllAttributesMatch(a: seq<Attribute>, b: seq<Attribute>) returns (r: bool)
    ensures r == AllMatch(a, b)
    ensures DistinctNames(a) && DistinctNames(b) ==> r == (AsMap(a) == AsMap(b))
  {
    hide AsMap, Holds, DistinctNames;
    if DistinctNames(a) && DistinctNames(b) { MatchIsMapEquality(a, b); }
    var unmatched := |b|;
    var i := 0;
    while i < |a|
      invariant 0 <= i <= |a| && unmatched == |b| - i
      invariant DistinctNames(a) && DistinctNames(b) ==> 0 <= unmatched
      invariant forall j :: 0 <= j < i ==> Holds(b, a[j])
    {
      if !Holds(b, a[i]) {
        return false;
      }
      if DistinctNames(a) && DistinctNames(b) { MatchedAtMost(a, b, i + 1); }
      unmatched := unmatched - 1;
      i := i + 1;
    }
    r := unmatched == 0;
  }
}
