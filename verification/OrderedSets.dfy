/** Ordered sets and the keys of ordered maps, as ascending sequences. */
module OrderedSets {
  ghost predicate Increasing(s: seq<int>) {
    forall i, j :: 0 <= i < j < |s| ==> s[i] < s[j]
  }

  /** Insertion; an element that is there already stays. */
  method Insert(s: seq<int>, v: int) returns (t: seq<int>)
    requires Increasing(s)
    ensures Increasing(t)
    ensures forall w :: w in t <==> w in s || w == v
  {
    var i := 0;
    while i < |s| && s[i] < v
      invariant i <= |s|
      invariant forall j :: 0 <= j < i ==> s[j] < v
    {
      i := i + 1;
    }
    if i < |s| && s[i] == v {
      return s;
    }
    t := s[..i] + [v] + s[i..];
    assert s == s[..i] + s[i..];
  }
}
