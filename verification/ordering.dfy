/** The shaping `IntRandomiser` applies to its drawn integers: `sorted`, then
    reversed when the bounds were given high-to-low, or left in draw order. */
module Ordering {

  predicate Ascending(s: seq<int>) {
    forall i, j :: 0 <= i < j < |s| ==> s[i] <= s[j]
  }

  predicate Descending(s: seq<int>) {
    forall i, j :: 0 <= i < j < |s| ==> s[i] >= s[j]
  }

  /** Inserts `x` into an ascending sequence: the result starts with the
      smaller of `x` and the old first element. */
  function Insert(x: int, s: seq<int>): (r: seq<int>)
    requires Ascending(s)
    ensures Ascending(r)
    ensures multiset(r) == multiset(s) + multiset{x}
    ensures |r| > 0 && r[0] == (if s == [] || x <= s[0] then x else s[0])
    decreases s
  {
    if s == [] || x <= s[0] then [x] + s
    else
      assert s == [s[0]] + s[1..];
      var t := Insert(x, s[1..]);
      ConsAscending(s[0], t);
      assert multiset([s[0]] + t) == multiset{s[0]} + multiset(t);
      [s[0]] + t
  }

  lemma ConsAscending(x: int, t: seq<int>)
    requires Ascending(t) && (t == [] || x <= t[0])
    ensures Ascending([x] + t)
  {
  }

  /** Python's `sorted` on a list of integers. */
  function Sorted(s: seq<int>): (r: seq<int>)
    ensures Ascending(r)
    ensures multiset(r) == multiset(s)
    decreases s
  {
    if s == [] then []
    else
      assert s == [s[0]] + s[1..];
      Insert(s[0], Sorted(s[1..]))
  }

  /** The slice `s[::-1]`. */
  function Reversed(s: seq<int>): (r: seq<int>)
    ensures |r| == |s|
    ensures forall i :: 0 <= i < |s| ==> r[i] == s[|s| - 1 - i]
    decreases s
  {
    if s == [] then [] else Reversed(s[1..]) + [s[0]]
  }

  lemma {:induction false} ReversedMultiset(s: seq<int>)
    ensures multiset(Reversed(s)) == multiset(s)
    decreases s
  {
    if s != [] {
      ReversedMultiset(s[1..]);
      assert s == [s[0]] + s[1..];
    }
  }

  /** `tuple(sorted(ret)[::-1 if descending else 1])` when `ordered`, else
      `tuple(ret)`: exactly the drawn values, ordered as the bounds ask. */
  function Arrange(drawn: seq<int>, ordered: bool, descending: bool): (r: seq<int>)
    ensures multiset(r) == multiset(drawn)
    ensures |r| == |drawn|
    ensures !ordered ==> r == drawn
    ensures ordered && !descending ==> Ascending(r)
    ensures ordered && descending ==> Descending(r)
  {
    if !ordered then drawn
    else
      var sorted := Sorted(drawn);
      assert |multiset(sorted)| == |sorted| && |multiset(drawn)| == |drawn|;
      if descending then
        ReversedMultiset(sorted);
        Reversed(sorted)
      else sorted
  }

  /** Every arranged value is one of the drawn values. */
  lemma ArrangeMembers(drawn: seq<int>, ordered: bool, descending: bool, i: nat)
    requires i < |Arrange(drawn, ordered, descending)|
    ensures Arrange(drawn, ordered, descending)[i] in drawn
  {
    var r := Arrange(drawn, ordered, descending);
    assert r[i] in multiset(r);
  }
}
