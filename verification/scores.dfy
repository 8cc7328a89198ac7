/** The list of finished-game scores, kept in descending order.
    On game over the score is pushed onto the list and the whole list is
    sorted with the numeric comparator `(a, b) => b - a`. There is no cap
    and equal scores are all kept. */
module Scores {

  /** Every earlier entry is at least as large as every later one. */
  predicate SortedDesc(s: seq<int>)
  {
    forall i, j :: 0 <= i < j < |s| ==> s[i] >= s[j]
  }

  /** Places `x` in front of the first entry it is not smaller than. */
  function Insert(s: seq<int>, x: int): (r: seq<int>)
    requires SortedDesc(s)
    ensures SortedDesc(r)
    ensures multiset(r) == multiset(s) + multiset{x}
    ensures |r| == |s| + 1
    ensures forall i :: 0 <= i < |r| ==> r[i] == x || r[i] in s
  {
    if s == [] || x >= s[0] then
      [x] + s
    else
      var rest := Insert(s[1..], x);
      assert s == [s[0]] + s[1..];
      assert forall i :: 0 <= i < |rest| ==> s[0] >= rest[i];
      [s[0]] + rest
  }

  /** A descending sort of any list of scores (insertion sort). */
  function Sort(s: seq<int>): (r: seq<int>)
    ensures SortedDesc(r)
    ensures multiset(r) == multiset(s)
    ensures |r| == |s|
  {
    if s == [] then
      []
    else
      assert s == s[..|s| - 1] + [s[|s| - 1]];
      Insert(Sort(s[..|s| - 1]), s[|s| - 1])
  }

  /** The largest element of a non-empty descending list comes first. */
  lemma {:induction false} HeadIsMax(s: seq<int>, y: int)
    requires SortedDesc(s)
    requires y in multiset(s)
    ensures s != [] && y <= s[0]
  {
    var i :| 0 <= i < |s| && s[i] == y;
  }

  /** Two descending lists with the same elements are the same list, so the
      order the source's sort produces is determined by the multiset alone. */
  lemma {:induction false} SortedUnique(a: seq<int>, b: seq<int>)
    requires SortedDesc(a) && SortedDesc(b)
    requires multiset(a) == multiset(b)
    ensures a == b
  {
    if a != [] {
      assert a[0] in multiset(b);
      assert b[0] in multiset(a);
      HeadIsMax(b, a[0]);
      HeadIsMax(a, b[0]);
      assert a == [a[0]] + a[1..];
      assert b == [b[0]] + b[1..];
      assert a[0] == b[0];
      assert multiset(a[1..]) == multiset(a) - multiset{a[0]};
      assert multiset(b[1..]) == multiset(b) - multiset{b[0]};
      assert multiset(a[1..]) == multiset(b[1..]);
      SortedUnique(a[1..], b[1..]);
    } else {
      assert |multiset(b)| == 0;
    }
  }

  /** Recording a score: the list grows by exactly one, keeps every earlier
      entry (duplicates included), contains the new score and is descending. */
  lemma {:induction false} RecordKeepsAll(s: seq<int>, x: int)
    ensures |Sort(s + [x])| == |s| + 1
    ensures multiset(Sort(s + [x])) == multiset(s) + multiset{x}
    ensures SortedDesc(Sort(s + [x]))
    ensures SortedDesc(s) ==> Sort(s + [x]) == Insert(s, x)
  {
    assert multiset(s + [x]) == multiset(s) + multiset{x};
    if SortedDesc(s) {
      SortedUnique(Sort(s + [x]), Insert(s, x));
    }
  }
}
