/** Medians of sequences of reals: the element a sorted copy has in the middle. */
module Medians {

  function Insert(x: real, s: seq<real>): seq<real> {
    if s == [] || x <= s[0] then [x] + s else [s[0]] + Insert(x, s[1..])
  }

  function Sort(s: seq<real>): seq<real> {
    if s == [] then [] else Insert(s[0], Sort(s[1..]))
  }

  ghost predicate Sorted(s: seq<real>) {
    forall i, j :: 0 <= i < j < |s| ==> s[i] <= s[j]
  }

  lemma {:induction false} InsertSorts(x: real, s: seq<real>)
    requires Sorted(s)
    ensures Sorted(Insert(x, s)) && |Insert(x, s)| == |s| + 1
    ensures Insert(x, s)[0] == if s == [] || x <= s[0] then x else s[0]
  {
    if s != [] && x > s[0] {
      var rest := Insert(x, s[1..]);
      InsertSorts(x, s[1..]);
      forall i | 0 <= i < |rest| ensures s[0] <= rest[i] {
        assert rest[0] <= rest[i];
      }
    }
  }

  lemma {:induction false} InsertAdds(x: real, s: seq<real>)
    ensures multiset(Insert(x, s)) == multiset(s) + multiset{x}
  {
    if s != [] && x > s[0] {
      InsertAdds(x, s[1..]);
      assert s == [s[0]] + s[1..];
    }
  }

  lemma {:induction false} SortSorts(s: seq<real>)
    ensures Sorted(Sort(s)) && multiset(Sort(s)) == multiset(s) && |Sort(s)| == |s|
  {
    if s != [] {
      SortSorts(s[1..]);
      InsertSorts(s[0], Sort(s[1..]));
      InsertAdds(s[0], Sort(s[1..]));
      assert s == [s[0]] + s[1..];
    }
  }

  function Median(s: seq<real>): real
    requires s != []
  {
    SortSorts(s);
    Sort(s)[|s| / 2]
  }

  lemma {:induction false} CountBounded(s: seq<real>, v: real)
    ensures multiset(s)[v] <= |s|
    ensures v !in s ==> multiset(s)[v] == 0
  {
    if s != [] {
      assert s == [s[0]] + s[1..];
      CountBounded(s[1..], v);
    }
  }

  /** A value held by more than half of the elements is their median. */
  lemma MajorityIsMedian(s: seq<real>, v: real)
    requires 2 * multiset(s)[v] > |s|
    ensures s != [] && Median(s) == v
  {
    SortSorts(s);
    CountBounded(s, v);
    var t, m := Sort(s), |s| / 2;
    if t[m] < v {
      assert v !in t[..m + 1];
      CountSplit(t, m + 1, v);
    } else if t[m] > v {
      assert v !in t[m..];
      CountSplit(t, m, v);
    }
  }

  lemma CountSplit(t: seq<real>, k: nat, v: real)
    requires k <= |t|
    ensures v !in t[..k] ==> multiset(t)[v] <= |t| - k
    ensures v !in t[k..] ==> multiset(t)[v] <= k
  {
    assert t == t[..k] + t[k..];
    CountBounded(t[..k], v);
    CountBounded(t[k..], v);
  }

  /** How many elements are smaller than `v`. */
  function Smaller(s: seq<real>, v: real): nat {
    if s == [] then 0 else (if s[0] < v then 1 else 0) + Smaller(s[1..], v)
  }

  /** How many elements are larger than `v`. */
  function Larger(s: seq<real>, v: real): nat {
    if s == [] then 0 else (if s[0] > v then 1 else 0) + Larger(s[1..], v)
  }

  lemma {:induction false} InsertCounts(x: real, s: seq<real>, v: real)
    ensures Smaller(Insert(x, s), v) == Smaller(s, v) + if x < v then 1 else 0
    ensures Larger(Insert(x, s), v) == Larger(s, v) + if x > v then 1 else 0
  {
    var t := Insert(x, s);
    if s == [] || x <= s[0] {
      assert t[0] == x && t[1..] == s;
    } else {
      InsertCounts(x, s[1..], v);
      assert t[0] == s[0] && t[1..] == Insert(x, s[1..]);
    }
  }

  lemma {:induction false} SortCounts(s: seq<real>, v: real)
    ensures Smaller(Sort(s), v) == Smaller(s, v) && Larger(Sort(s), v) == Larger(s, v)
  {
    if s != [] {
      SortCounts(s[1..], v);
      InsertCounts(s[0], Sort(s[1..]), v);
    }
  }

  lemma {:induction false} NoneBeyond(s: seq<real>, v: real)
    ensures (forall i :: 0 <= i < |s| ==> s[i] >= v) ==> Smaller(s, v) == 0
    ensures (forall i :: 0 <= i < |s| ==> s[i] <= v) ==> Larger(s, v) == 0
    ensures Smaller(s, v) <= |s| && Larger(s, v) <= |s|
  {
    if s != [] {
      NoneBeyond(s[1..], v);
    }
  }

  lemma {:induction false} CountsSplit(s: seq<real>, k: nat, v: real)
    requires k <= |s|
    ensures Smaller(s, v) == Smaller(s[..k], v) + Smaller(s[k..], v)
    ensures Larger(s, v) == Larger(s[..k], v) + Larger(s[k..], v)
  {
    if k == 0 {
      assert s[..0] == [] && s[0..] == s;
    } else {
      CountsSplit(s[1..], k - 1, v);
      assert s[1..][..k - 1] == s[..k][1..] && s[1..][k - 1..] == s[k..];
    }
  }

  /** The median is the upper middle element: at most half of the elements are smaller and less than
      half, rounded up, are larger. */
  lemma MedianInTheMiddle(s: seq<real>)
    requires s != []
    ensures Median(s) in s
    ensures 2 * Smaller(s, Median(s)) <= |s| && 2 * Larger(s, Median(s)) < |s|
  {
    SortSorts(s);
    var t, m := Sort(s), |s| / 2;
    SortCounts(s, t[m]);
    FewSmaller(t, m);
    assert t[m] in multiset(t);
  }

  lemma FewSmaller(t: seq<real>, m: nat)
    requires Sorted(t) && m < |t|
    ensures Smaller(t, t[m]) <= m && Larger(t, t[m]) <= |t| - m - 1
  {
    CountsSplit(t, m, t[m]);
    NoneBeyond(t[m..], t[m]);
    NoneBeyond(t[..m], t[m]);
    CountsSplit(t, m + 1, t[m]);
    NoneBeyond(t[..m + 1], t[m]);
    NoneBeyond(t[m + 1..], t[m]);
  }
}
