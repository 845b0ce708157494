/** Descending order on reals, as `sort_by(|a, b| b.total_cmp(a))` leaves it. */
module Descending {
  import opened Orders
  import LegacySort

  function Inserted(x: real, s: seq<real>): (r: seq<real>)
    ensures |r| == |s| + 1
  {
    if s == [] || x >= s[0] then [x] + s else [s[0]] + Inserted(x, s[1..])
  }

  function Sorted(s: seq<real>): (r: seq<real>)
    ensures |r| == |s|
  {
    if s == [] then [] else Inserted(s[0], Sorted(s[1..]))
  }

  ghost predicate IsDescending(s: seq<real>) {
    forall i, j | 0 <= i < j < |s| :: s[i] >= s[j]
  }

  lemma AddedInFront(x: real, s: seq<real>)
    requires IsDescending(s) && (s == [] || x >= s[0])
    ensures IsDescending([x] + s)
  {}

  lemma {:induction false} InsertedDescends(x: real, s: seq<real>)
    requires IsDescending(s)
    ensures IsDescending(Inserted(x, s))
  {
    if s == [] || x >= s[0] {
      AddedInFront(x, s);
    } else {
      InsertedDescends(x, s[1..]);
      hide IsDescending;
      assert s[0] >= Inserted(x, s[1..])[0] by { TailBelowHead(s); }
      AddedInFront(s[0], Inserted(x, s[1..]));
    }
  }

  lemma TailBelowHead(s: seq<real>)
    requires IsDescending(s) && s != []
    ensures |s| > 1 ==> s[0] >= s[1..][0]
    ensures IsDescending(s[1..])
  {}

  lemma {:induction false} InsertedKeeps(x: real, s: seq<real>)
    ensures multiset(Inserted(x, s)) == multiset(s) + multiset{x}
  {
    if s != [] && x < s[0] {
      InsertedKeeps(x, s[1..]);
      assert s == [s[0]] + s[1..];
    }
  }

  lemma {:induction false} SortedDescends(s: seq<real>)
    ensures IsDescending(Sorted(s)) && multiset(Sorted(s)) == multiset(s)
  {
    if s != [] {
      SortedDescends(s[1..]);
      InsertedDescends(s[0], Sorted(s[1..]));
      InsertedKeeps(s[0], Sorted(s[1..]));
      assert s == [s[0]] + s[1..];
    }
  }

  function Compare(a: real, b: real): Ordering {
    if a > b then Less else if a < b then Greater else Equal
  }

  /** Any sort must give this list. */
  lemma SortedIsUnique(s: seq<real>, t: seq<real>)
    requires IsDescending(t) && multiset(t) == multiset(s)
    ensures t == Sorted(s)
  {
    SortedDescends(s);
    var r := Sorted(s);
    assert |multiset(t)| == |multiset(s)|;
    assert SortedBy(r, Compare) && SortedBy(t, Compare) && TotalPreorder(Compare);
    forall k | 0 <= k < |r|
      ensures r[k] == t[k]
    {
      LegacySort.SortedAgain(r, t, k, Compare);
    }
  }
}
