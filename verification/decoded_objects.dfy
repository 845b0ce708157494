/** The order in which decoding leaves hit objects and their sounds. */
module DecodedObjects {
  import opened Orders
  import opened Tandem
  import LegacySort
  import Sorting

  /** Position `k` holds an element that starts when the one with index `order[k]` does. */
  ghost predicate StartsAs<T(!new)>(was: seq<T>, order: seq<nat>, now: seq<T>, byStartTime: (T, T) -> Ordering) {
    && |now| == |order|
    && forall k | 0 <= k < |order| :: order[k] < |was| && byStartTime(was[order[k]], now[k]) == Equal
  }

  /** One sorter for both lists; for osu!mania the objects alone go through the legacy sort, which
      keeps the start time at every position while the sounds stay where they are. */
  method SortHitObjects<T(!new), U>(objects: array<T>, sounds: array<U>, byStartTime: (T, T) -> Ordering, mania: bool)
    requires TotalPreorder(byStartTime) && objects.Length == sounds.Length <= FIRST_BIT
    requires objects as object != sounds as object
    modifies objects, sounds
    ensures SortedBy(objects[..], byStartTime) && multiset(objects[..]) == multiset(old(objects[..]))
    ensures var order := StableOrder(old(objects[..]), objects.Length, byStartTime);
      && sounds[..] == Arranged(old(sounds[..]), order)
      && (!mania ==> objects[..] == Arranged(old(objects[..]), order))
      && StartsAs(old(objects[..]), order, objects[..], byStartTime)
  {
    hide *;
    ghost var was := objects[..];
    ghost var order := StableOrder(was, |was|, byStartTime);
    var sorter := new TandemSorter.NewStable(objects[..], byStartTime);
    sorter.Sort(objects);
    sorter.Sort(sounds);
    ghost var sorted := objects[..];
    SortedOnce(was, byStartTime);
    if mania {
      LegacySort.Sort(objects, byStartTime);
      assert forall k | 0 <= k < objects.Length :: byStartTime(sorted[k], objects[..][k]) == Equal;
      StillStartsAs(was, order, sorted, objects[..], byStartTime);
    }
  }

  lemma SortedOnce<T(!new)>(was: seq<T>, byStartTime: (T, T) -> Ordering)
    requires TotalPreorder(byStartTime)
    ensures var order := StableOrder(was, |was|, byStartTime);
      && SortedBy(Arranged(was, order), byStartTime)
      && multiset(Arranged(was, order)) == multiset(was)
      && StartsAs(was, order, Arranged(was, order), byStartTime)
  {
    hide *;
    StableOrderSorts(was, byStartTime);
    StableOrderKeeps(was, |was|, byStartTime, was);
    assert was[..|was|] == was;
    ArrangedStartsAs(was, StableOrder(was, |was|, byStartTime), byStartTime);
  }

  lemma ArrangedStartsAs<T(!new)>(was: seq<T>, order: seq<nat>, byStartTime: (T, T) -> Ordering)
    requires TotalPreorder(byStartTime) && forall k | 0 <= k < |order| :: order[k] < |was|
    ensures StartsAs(was, order, Arranged(was, order), byStartTime)
  {
    hide TotalPreorder;
    forall k | 0 <= k < |order|
      ensures byStartTime(was[order[k]], Arranged(was, order)[k]) == Equal
    {
      Sorting.ComparesEqualToItself(was[order[k]], byStartTime);
    }
  }

  lemma StillStartsAs<T(!new)>(was: seq<T>, order: seq<nat>, sorted: seq<T>, now: seq<T>, byStartTime: (T, T) -> Ordering)
    requires |order| == |sorted| == |now| && (forall k | 0 <= k < |order| :: order[k] < |was|)
    requires sorted == Arranged(was, order)
    requires forall k | 0 <= k < |now| :: byStartTime(sorted[k], now[k]) == Equal
    ensures StartsAs(was, order, now, byStartTime)
  {
    forall k | 0 <= k < |order|
      ensures byStartTime(was[order[k]], now[k]) == Equal
    {
      assert sorted[k] == was[order[k]];
    }
  }
}
