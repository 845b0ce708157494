/** What the four gradual calculators share: how calls move through the items. */
module GradualCalls {

  /** One item further, unless there is none left. */
  function NextIdx(idx: nat, items: nat): nat {
    if idx < items then idx + 1 else idx
  }

  /** How many items `nth(n)` passes over: never the last one. */
  function Skipped(n: nat, idx: nat, items: nat): nat {
    if idx >= items then 0 else if n < items - idx then n else items - idx - 1
  }

  function NthIdx(n: nat, idx: nat, items: nat): nat {
    NextIdx(idx + Skipped(n, idx, items), items)
  }

  function ManyNexts(k: nat, idx: nat, items: nat): nat {
    if k == 0 then idx else ManyNexts(k - 1, NextIdx(idx, items), items)
  }

  /** `nth(n)` is `min(n, len - 1) + 1` calls of `next`. */
  lemma {:induction false} NthIsNexts(n: nat, idx: nat, items: nat)
    requires idx <= items
    ensures NthIdx(n, idx, items) == ManyNexts(Skipped(n, idx, items) + 1, idx, items)
    decreases n
  {
    if n > 0 && items - idx > 1 {
      NthIsNexts(n - 1, idx + 1, items);
    } else {
      assert ManyNexts(0, NextIdx(idx, items), items) == NextIdx(idx, items);
    }
  }

  datatype Call = Next | Nth(n: nat)

  function CallIdx(call: Call, idx: nat, items: nat): nat {
    match call
    case Next => NextIdx(idx, items)
    case Nth(n) => NthIdx(n, idx, items)
  }

  function NextsOf(call: Call, idx: nat, items: nat): nat {
    match call
    case Next => 1
    case Nth(n) => Skipped(n, idx, items) + 1
  }

  lemma CallIsNexts(call: Call, idx: nat, items: nat)
    requires idx <= items
    ensures CallIdx(call, idx, items) == ManyNexts(NextsOf(call, idx, items), idx, items) <= items
  {
    match call
    case Next => assert ManyNexts(0, NextIdx(idx, items), items) == NextIdx(idx, items);
    case Nth(n) => NthIsNexts(n, idx, items);
  }

  function IdxAfter(calls: seq<Call>, idx: nat, items: nat): nat {
    if calls == [] then idx
    else CallIdx(calls[|calls| - 1], IdxAfter(calls[..|calls| - 1], idx, items), items)
  }

  function NextsFor(calls: seq<Call>, idx: nat, items: nat): nat {
    if calls == [] then 0
    else
      var front := calls[..|calls| - 1];
      NextsFor(front, idx, items) + NextsOf(calls[|calls| - 1], IdxAfter(front, idx, items), items)
  }

  lemma {:induction false} NextsAdd(j: nat, k: nat, idx: nat, items: nat)
    ensures ManyNexts(j + k, idx, items) == ManyNexts(k, ManyNexts(j, idx, items), items)
  {
    if j > 0 {
      NextsAdd(j - 1, k, NextIdx(idx, items), items);
    }
  }

  /** Any interleaving of both calls is some number of calls of `next`. */
  lemma {:induction false} CallsAreNexts(calls: seq<Call>, idx: nat, items: nat)
    requires idx <= items
    ensures IdxAfter(calls, idx, items) == ManyNexts(NextsFor(calls, idx, items), idx, items) <= items
  {
    if calls != [] {
      var front, last := calls[..|calls| - 1], calls[|calls| - 1];
      CallsAreNexts(front, idx, items);
      var at := IdxAfter(front, idx, items);
      CallIsNexts(last, at, items);
      NextsAdd(NextsFor(front, idx, items), NextsOf(last, at, items), idx, items);
    }
  }
}
