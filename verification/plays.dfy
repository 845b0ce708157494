/** Plays as lists of results: what they are worth, in all modes. */
module Plays {
  function Earned<R>(play: seq<R>, worth: R -> nat): nat {
    if play == [] then 0 else Earned(play[..|play| - 1], worth) + worth(play[|play| - 1])
  }

  /** What a play has earned of what it could have earned; only where there was anything to earn. */
  function Share<R>(play: seq<R>, worth: R -> nat, most: R -> nat): real
    requires Earned(play, most) > 0
  {
    Earned(play, worth) as real / Earned(play, most) as real
  }

  lemma LastResult<R>(play: seq<R>)
    requires play != []
    ensures multiset(play) == multiset(play[..|play| - 1]) + multiset{play[|play| - 1]}
  {
    assert play == play[..|play| - 1] + [play[|play| - 1]];
  }

  function Times<R>(n: nat, r: R): seq<R> {
    if n == 0 then [] else Times(n - 1, r) + [r]
  }

  lemma {:induction false} TimesContains<R>(n: nat, r: R)
    ensures forall q :: multiset(Times(n, r))[q] == if q == r then n else 0
  {
    if n > 0 {
      TimesContains(n - 1, r);
    }
  }

  function Both<R>(n: nat, r: R, m: nat, s: R): seq<R> {
    Times(n, r) + Times(m, s)
  }

  lemma BothContains<R>(n: nat, r: R, m: nat, s: R)
    requires r != s
    ensures forall q :: multiset(Both(n, r, m, s))[q] == if q == r then n else if q == s then m else 0
  {
    hide Times;
    TimesContains(n, r);
    TimesContains(m, s);
  }
}
