/** The list of strain peaks that stores runs of zeros as their length. */
module Strains {
  import opened Wrappers
  import opened Descending

  /** Either a strain or an amount of consecutive zeros. */
  datatype StrainsEntry = Value(value: real) | Zeros(count: nat)

  function Zeroes(n: nat): (s: seq<real>)
    ensures |s| == n && forall k | 0 <= k < n :: s[k] == 0.0
  {
    seq(n, _ => 0.0)
  }

  function Expanded(e: StrainsEntry): seq<real> {
    match e
    case Value(v) => [v]
    case Zeros(n) => Zeroes(n)
  }

  /** The plain list an entry list stands for. */
  function Plain(inner: seq<StrainsEntry>): seq<real> {
    if inner == [] then [] else Expanded(inner[0]) + Plain(inner[1..])
  }

  /** As short as possible: values are not zero, no run is empty, no two runs touch. */
  ghost predicate Compact(inner: seq<StrainsEntry>) {
    && (forall k | 0 <= k < |inner| :: if inner[k].Value? then inner[k].value > 0.0 else inner[k].count > 0)
    && forall k | 0 <= k < |inner| - 1 :: inner[k].Value? || inner[k + 1].Value?
  }

  function Pushed(inner: seq<StrainsEntry>, value: real): (r: seq<StrainsEntry>)
  {
    var n := |inner|;
    if value != 0.0 then inner + [Value(value)]
    else if n > 0 && inner[n - 1].Zeros? then inner[..n - 1] + [Zeros(inner[n - 1].count + 1)]
    else inner + [Zeros(1)]
  }

  lemma Regrouped<T>(a: seq<T>, b: seq<T>, c: seq<T>)
    ensures a + (b + c) == (a + b) + c
  {}

  lemma {:induction false} PlainConcat(a: seq<StrainsEntry>, b: seq<StrainsEntry>)
    ensures Plain(a + b) == Plain(a) + Plain(b)
  {
    if a == [] {
      assert a + b == b;
    } else {
      PlainConcat(a[1..], b);
      assert (a + b)[1..] == a[1..] + b;
      Regrouped(Expanded(a[0]), Plain(a[1..]), Plain(b));
    }
  }

  lemma PlainOne(e: StrainsEntry)
    ensures Plain([e]) == Expanded(e)
  {
    assert [e][1..] == [];
    assert Plain([]) == [];
  }

  lemma PushedPlain(inner: seq<StrainsEntry>, value: real)
    ensures Plain(Pushed(inner, value)) == Plain(inner) + [value]
  {
    hide Plain;
    var n := |inner|;
    if value != 0.0 {
      PlainConcat(inner, [Value(value)]);
      PlainOne(Value(value));
    } else if n > 0 && inner[n - 1].Zeros? {
      var last := inner[n - 1];
      assert inner == inner[..n - 1] + [last];
      PlainConcat(inner[..n - 1], [last]);
      PlainConcat(inner[..n - 1], [Zeros(last.count + 1)]);
      PlainOne(last);
      PlainOne(Zeros(last.count + 1));
      assert Zeroes(last.count + 1) == Zeroes(last.count) + [0.0];
    } else {
      PlainConcat(inner, [Zeros(1)]);
      PlainOne(Zeros(1));
      assert Zeroes(1) == [0.0];
    }
  }

  lemma PushedCompact(inner: seq<StrainsEntry>, value: real)
    requires Compact(inner) && value >= 0.0
    ensures Compact(Pushed(inner, value))
  {}

  // ---------- without zeros ----------

  function NonZero(s: seq<real>): (r: seq<real>) {
    if s == [] then []
    else if s[0] == 0.0 then NonZero(s[1..])
    else [s[0]] + NonZero(s[1..])
  }

  function Values(inner: seq<StrainsEntry>): (r: seq<StrainsEntry>)
    ensures forall k | 0 <= k < |r| :: r[k].Value?
  {
    if inner == [] then []
    else if inner[0].Value? then [inner[0]] + Values(inner[1..])
    else Values(inner[1..])
  }

  ghost predicate AllValues(inner: seq<StrainsEntry>) {
    forall k | 0 <= k < |inner| :: inner[k].Value?
  }

  function Unwrapped(inner: seq<StrainsEntry>): (s: seq<real>)
    requires AllValues(inner)
    ensures |s| == |inner|
  {
    seq(|inner|, k requires 0 <= k < |inner| => inner[k].value)
  }

  function Wrapped(s: seq<real>): (inner: seq<StrainsEntry>)
    ensures AllValues(inner) && Unwrapped(inner) == s
  {
    seq(|s|, k requires 0 <= k < |s| => Value(s[k]))
  }

  /** Dropping zeros shortens a list exactly if it has any. */
  lemma {:induction false} ZerosShorten(s: seq<real>)
    ensures |NonZero(s)| <= |s|
    ensures |NonZero(s)| == |s| <==> 0.0 !in s
  {
    if s != [] {
      ZerosShorten(s[1..]);
      assert s == [s[0]] + s[1..];
    }
  }

  lemma {:induction false} NonZeroConcat(s: seq<real>, t: seq<real>)
    ensures NonZero(s + t) == NonZero(s) + NonZero(t)
  {
    if s == [] {
      assert s + t == t;
    } else {
      NonZeroConcat(s[1..], t);
      var first := if s[0] == 0.0 then [] else [s[0]];
      assert (s + t)[1..] == s[1..] + t;
      Regrouped(first, NonZero(s[1..]), NonZero(t));
    }
  }

  lemma {:induction false} NonZeroOfZeroes(n: nat)
    ensures NonZero(Zeroes(n)) == []
  {
    if n > 0 {
      NonZeroOfZeroes(n - 1);
      assert Zeroes(n)[1..] == Zeroes(n - 1);
    }
  }

  /** Dropping the runs of zeros drops exactly the zeros. */
  lemma {:induction false} RetainedPlain(inner: seq<StrainsEntry>)
    requires Compact(inner)
    ensures Unwrapped(Values(inner)) == NonZero(Plain(inner))
    ensures forall k | 0 <= k < |Values(inner)| :: Values(inner)[k].value > 0.0
  {
    if inner != [] {
      RetainedPlain(inner[1..]);
      NonZeroConcat(Expanded(inner[0]), Plain(inner[1..]));
      if inner[0].Zeros? {
        NonZeroOfZeroes(inner[0].count);
      } else {
        assert NonZero(Expanded(inner[0])) == [inner[0].value];
        assert Unwrapped(Values(inner)) == [inner[0].value] + Unwrapped(Values(inner[1..]));
      }
    }
  }

  function SumOf(s: seq<real>): (r: real) {
    if s == [] then 0.0 else s[0] + SumOf(s[1..])
  }

  lemma SumOfAdded(x: real, s: seq<real>)
    ensures SumOf([x] + s) == x + SumOf(s)
  {
    assert ([x] + s)[1..] == s;
  }

  lemma {:induction false} SumWithoutZeros(s: seq<real>)
    ensures SumOf(NonZero(s)) == SumOf(s)
  {
    if s != [] {
      SumWithoutZeros(s[1..]);
      SumOfAdded(s[0], NonZero(s[1..]));
    }
  }

  lemma NoneLeft(was: seq<StrainsEntry>, kept: seq<StrainsEntry>)
    requires Values(was) == kept + Values(was[|was|..])
    ensures kept == Values(was)
  {
    assert was[|was|..] == [];
  }

  lemma SumStep(inner: seq<StrainsEntry>, k: nat)
    requires k < |inner|
    ensures SumOf(Unwrapped(Values(inner[k..]))) ==
      (if inner[k].Value? then inner[k].value else 0.0) + SumOf(Unwrapped(Values(inner[k + 1..])))
  {
    assert inner[k..][1..] == inner[k + 1..];
    var rest := Values(inner[k + 1..]);
    if inner[k].Value? {
      assert Values(inner[k..]) == [inner[k]] + rest;
      assert Unwrapped([inner[k]] + rest) == [inner[k].value] + Unwrapped(rest);
      SumOfAdded(inner[k].value, Unwrapped(rest));
    }
  }

  // ---------- the vector ----------

  class StrainsVec {
    var inner: seq<StrainsEntry>
    var len: nat
    /** Every strain pushed so far. */
    ghost var pushed: seq<real>

    /** Before zeros are dropped or the list is sorted. */
    ghost predicate Valid()
      reads this
    {
      Compact(inner) && Plain(inner) == pushed && len == |pushed|
    }

    constructor ()
      ensures Valid() && pushed == []
    {
      inner, len, pushed := [], 0, [];
    }

    method Push(value: real)
      requires Valid() && value >= 0.0
      modifies this
      ensures Valid() && pushed == old(pushed) + [value]
    {
      PushedPlain(inner, value);
      PushedCompact(inner, value);
      hide *;
      ghost var was := inner;
      var n := |inner|;
      if value != 0.0 {
        inner := inner + [Value(value)];
      } else if n > 0 && inner[n - 1].Zeros? {
        inner := inner[n - 1 := Zeros(inner[n - 1].count + 1)];
      } else {
        inner := inner + [Zeros(1)];
      }
      len := len + 1;
      pushed := pushed + [value];
      IsPushed(was, inner, value);
      HasPushed();
    }

    lemma HasPushed()
      requires Compact(inner) && Plain(inner) == pushed && len == |pushed|
      ensures Valid()
    {}

    /** Drops the zeros. The count of elements is not adjusted. */
    method RetainNonZero()
      requires Valid()
      modifies this
      ensures AllValues(inner) && Unwrapped(inner) == NonZero(old(pushed))
      ensures pushed == old(pushed) && len == old(len)
      ensures len == |Unwrapped(inner)| <==> 0.0 !in pushed
    {
      RetainedPlain(inner);
      ZerosShorten(pushed);
      ghost var was := inner;
      var kept: seq<StrainsEntry> := [];
      assert was[0..] == was;
      {
        hide Compact, Plain, NonZero, Unwrapped;
        for k := 0 to |inner|
          invariant inner == was && Values(was) == kept + Values(was[k..])
          invariant pushed == old(pushed) && len == old(len)
        {
          assert was[k..][1..] == was[k + 1..];
          if inner[k].Value? {
            kept := kept + [inner[k]];
          }
        }
        NoneLeft(was, kept);
      }
      inner := kept;
    }

    /** The standard library's sort, on values only. */
    method SortDesc()
      requires AllValues(inner)
      modifies this
      ensures AllValues(inner) && Unwrapped(inner) == Sorted(old(Unwrapped(inner)))
      ensures pushed == old(pushed) && len == old(len)
    {
      inner := Wrapped(Sorted(Unwrapped(inner)));
    }

    method RetainNonZeroAndSort()
      requires Valid()
      modifies this
      ensures AllValues(inner) && Unwrapped(inner) == Sorted(NonZero(old(pushed)))
      ensures pushed == old(pushed) && len == old(len)
    {
      RetainNonZero();
      SortDesc();
    }

    method Sum() returns (sum: real)
      requires Valid()
      ensures sum == SumOf(pushed)
    {
      RetainedPlain(inner);
      SumWithoutZeros(pushed);
      assert inner[0..] == inner;
      sum := 0.0;
      for k := 0 to |inner|
        invariant SumOf(pushed) == sum + SumOf(Unwrapped(Values(inner[k..])))
      {
        hide Compact, Plain, NonZero, SumOf, Unwrapped, Values;
        SumStep(inner, k);
        if inner[k].Value? {
          sum := sum + inner[k].value;
        }
      }
      assert inner[|inner|..] == [];
    }

    method Iter() returns (iter: StrainsIter)
      ensures fresh(iter) && iter.Rest() == Plain(inner) && iter.len == len
    {
      iter := new StrainsIter(inner, len);
    }

    /** All elements with the zeros spelled out again. */
    method IntoVec() returns (vec: seq<real>)
      requires Valid()
      ensures vec == pushed
    {
      hide Plain, Compact;
      var iter := Iter();
      hide StrainsIter.Rest;
      vec := [];
      var item := iter.Next();
      while item.Some?
        invariant fresh(iter) && iter.len == |iter.Rest()|
        invariant pushed == vec + (if item.Some? then [item.value] + iter.Rest() else [])
        decreases |iter.Rest()| + if item.Some? then 1 else 0
      {
        vec := vec + [item.value];
        item := iter.Next();
      }
    }
  }

  lemma IsPushed(was: seq<StrainsEntry>, now: seq<StrainsEntry>, value: real)
    requires now == if value != 0.0 then was + [Value(value)]
                    else if |was| > 0 && was[|was| - 1].Zeros? then was[|was| - 1 := Zeros(was[|was| - 1].count + 1)]
                    else was + [Zeros(1)]
    ensures now == Pushed(was, value)
  {}

  lemma FirstOf(e: StrainsEntry, rest: seq<real>)
    ensures e.Value? ==> Expanded(e) + rest == [e.value] + rest
    ensures e.Zeros? && e.count == 0 ==> Expanded(e) + rest == rest
    ensures e.Zeros? && e.count > 0 ==> Expanded(e) + rest == [0.0] + (Expanded(Zeros(e.count - 1)) + rest)
  {}

  class StrainsIter {
    var inner: seq<StrainsEntry>
    var curr: Option<StrainsEntry>
    var len: nat

    /** What is still to come. */
    function Rest(): seq<real>
      reads this
    {
      if curr.None? then [] else Expanded(curr.value) + Plain(inner)
    }

    constructor (entries: seq<StrainsEntry>, len: nat)
      ensures Rest() == Plain(entries) && this.len == len
    {
      this.inner := if entries == [] then [] else entries[1..];
      this.curr := if entries == [] then None else Some(entries[0]);
      this.len := len;
    }

    /** `self.curr = self.inner.next()` */
    method Advance()
      modifies this
      ensures Rest() == Plain(old(inner)) && len == old(len)
      ensures |inner| <= old(|inner|) && (curr.None? || |inner| < old(|inner|))
    {
      if inner == [] {
        curr := None;
      } else {
        curr, inner := Some(inner[0]), inner[1..];
      }
    }

    method Next() returns (item: Option<real>)
      requires |Rest()| <= len
      modifies this
      ensures old(Rest()) == [] ==> item == None && Rest() == [] && len == old(len)
      ensures old(Rest()) != [] ==>
        item == Some(old(Rest())[0]) && Rest() == old(Rest())[1..] && len == old(len) - 1
    {
      hide Plain, Expanded, Zeroes;
      while curr.Some?
        invariant Rest() == old(Rest()) && len == old(len)
        decreases |inner| + if curr.Some? then 1 else 0
      {
        FirstOf(curr.value, Plain(inner));
        match curr.value
        case Value(value) =>
          Advance();
          len := len - 1;
          return Some(value);
        case Zeros(count) =>
          if count > 0 {
            curr := Some(Zeros(count - 1));
            len := len - 1;
            return Some(0.0);
          }
          Advance();
      }
      item := None;
    }
  }
}
