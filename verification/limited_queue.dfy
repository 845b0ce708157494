/** A ring buffer that keeps the last elements pushed, and its double-ended iterator. */
module LimitedQueue {
  import opened Wrappers
  import opened Remainders

  /** The last `n` elements, or all if there are fewer. */
  function Last<T>(s: seq<T>, n: nat): (r: seq<T>)
    ensures |r| == if |s| < n then |s| else n
  {
    if |s| < n then s else s[|s| - n..]
  }

  lemma LastOfPushed<T>(pushed: seq<T>, x: T, n: nat)
    requires n > 0
    ensures Last(pushed + [x], n) == (if |pushed| < n then Last(pushed, n) else Last(pushed, n)[1..]) + [x]
  {}

  /** What the buffer means: the oldest element is behind `end` in a full buffer, else first. */
  function Unrolled<T>(queue: seq<T>, end: nat, len: nat): (c: seq<T>)
    requires end < |queue| && len <= |queue|
    ensures |c| == len
  {
    if len == |queue| then queue[end + 1..] + queue[..end + 1] else queue[..len]
  }

  lemma OverwrittenBehind<T>(queue: seq<T>, end: nat, elem: T)
    requires end + 1 < |queue|
    ensures Unrolled(queue[end + 1 := elem], end + 1, |queue|) == Unrolled(queue, end, |queue|)[1..] + [elem]
  {
    var i := end + 1;
    var now := queue[i := elem];
    assert now[i + 1..] == queue[i..][1..];
    assert now[..i + 1] == queue[..i] + [elem];
    assert (queue[i..] + queue[..i])[1..] == queue[i..][1..] + queue[..i];
  }

  lemma OverwrittenFirst<T>(queue: seq<T>, elem: T)
    requires |queue| > 0
    ensures Unrolled(queue[0 := elem], 0, |queue|) == Unrolled(queue, |queue| - 1, |queue|)[1..] + [elem]
  {
    assert Unrolled(queue, |queue| - 1, |queue|) == queue;
    assert queue[0 := elem][1..] == queue[1..];
  }

  lemma Filled<T>(queue: seq<T>, end: nat, len: nat, elem: T)
    requires len < |queue|
    ensures Unrolled(queue[len := elem], len, len + 1) == queue[..len] + [elem]
  {
    var now := queue[len := elem];
    assert now[..len + 1] == queue[..len] + [elem];
    if len + 1 == |queue| {
      assert now[len + 1..] == [];
    }
  }

  /** The fields fit each other and what has been pushed. */
  ghost predicate Holds<T>(queue: seq<T>, end: nat, len: nat, pushed: seq<T>) {
    && end < |queue| && len <= |queue|
    && (len < |queue| ==> end == if len == 0 then |queue| - 1 else len - 1)
    && Unrolled(queue, end, len) == Last(pushed, |queue|)
  }

  lemma HoldsBounds<T>(queue: seq<T>, end: nat, len: nat, pushed: seq<T>)
    requires Holds(queue, end, len, pushed)
    ensures end < |queue| && len <= |queue|
  {}

  lemma PushHolds<T>(queue: seq<T>, end: nat, len: nat, pushed: seq<T>, elem: T, i: nat)
    requires Holds(queue, end, len, pushed) && i == if end + 1 < |queue| then end + 1 else 0
    ensures Holds(queue[i := elem], i, if len < |queue| then len + 1 else len, pushed + [elem])
  {
    if len < |queue| {
      PushIntoRoom(queue, end, len, pushed, elem);
    } else {
      PushIntoFull(queue, end, pushed, elem, i);
    }
  }

  lemma PushIntoRoom<T>(queue: seq<T>, end: nat, len: nat, pushed: seq<T>, elem: T)
    requires end < |queue| && len < |queue| && Unrolled(queue, end, len) == Last(pushed, |queue|)
    ensures Unrolled(queue[len := elem], len, len + 1) == Last(pushed + [elem], |queue|)
  {
    hide *;
    LastOfPushed(pushed, elem, |queue|);
    Filled(queue, end, len, elem);
    NotFull(queue, end, len);
  }

  lemma PushIntoFull<T>(queue: seq<T>, end: nat, pushed: seq<T>, elem: T, i: nat)
    requires end < |queue| && Unrolled(queue, end, |queue|) == Last(pushed, |queue|)
    requires i == if end + 1 < |queue| then end + 1 else 0
    ensures Unrolled(queue[i := elem], i, |queue|) == Last(pushed + [elem], |queue|)
  {
    hide *;
    LastOfPushed(pushed, elem, |queue|);
    if end + 1 < |queue| {
      OverwrittenBehind(queue, end, elem);
    } else {
      OverwrittenFirst(queue, elem);
    }
  }

  lemma NotFull<T>(queue: seq<T>, end: nat, len: nat)
    requires end < |queue| && len < |queue|
    ensures Unrolled(queue, end, len) == queue[..len]
  {}

  class LimitedQueue<T(0)> {
    const queue: array<T>
    var end: nat
    var len: nat
    /** Everything pushed so far. */
    ghost var pushed: seq<T>

    ghost predicate Valid()
      reads this, queue
    {
      Holds(queue[..], end, len, pushed)
    }

    /** Oldest first. */
    function Contents(): (c: seq<T>)
      requires end < queue.Length && len <= queue.Length
      reads this, queue
      ensures |c| == len
    {
      Unrolled(queue[..], end, len)
    }

    constructor (n: nat)
      requires n > 0
      ensures Valid() && fresh(queue) && queue.Length == n && pushed == []
    {
      queue := new T[n];
      end, len, pushed := n - 1, 0, [];
    }

    method Push(elem: T)
      requires Valid()
      modifies this, queue
      ensures Valid() && pushed == old(pushed) + [elem]
    {
      hide Holds;
      ghost var was := queue[..];
      HoldsBounds(was, end, len, pushed);
      WrapsOnce(end + 1, queue.Length);
      PushHolds(was, end, len, pushed, elem, (end + 1) % queue.Length);
      end := (end + 1) % queue.Length;
      queue[end] := elem;
      len := len + if len < queue.Length then 1 else 0;
      pushed := pushed + [elem];
      assert queue[..] == was[end := elem];
    }

    predicate IsFull()
      reads this
    {
      len == queue.Length
    }

    /** Beyond the length the index wraps around a full queue. */
    function Index(idx: nat): (x: T)
      requires Valid()
      reads this, queue
      ensures idx < len ==> x == Last(pushed, queue.Length)[idx]
      ensures IsFull() ==> x == Contents()[idx % queue.Length]
    {
      var n := queue.Length;
      var from := if len == n then end + 1 else 0;
      WrapsBeforeAdding(idx, from, n);
      WrapsOnce(idx % n + from, n);
      assert idx < n ==> idx % n == idx by {
        if idx < n { SmallRemainder(idx, n); }
      }
      queue[(idx + from) % n]
    }

    /** The older part and the newer part. */
    function AsSlices(): (slices: (seq<T>, seq<T>))
      requires Valid()
      reads this, queue
      ensures slices.0 + slices.1 == Last(pushed, queue.Length)
    {
      if IsFull() then (queue[end + 1..], queue[..end + 1]) else ([], queue[..len])
    }

    function LastElement(): (x: Option<T>)
      requires Valid()
      reads this, queue
      ensures x == if pushed == [] then None else Some(pushed[|pushed| - 1])
    {
      assert len > 0 ==> queue[end] == Contents()[len - 1];
      if len == 0 then None else Some(queue[end])
    }

    method Iter() returns (iter: LimitedQueueIter<T>)
      requires Valid()
      ensures fresh(iter) && iter.Rest() == Last(pushed, queue.Length)
    {
      var (head, tail) := AsSlices();
      iter := new LimitedQueueIter(head, tail);
    }
  }

  /** An iterator over two slices; a slice iterator is what is left of its slice. */
  class LimitedQueueIter<T> {
    var head: seq<T>
    var tail: seq<T>

    function Rest(): seq<T>
      reads this
    {
      head + tail
    }

    constructor (head: seq<T>, tail: seq<T>)
      ensures Rest() == head + tail
    {
      this.head, this.tail := head, tail;
    }

    method Next() returns (item: Option<T>)
      modifies this
      ensures (item, Rest()) == Yields(Front, old(Rest()))
    {
      assert tail + [] == tail;
      if head == [] {
        head, tail := tail, head;
      }
      assert Rest() == old(Rest());
      assert head != [] ==> Rest()[1..] == head[1..] + tail;
      if head == [] {
        item := None;
      } else {
        item, head := Some(head[0]), head[1..];
      }
    }

    method NextBack() returns (item: Option<T>)
      modifies this
      ensures (item, Rest()) == Yields(Back, old(Rest()))
    {
      if tail == [] {
        head, tail := tail, head;
      }
      assert Rest() == old(Rest());
      assert tail != [] ==> Rest()[..|Rest()| - 1] == head + tail[..|tail| - 1];
      if tail == [] {
        item := None;
      } else {
        item, tail := Some(tail[|tail| - 1]), tail[..|tail| - 1];
      }
    }

    method Nth(n: nat) returns (item: Option<T>)
      modifies this
      ensures (item, Rest()) == Yields(Skip(n), old(Rest()))
    {
      assert n < |head| ==> Rest()[n + 1..] == head[n + 1..] + tail;
      assert |head| <= n < |Rest()| ==> Rest()[n + 1..] == tail[n - |head| + 1..] + [];
      var m := n;
      if |head| <= m {
        m := m - |head|;
        head, tail := tail, head;
        tail := [];
      }
      // the slice iterator's own `nth`
      if m < |head| {
        item, head := Some(head[m]), head[m + 1..];
      } else {
        item, head := None, [];
      }
    }

    function Len(): (n: nat)
      reads this
      ensures n == |Rest()|
    {
      |head| + |tail|
    }
  }

  // ---------- any sequence of calls ----------

  datatype Call = Front | Back | Skip(n: nat)

  /** What a call gives on a plain list, and what it leaves. */
  function Yields<T>(call: Call, rest: seq<T>): (r: (Option<T>, seq<T>)) {
    match call
    case Front => if rest == [] then (None, []) else (Some(rest[0]), rest[1..])
    case Back => if rest == [] then (None, []) else (Some(rest[|rest| - 1]), rest[..|rest| - 1])
    case Skip(n) => if n < |rest| then (Some(rest[n]), rest[n + 1..]) else (None, [])
  }

  /** What a run of calls gives from the front, what is left, and what it gave from the back. */
  function Run<T>(calls: seq<Call>, rest: seq<T>): (r: (seq<T>, seq<T>, seq<T>)) {
    if calls == [] then ([], rest, [])
    else
      var (item, left) := Yields(calls[0], rest);
      var (front, middle, back) := Run(calls[1..], left);
      if item == None then (front, middle, back)
      else if calls[0].Back? then (front, middle, back + [item.value])
      else ([item.value] + front, middle, back)
  }

  lemma AddedAtEnds<T>(x: T, front: seq<T>, middle: seq<T>, back: seq<T>)
    ensures ([x] + front) + middle + back == [x] + (front + middle + back)
    ensures front + middle + (back + [x]) == (front + middle + back) + [x]
  {}

  /** Without skips nothing is lost, doubled or moved, however the two ends take turns. */
  lemma {:induction false} EndsTakeTurns<T>(calls: seq<Call>, rest: seq<T>)
    requires forall k | 0 <= k < |calls| :: !calls[k].Skip?
    ensures var (front, middle, back) := Run(calls, rest); front + middle + back == rest
  {
    if calls != [] {
      var (item, left) := Yields(calls[0], rest);
      var (front, middle, back) := Run(calls[1..], left);
      EndsTakeTurns(calls[1..], left);
      if item != None {
        AddedAtEnds(item.value, front, middle, back);
      }
    }
  }

  /** `nth(n)` is `n + 1` calls of `next`, the last of which gives the element. */
  lemma {:induction false} SkipIsManyNexts<T>(n: nat, rest: seq<T>)
    ensures Yields(Skip(n), rest) ==
      if n == 0 then Yields(Front, rest) else Yields(Skip(n - 1), Yields(Front, rest).1)
  {
    if 0 < n < |rest| {
      assert rest[1..][n..] == rest[n + 1..];
    }
  }
}
