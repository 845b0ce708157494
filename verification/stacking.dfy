/** osu!'s stacking: objects on top of each other get heights, computed back to front. */
module Stacking {
  import opened Wrappers
  import opened Rounding

  datatype Kind = Circle | Slider | Spinner

  datatype Pos = Pos(x: real, y: real)

  datatype Object = Object(kind: Kind, pos: Pos, endPos: Pos, startTime: real, endTime: real)

  // ---------- chains ----------

  /** For each object the one it stacks onto, if any. */
  type Bases = seq<Option<nat>>

  /** Only what comes before an object can be its base. */
  function BaseOf(bases: Bases, c: nat): (b: Option<nat>)
    ensures b.Some? ==> b.value < c < |bases|
  {
    if c < |bases| && bases[c].Some? && bases[c].value < c then bases[c] else None
  }

  /** `n` stacks directly onto `m`. */
  ghost predicate Covers(bases: Bases, n: nat, m: nat) {
    BaseOf(bases, n) == Some(m)
  }

  /** Nothing stacks onto `m`. */
  ghost predicate IsTop(bases: Bases, m: nat) {
    m < |bases| && forall n: nat :: !Covers(bases, n, m)
  }

  /** Going from base to base leads from `i` to `m`. */
  predicate RestsOn(bases: Bases, i: nat, m: nat)
    decreases i
  {
    && i < |bases|
    && (i == m || (BaseOf(bases, i).Some? && RestsOn(bases, BaseOf(bases, i).value, m)))
  }

  /** In how many steps. */
  function Steps(bases: Bases, i: nat, m: nat): (k: nat)
    requires RestsOn(bases, i, m)
    ensures k == 0 <==> i == m
    decreases i
  {
    if i == m then 0 else 1 + Steps(bases, BaseOf(bases, i).value, m)
  }

  /** The height of `m` once all tops from `i` on are done: the distance from the first of those
      tops that rests on it, 0 if there is none. */
  ghost function Height(bases: Bases, m: nat, i: nat): (h: nat)
    decreases |bases| - i
  {
    if i >= |bases| then 0
    else if IsTop(bases, i) && RestsOn(bases, i, m) then Steps(bases, i, m)
    else Height(bases, m, i + 1)
  }

  // ---------- heights and covers ----------

  /** Between `i` and `m` there is a last step, from an object that covers `m`. */
  ghost function Cover(bases: Bases, i: nat, m: nat): (n: nat)
    requires RestsOn(bases, i, m) && i != m
    ensures Covers(bases, n, m) && n <= i && RestsOn(bases, i, n)
    ensures Steps(bases, i, m) == Steps(bases, i, n) + 1
    decreases i
  {
    var b := BaseOf(bases, i).value;
    if b == m then i else Cover(bases, b, m)
  }

  /** A top from `i` on that rests on `m`. */
  ghost predicate TopOver(bases: Bases, i: nat, m: nat, top: nat) {
    i <= top && IsTop(bases, top) && RestsOn(bases, top, m)
  }

  /** The first of them. */
  ghost predicate FirstTop(bases: Bases, i: nat, m: nat, top: nat) {
    TopOver(bases, i, m, top) && forall t: nat | t < top :: !TopOver(bases, i, m, t)
  }

  lemma {:induction false} RestsThrough(bases: Bases, i: nat, n: nat, m: nat)
    requires RestsOn(bases, i, n) && RestsOn(bases, n, m)
    ensures RestsOn(bases, i, m)
    ensures Steps(bases, i, m) == Steps(bases, i, n) + Steps(bases, n, m)
    decreases i
  {
    hide BaseOf;
    RestsBelow(bases, n, m);
    if i != n {
      RestsThrough(bases, BaseOf(bases, i).value, n, m);
      RestsBelow(bases, BaseOf(bases, i).value, n);
    }
  }

  lemma {:induction false} RestsBelow(bases: Bases, i: nat, m: nat)
    requires RestsOn(bases, i, m)
    ensures m <= i < |bases|
    decreases i
  {
    hide BaseOf;
    if i != m {
      RestsBelow(bases, BaseOf(bases, i).value, m);
    }
  }

  /** Every object is a top or carries one. */
  lemma {:induction false} CarriesTop(bases: Bases, m: nat) returns (top: nat)
    requires m < |bases|
    ensures TopOver(bases, m, m, top)
    ensures top == m <==> IsTop(bases, m)
    decreases |bases| - m
  {
    hide BaseOf;
    if IsTop(bases, m) {
      top := m;
    } else {
      var n: nat :| Covers(bases, n, m);
      top := CarriesTop(bases, n);
      assert RestsOn(bases, n, m);
      RestsThrough(bases, top, n, m);
    }
  }

  lemma {:induction false} HeightFromTop(bases: Bases, m: nat, i: nat) returns (top: nat)
    requires Height(bases, m, i) > 0
    ensures FirstTop(bases, i, m, top) && top != m
    ensures Height(bases, m, i) == Steps(bases, top, m)
    decreases |bases| - i
  {
    hide BaseOf;
    if IsTop(bases, i) && RestsOn(bases, i, m) {
      top := i;
    } else {
      top := HeightFromTop(bases, m, i + 1);
      assert forall t: nat | t < top :: TopOver(bases, i, m, t) ==> TopOver(bases, i + 1, m, t);
    }
  }

  /** The height is the distance from the first top that rests on `m`. */
  lemma {:induction false} HeightOf(bases: Bases, m: nat, i: nat, top: nat)
    requires FirstTop(bases, i, m, top)
    ensures Height(bases, m, i) == Steps(bases, top, m)
    decreases |bases| - i
  {
    hide BaseOf;
    if i < top {
      assert !TopOver(bases, i, m, i);
      var next := i + 1;
      forall t: nat | t < top
        ensures !TopOver(bases, next, m, t)
      {
        assert !TopOver(bases, i, m, t);
      }
      HeightOf(bases, m, next, top);
    }
  }

  /** Heights are positive exactly on objects that others stack onto. */
  lemma PositiveHeights(bases: Bases, m: nat, i: nat)
    requires i <= m + 1
    ensures Height(bases, m, i) > 0 <==> exists n: nat :: Covers(bases, n, m)
  {
    hide BaseOf, Height;
    if Height(bases, m, i) > 0 {
      var top := HeightFromTop(bases, m, i);
      var n := Cover(bases, top, m);
    } else if n: nat :| Covers(bases, n, m) {
      var top := CarriesTop(bases, n);
      assert RestsOn(bases, n, m);
      RestsThrough(bases, top, n, m);
      assert TopOver(bases, i, m, top);
      RestsBelow(bases, top, n);
      NoZeroHeight(bases, m, i, top);
    }
  }

  lemma {:induction false} NoZeroHeight(bases: Bases, m: nat, i: nat, top: nat)
    requires TopOver(bases, i, m, top) && top != m
    ensures Height(bases, m, i) > 0
    decreases |bases| - i
  {
    hide BaseOf;
    if i < |bases| && IsTop(bases, i) && RestsOn(bases, i, m) {
      if i == m {
        var n := Cover(bases, top, m);
        assert false;
      }
    } else {
      NoZeroHeight(bases, m, i + 1, top);
    }
  }

  /** A positive height is one more than that of an object directly on top. */
  lemma OneAboveCover(bases: Bases, m: nat) returns (n: nat)
    requires Height(bases, m, 0) > 0
    ensures Covers(bases, n, m)
    ensures Height(bases, m, 0) == Height(bases, n, 0) + 1
  {
    hide BaseOf, Height;
    var top := HeightFromTop(bases, m, 0);
    n := Cover(bases, top, m);
    assert RestsOn(bases, n, m);
    forall t: nat | TopOver(bases, 0, n, t)
      ensures TopOver(bases, 0, m, t)
    {
      RestsThrough(bases, t, n, m);
    }
    HeightOf(bases, n, 0, top);
  }

  /** What the heights at the end say about who stacks onto whom. */
  lemma FinalHeights(bases: Bases, m: nat)
    requires m < |bases|
    ensures Height(bases, m, 0) > 0 <==> exists n: nat :: Covers(bases, n, m)
    ensures Height(bases, m, 0) > 0 ==>
      exists n: nat :: Covers(bases, n, m)
        && Height(bases, m, 0) == Height(bases, n, 0) + 1
  {
    hide Height, Covers;
    PositiveHeights(bases, m, 0);
    if Height(bases, m, 0) > 0 {
      var n := OneAboveCover(bases, m);
    }
  }

  /** Objects `i` rests on come in a row: what is below `c` is reached through `c`. */
  lemma {:induction false} NothingBetween(bases: Bases, i: nat, c: nat, m: nat)
    requires RestsOn(bases, i, c) && RestsOn(bases, i, m) && m < c
    ensures c < |bases|
    ensures BaseOf(bases, c).Some? && m <= BaseOf(bases, c).value
    ensures RestsOn(bases, BaseOf(bases, c).value, m)
    decreases i
  {
    hide BaseOf;
    RestsBelow(bases, i, c);
    if i == c {
      RestsBelow(bases, BaseOf(bases, c).value, m);
    } else {
      NothingBetween(bases, BaseOf(bases, i).value, c, m);
    }
  }

  // ---------- raising a chain ----------

  /** Where the chain from `i` ends. */
  function Bottom(bases: Bases, i: nat): (c: nat)
    requires i < |bases|
    ensures RestsOn(bases, i, c) && BaseOf(bases, c) == None && c <= i
    decreases i
  {
    if BaseOf(bases, i).None? then i else Bottom(bases, BaseOf(bases, i).value)
  }

  lemma BottomIs(bases: Bases, i: nat, c: nat)
    requires RestsOn(bases, i, c) && BaseOf(bases, c) == None
    ensures Bottom(bases, i) == c
  {
    hide BaseOf;
    RestsBelow(bases, i, c);
    if Bottom(bases, i) < c {
      NothingBetween(bases, i, c, Bottom(bases, i));
      assert false;
    } else if c < Bottom(bases, i) {
      NothingBetween(bases, i, Bottom(bases, i), c);
      assert false;
    }
  }

  /** Down to `c`, everything `i` rests on is as much above `i` as it is away from it. */
  function Raised(bases: Bases, heights: seq<int>, i: nat, c: nat): (r: seq<int>)
    requires i < |heights| == |bases|
    ensures |r| == |heights|
  {
    seq(|heights|, m requires 0 <= m < |heights| =>
      if m >= c && RestsOn(bases, i, m) then heights[i] + Steps(bases, i, m) else heights[m])
  }

  lemma OneStep(bases: Bases, c: nat, n: nat)
    requires BaseOf(bases, c) == Some(n)
    ensures RestsOn(bases, c, n) && Steps(bases, c, n) == 1
  {
    assert RestsOn(bases, n, n) && Steps(bases, n, n) == 0;
  }

  lemma NoneRaised(bases: Bases, heights: seq<int>, i: nat)
    requires i < |heights| == |bases|
    ensures Raised(bases, heights, i, i) == heights
  {
    forall m | i <= m < |heights| && RestsOn(bases, i, m)
      ensures m == i
    {
      RestsBelow(bases, i, m);
    }
  }

  /** One step of the chain: the base goes one above the object on it. */
  lemma RaisedNext(bases: Bases, heights: seq<int>, i: nat, c: nat, n: nat)
    requires i < |heights| == |bases| && RestsOn(bases, i, c) && BaseOf(bases, c) == Some(n)
    ensures n < c <= i && RestsOn(bases, i, n)
    ensures var r := Raised(bases, heights, i, c);
      Raised(bases, heights, i, n) == r[n := r[c] + 1]
  {
    hide BaseOf;
    RestsBelow(bases, i, c);
    OneStep(bases, c, n);
    RestsThrough(bases, i, c, n);
    forall m | n < m < c
      ensures !RestsOn(bases, i, m)
    {
      if RestsOn(bases, i, m) {
        NothingBetween(bases, i, c, m);
        assert false;
      }
    }
  }

  lemma AllRaised(bases: Bases, heights: seq<int>, i: nat, c: nat)
    requires i < |heights| == |bases| && RestsOn(bases, i, c) && BaseOf(bases, c) == None
    ensures Raised(bases, heights, i, c) == Raised(bases, heights, i, 0)
  {
    hide BaseOf;
    forall m | 0 <= m < c
      ensures !RestsOn(bases, i, m)
    {
      if RestsOn(bases, i, m) {
        NothingBetween(bases, i, c, m);
        assert false;
      }
    }
  }

  // ---------- what an object stacks onto ----------

  /** The distance is below 3. */
  predicate Near(a: Pos, b: Pos) {
    (a.x - b.x) * (a.x - b.x) + (a.y - b.y) * (a.y - b.y) < 9.0
  }

  /** `d` is the distance, whose square the coordinates give. */
  lemma NearIs(a: Pos, b: Pos, d: real)
    requires d >= 0.0 && d * d == (b.x - a.x) * (b.x - a.x) + (b.y - a.y) * (b.y - a.y)
    ensures Near(a, b) <==> d < 3.0
  {
    SameSquare(a.x, b.x);
    SameSquare(a.y, b.y);
    if d < 3.0 {
      SquareBelow(d, 3.0);
    } else if d > 3.0 {
      SquareBelow(3.0, d);
    }
  }

  lemma SameSquare(x: real, y: real)
    ensures (x - y) * (x - y) == (y - x) * (y - x)
  {}

  lemma SquareBelow(x: real, y: real)
    requires 0.0 <= x < y
    ensures x * x < y * y
  {
    var difference, sum := y - x, y + x;
    PositiveProduct(difference, sum);
    assert difference * sum == y * y - x * x;
  }

  predicate OnTop(objects: seq<Object>, c: nat, n: nat)
    requires n < |objects| && c < |objects|
  {
    Near(objects[n].pos, objects[c].pos)
  }

  predicate OnEnd(objects: seq<Object>, c: nat, n: nat)
    requires n < |objects| && c < |objects|
  {
    Near(objects[n].endPos, objects[c].pos)
  }

  predicate OnSliderEnd(objects: seq<Object>, c: nat, n: nat)
    requires n < |objects| && c < |objects|
  {
    objects[n].kind.Slider? && OnEnd(objects, c, n)
  }

  /** How a search from an object backwards ends. */
  datatype Step = Onto(n: nat) | AtSlider(n: nat) | End

  /** What a search finds at `n`, if it does not go on. */
  type Look = (seq<Object>, real, nat, nat) -> Option<Step>

  /** A chain from a circle. */
  function CircleLook(objects: seq<Object>, threshold: real, c: nat, n: nat): (s: Option<Step>) {
    if n >= |objects| || c >= |objects| || objects[n].kind.Spinner? then None
    else if objects[c].startTime - objects[n].endTime > threshold then Some(End)
    else if OnSliderEnd(objects, c, n) then Some(AtSlider(n))
    else if OnTop(objects, c, n) then Some(Onto(n))
    else None
  }

  /** A chain from a slider goes along slider ends, and measures from their starts. */
  function SliderLook(objects: seq<Object>, threshold: real, c: nat, n: nat): (s: Option<Step>) {
    if n >= |objects| || c >= |objects| || objects[n].kind.Spinner? then None
    else if objects[c].startTime - objects[n].startTime > threshold then Some(End)
    else if OnEnd(objects, c, n) then Some(Onto(n))
    else None
  }

  /** The search for what `c` stacks onto, before `n`. */
  function Search(look: Look, objects: seq<Object>, threshold: real, c: nat, n: nat): Step {
    if n == 0 then End
    else
      var s := look(objects, threshold, c, n - 1);
      if s.Some? then s.value else Search(look, objects, threshold, c, n - 1)
  }

  /** The search ends with the last object before `n` at which there is something to find. */
  lemma {:induction false} SearchFinds(look: Look, objects: seq<Object>, threshold: real, c: nat, n: nat) returns (k: nat)
    ensures k <= n && forall m: nat | k <= m < n :: look(objects, threshold, c, m) == None
    ensures if k == 0 then Search(look, objects, threshold, c, n) == End
            else look(objects, threshold, c, k - 1) == Some(Search(look, objects, threshold, c, n))
  {
    k := n;
    if n > 0 && look(objects, threshold, c, n - 1).None? {
      k := SearchFinds(look, objects, threshold, c, n - 1);
    }
  }

  lemma {:induction false} SearchIs(look: Look, objects: seq<Object>, threshold: real, c: nat, n: nat, k: nat)
    requires k < n && look(objects, threshold, c, k).Some?
    requires forall m: nat | k < m < n :: look(objects, threshold, c, m) == None
    ensures look(objects, threshold, c, k) == Some(Search(look, objects, threshold, c, n))
  {
    if k < n - 1 {
      assert look(objects, threshold, c, n - 1) == None;
      SearchIs(look, objects, threshold, c, n - 1, k);
    }
  }

  function BasesBy(look: Look, objects: seq<Object>, threshold: real): (bases: Bases)
    ensures |bases| == |objects|
  {
    seq(|objects|, c requires 0 <= c < |objects| =>
      var s := Search(look, objects, threshold, c, c);
      if s.Onto? && !objects[c].kind.Spinner? then Some(s.n) else None)
  }

  /** A search never leads onto anything but the object looked at. */
  ghost predicate LooksAt(look: Look) {
    forall objects, threshold, c, n :: look(objects, threshold, c, n) in {None, Some(End), Some(AtSlider(n)), Some(Onto(n))}
  }

  lemma {:induction false} SearchesBefore(look: Look, objects: seq<Object>, threshold: real, c: nat, n: nat)
    requires LooksAt(look)
    ensures var s := Search(look, objects, threshold, c, n); s.End? || s.n < n
  {
    if n > 0 {
      assert look(objects, threshold, c, n - 1) in {None, Some(End), Some(AtSlider(n - 1)), Some(Onto(n - 1))};
      SearchesBefore(look, objects, threshold, c, n - 1);
    }
  }

  lemma BaseFound(look: Look, objects: seq<Object>, threshold: real, c: nat)
    requires LooksAt(look) && c < |objects| && !objects[c].kind.Spinner?
    ensures var s := Search(look, objects, threshold, c, c);
      BaseOf(BasesBy(look, objects, threshold), c) == if s.Onto? then Some(s.n) else None
  {
    SearchesBefore(look, objects, threshold, c, c);
    hide LooksAt, Search;
  }

  // ---------- a pass, and all of them ----------

  /** Objects behind `n` up to `i` that are on the end of `n` move below it. */
  function Lowered(objects: seq<Object>, heights: seq<int>, n: nat, i: nat, offset: int): (r: seq<int>)
    requires n < |objects| == |heights|
    ensures |r| == |heights|
  {
    seq(|heights|, k requires 0 <= k < |heights| =>
      if n < k <= i && OnEnd(objects, k, n) then heights[k] - offset else heights[k])
  }

  /** Where a chain of circles ends at a slider, everything on that one's end is lowered, so that
      the bottom `c` of the chain would be one below the slider. */
  function Turned(objects: seq<Object>, threshold: real, raised: seq<int>, c: nat, i: nat): (r: seq<int>)
    requires c < |objects| == |raised|
    ensures |r| == |raised|
  {
    var s := Search(CircleLook, objects, threshold, c, c);
    if s.AtSlider? && s.n < |objects| then Lowered(objects, raised, s.n, i, raised[c] - raised[s.n] + 1) else raised
  }

  /** The heights after a chain from the circle `i`. */
  function AfterCircle(objects: seq<Object>, threshold: real, heights: seq<int>, i: nat): (r: seq<int>)
    requires i < |objects| == |heights|
    ensures |r| == |heights|
  {
    var bases := BasesBy(CircleLook, objects, threshold);
    Turned(objects, threshold, Raised(bases, heights, i, 0), Bottom(bases, i), i)
  }

  function AfterSlider(objects: seq<Object>, threshold: real, heights: seq<int>, i: nat): (r: seq<int>)
    requires i < |objects| == |heights|
    ensures |r| == |heights|
  {
    Raised(BasesBy(SliderLook, objects, threshold), heights, i, 0)
  }

  function Pass(objects: seq<Object>, threshold: real, heights: seq<int>, i: nat): (r: seq<int>)
    requires i < |objects| == |heights|
    ensures |r| == |heights|
  {
    if heights[i] != 0 || objects[i].kind.Spinner? then heights
    else if objects[i].kind.Circle? then AfterCircle(objects, threshold, heights, i)
    else AfterSlider(objects, threshold, heights, i)
  }

  /** The heights after the passes from the last object down to `i`. */
  function Passes(objects: seq<Object>, threshold: real, i: nat): (h: seq<int>)
    ensures |h| == |objects|
    decreases |objects| - i
  {
    if i >= |objects| then seq(|objects|, _ => 0) else Pass(objects, threshold, Passes(objects, threshold, i + 1), i)
  }

  // ---------- what passes do ----------

  lemma PassUpTo(objects: seq<Object>, threshold: real, heights: seq<int>, i: nat, k: nat)
    requires i < k < |objects| == |heights|
    ensures Pass(objects, threshold, heights, i)[k] == heights[k]
  {
    hide Bottom, Search, BaseOf;
    NotAbove(BasesBy(CircleLook, objects, threshold), i, k);
    NotAbove(BasesBy(SliderLook, objects, threshold), i, k);
  }

  lemma NotAbove(bases: Bases, i: nat, k: nat)
    requires i < k
    ensures !RestsOn(bases, i, k)
  {
    if RestsOn(bases, i, k) {
      RestsBelow(bases, i, k);
      assert false;
    }
  }

  /** An object's height is settled once its own pass is over. */
  lemma {:induction false} Settled(objects: seq<Object>, threshold: real, i: nat, k: nat)
    requires i <= k < |objects|
    ensures Passes(objects, threshold, i)[k] == Passes(objects, threshold, k)[k]
    decreases k - i
  {
    hide Pass;
    if i < k {
      Settled(objects, threshold, i + 1, k);
      PassUpTo(objects, threshold, Passes(objects, threshold, i + 1), i, k);
    }
  }

  /** A chain of circles that ends at a slider is turned over where it is on the slider's end: its
      bottom goes one below the slider, and each step upward one further down. */
  lemma UnderSlider(objects: seq<Object>, threshold: real, heights: seq<int>, i: nat, m: nat)
    requires i < |objects| == |heights| && RestsOn(BasesBy(CircleLook, objects, threshold), i, m)
    ensures var bases := BasesBy(CircleLook, objects, threshold);
      var c := Bottom(bases, i);
      var s := Search(CircleLook, objects, threshold, c, c);
      s.AtSlider? ==>
        && s.n < c <= m && RestsOn(bases, m, c)
        && (OnEnd(objects, m, s.n) ==>
            AfterCircle(objects, threshold, heights, i)[m] == heights[s.n] - 1 - Steps(bases, m, c))
        && (!OnEnd(objects, m, s.n) ==>
            AfterCircle(objects, threshold, heights, i)[m] == heights[i] + Steps(bases, i, m))
        && AfterCircle(objects, threshold, heights, i)[s.n] == heights[s.n]
  {
    var bases := BasesBy(CircleLook, objects, threshold);
    var c := Bottom(bases, i);
    SearchesBefore(CircleLook, objects, threshold, c, c);
    hide BasesBy, Search, Bottom, BaseOf, CircleLook, OnEnd, LooksAt;
    RestsOnBottom(bases, i, m);
    RestsBelow(bases, i, m);
    var s := Search(CircleLook, objects, threshold, c, c);
    if s.AtSlider? {
      NotBelowBottom(bases, i, s.n);
    }
  }

  lemma RestsOnBottom(bases: Bases, i: nat, m: nat)
    requires RestsOn(bases, i, m)
    ensures i < |bases| && Bottom(bases, i) <= m && RestsOn(bases, m, Bottom(bases, i))
    ensures Steps(bases, i, Bottom(bases, i)) == Steps(bases, i, m) + Steps(bases, m, Bottom(bases, i))
    decreases i
  {
    hide BaseOf;
    RestsBelow(bases, i, m);
    BottomIs(bases, i, Bottom(bases, m)) by { RestsThrough(bases, i, m, Bottom(bases, m)); }
    RestsThrough(bases, i, m, Bottom(bases, m));
  }

  lemma NotBelowBottom(bases: Bases, i: nat, n: nat)
    requires i < |bases| && n < Bottom(bases, i)
    ensures !RestsOn(bases, i, n)
  {
    if RestsOn(bases, i, n) {
      RestsOnBottom(bases, i, n);
      assert false;
    }
  }

  // ---------- maps without sliders ----------

  predicate NoSliders(objects: seq<Object>) {
    forall k | 0 <= k < |objects| :: !objects[k].kind.Slider?
  }

  /** All tops from `i` on are done. */
  ghost predicate Done(bases: Bases, heights: seq<int>, i: nat) {
    |heights| == |bases| && forall m | 0 <= m < |bases| :: heights[m] == Height(bases, m, i)
  }

  lemma NextDone(bases: Bases, heights: seq<int>, i: nat)
    requires i < |bases| && Done(bases, heights, i + 1)
    ensures heights[i] != 0 || BaseOf(bases, i) == None ==> Done(bases, heights, i)
    ensures heights[i] == 0 ==> Done(bases, Raised(bases, heights, i, 0), i)
  {
    hide BaseOf;
    PositiveHeights(bases, i, i + 1);
  }

  lemma NeverAtSlider(objects: seq<Object>, threshold: real, c: nat)
    requires NoSliders(objects)
    ensures !Search(CircleLook, objects, threshold, c, c).AtSlider?
  {
    var k := SearchFinds(CircleLook, objects, threshold, c, c);
  }

  /** Without sliders every object ends up at its distance from the first top that rests on it. */
  lemma {:induction false} HeightsWithoutSliders(objects: seq<Object>, threshold: real, i: nat)
    requires NoSliders(objects)
    ensures Done(BasesBy(CircleLook, objects, threshold), Passes(objects, threshold, i), i)
    decreases |objects| - i
  {
    hide RestsOn, Search, BaseOf, Lowered, Bottom, Raised;
    if i < |objects| {
      var bases, heights := BasesBy(CircleLook, objects, threshold), Passes(objects, threshold, i + 1);
      HeightsWithoutSliders(objects, threshold, i + 1);
      NextDone(bases, heights, i);
      NeverAtSlider(objects, threshold, Bottom(bases, i));
      if objects[i].kind.Spinner? {
        SpinnersHaveNoBase(objects, threshold, i);
      }
    }
  }

  /** `n` is near `m` and in range of it, neither is a spinner, and every object between the two is
      a spinner, or in range without being near. */
  ghost predicate LastNear(objects: seq<Object>, threshold: real, n: nat, m: nat) {
    && m < n < |objects| && !objects[n].kind.Spinner? && !objects[m].kind.Spinner?
    && OnTop(objects, n, m) && objects[n].startTime - objects[m].endTime <= threshold
    && forall k | m < k < n :: PassedOver(objects, threshold, n, k)
  }

  /** What covering means on a map without sliders. */
  lemma CoversIs(objects: seq<Object>, threshold: real, n: nat, m: nat)
    requires NoSliders(objects)
    ensures Covers(BasesBy(CircleLook, objects, threshold), n, m) <==> LastNear(objects, threshold, n, m)
  {
    hide OnTop, LooksAt, Search, BaseOf;
    if Covers(BasesBy(CircleLook, objects, threshold), n, m) {
      CoveredIsNear(objects, threshold, n, m);
    }
    if LastNear(objects, threshold, n, m) {
      NearIsCovered(objects, threshold, n, m);
    }
  }

  lemma CoveredIsNear(objects: seq<Object>, threshold: real, n: nat, m: nat)
    requires NoSliders(objects) && Covers(BasesBy(CircleLook, objects, threshold), n, m)
    ensures LastNear(objects, threshold, n, m)
  {
    BothLook();
    BaseFound(CircleLook, objects, threshold, n);
    var k := SearchFinds(CircleLook, objects, threshold, n, n);
    hide OnTop, LooksAt, Search, BaseOf;
    assert k == m + 1;
    forall c | m < c < n
      ensures PassedOver(objects, threshold, n, c)
    {
      assert CircleLook(objects, threshold, n, c) == None;
    }
  }

  lemma NearIsCovered(objects: seq<Object>, threshold: real, n: nat, m: nat)
    requires NoSliders(objects) && LastNear(objects, threshold, n, m)
    ensures Covers(BasesBy(CircleLook, objects, threshold), n, m)
  {
    BothLook();
    BaseFound(CircleLook, objects, threshold, n);
    hide OnTop, LooksAt, Search, BaseOf;
    forall c: nat | m < c < n
      ensures CircleLook(objects, threshold, n, c) == None
    {
      assert PassedOver(objects, threshold, n, c);
    }
    SearchIs(CircleLook, objects, threshold, n, n, m);
  }

  predicate PassedOver(objects: seq<Object>, threshold: real, c: nat, n: nat)
    requires n < |objects| && c < |objects|
  {
    objects[n].kind.Spinner? || (objects[c].startTime - objects[n].endTime <= threshold && !OnTop(objects, c, n))
  }

  /** The heights of a map without sliders, and what they say about who stacks onto whom. */
  lemma WithoutSliders(objects: seq<Object>, threshold: real, m: nat)
    requires NoSliders(objects) && m < |objects|
    ensures var bases := BasesBy(CircleLook, objects, threshold);
      var heights := Passes(objects, threshold, 1);
      && heights[m] == Height(bases, m, 0) >= 0
      && (heights[m] > 0 <==> exists n: nat :: Covers(bases, n, m))
      && (heights[m] > 0 ==> exists n: nat | n < |objects| :: Covers(bases, n, m) && heights[m] == heights[n] + 1)
  {
    var bases, heights := BasesBy(CircleLook, objects, threshold), Passes(objects, threshold, 1);
    HeightsWithoutSliders(objects, threshold, 1);
    hide Passes, BasesBy, Height, RestsOn;
    NextDone(bases, heights, 0);
    FinalHeights(bases, m);
  }

  lemma SpinnersHaveNoBase(objects: seq<Object>, threshold: real, i: nat)
    requires i < |objects| && objects[i].kind.Spinner?
    ensures BaseOf(BasesBy(CircleLook, objects, threshold), i) == None
  {}

  // ---------- the loops ----------

  /** The heights after all passes. */
  method Stack(objects: seq<Object>, heights: array<int>, threshold: real)
    requires heights[..] == seq(|objects|, _ => 0)
    modifies heights
    ensures heights[..] == Passes(objects, threshold, 1)
  {
    if |objects| == 0 {
      return;
    }

    for i := |objects| - 1 downto 0
      invariant heights[..] == Passes(objects, threshold, i + 1)
    {
      hide *;
      var top := i + 1;
      OnePass(objects, threshold, top);
      if heights[top] != 0 || objects[top].kind.Spinner? {
        continue;
      }

      if objects[top].kind.Circle? {
        StackCircles(objects, heights, threshold, top);
      } else if objects[top].kind.Slider? {
        StackSliders(objects, heights, threshold, top);
      }
    }
  }

  lemma OnePass(objects: seq<Object>, threshold: real, i: nat)
    requires i < |objects|
    ensures var heights := Passes(objects, threshold, i + 1);
      Passes(objects, threshold, i) ==
      if heights[i] != 0 || objects[i].kind.Spinner? then heights
      else if objects[i].kind.Circle? then AfterCircle(objects, threshold, heights, i)
      else AfterSlider(objects, threshold, heights, i)
  {
    hide AfterCircle, AfterSlider;
  }

  /** The chain from `i` has come to `c`, whose search goes on before `n`. */
  ghost predicate Chaining(look: Look, objects: seq<Object>, threshold: real, i: nat, c: nat, n: nat,
                           was: seq<int>, heights: seq<int>) {
    && n <= c <= i < |objects| == |was| && !objects[c].kind.Spinner?
    && RestsOn(BasesBy(look, objects, threshold), i, c)
    && heights == Raised(BasesBy(look, objects, threshold), was, i, c)
    && Search(look, objects, threshold, c, c) == Search(look, objects, threshold, c, n)
  }

  lemma StartsChain(look: Look, objects: seq<Object>, threshold: real, i: nat, heights: seq<int>)
    requires i < |objects| == |heights| && !objects[i].kind.Spinner?
    ensures Chaining(look, objects, threshold, i, i, i, heights, heights)
  {
    hide BasesBy, Raised, BaseOf;
    NoneRaised(BasesBy(look, objects, threshold), heights, i);
  }

  lemma ChainsOn(look: Look, objects: seq<Object>, threshold: real, i: nat, c: nat, n: nat, was: seq<int>, heights: seq<int>)
    requires LooksAt(look) && Chaining(look, objects, threshold, i, c, n + 1, was, heights)
    ensures |heights| == |objects|
    ensures var s := look(objects, threshold, c, n);
      && (s == None ==> Chaining(look, objects, threshold, i, c, n, was, heights))
      && (s == Some(Onto(n)) && !objects[n].kind.Spinner? ==>
          Chaining(look, objects, threshold, i, n, n, was, heights[n := heights[c] + 1]))
      && (s.Some? ==> Search(look, objects, threshold, c, c) == s.value)
  {
    BaseFound(look, objects, threshold, c);
    hide BasesBy, Raised, BaseOf, LooksAt, RestsOn;
    if look(objects, threshold, c, n) == Some(Onto(n)) {
      RaisedNext(BasesBy(look, objects, threshold), was, i, c, n);
    }
  }

  /** Where the search of `c` finds nothing to stack onto the chain is complete. */
  lemma ChainEnds(look: Look, objects: seq<Object>, threshold: real, i: nat, c: nat, n: nat, was: seq<int>, heights: seq<int>)
    requires LooksAt(look) && Chaining(look, objects, threshold, i, c, n, was, heights)
    requires !Search(look, objects, threshold, c, c).Onto?
    ensures var bases := BasesBy(look, objects, threshold);
      heights == Raised(bases, was, i, 0) && c == Bottom(bases, i)
  {
    BaseFound(look, objects, threshold, c);
    hide BasesBy, Raised, BaseOf, LooksAt, RestsOn, Search, Bottom;
    BottomIs(BasesBy(look, objects, threshold), i, c);
    AllRaised(BasesBy(look, objects, threshold), was, i, c);
  }

  lemma SearchEnds(look: Look, objects: seq<Object>, threshold: real, c: nat)
    ensures Search(look, objects, threshold, c, 0) == End
  {}

  lemma BothLook()
    ensures LooksAt(CircleLook) && LooksAt(SliderLook)
  {
    hide OnEnd, OnTop, OnSliderEnd;
  }

  lemma ChainInBounds(look: Look, objects: seq<Object>, threshold: real, i: nat, c: nat, n: nat, was: seq<int>, heights: seq<int>)
    requires Chaining(look, objects, threshold, i, c, n, was, heights)
    ensures n <= c <= i < |objects| == |was| == |heights|
    ensures Search(look, objects, threshold, c, c) == Search(look, objects, threshold, c, n)
  {}

  /** A chain from a circle is complete. */
  lemma CircleEnds(objects: seq<Object>, threshold: real, i: nat, c: nat, n: nat, was: seq<int>, heights: seq<int>)
    requires Chaining(CircleLook, objects, threshold, i, c, n, was, heights)
    requires !Search(CircleLook, objects, threshold, c, c).Onto?
    ensures i < |objects| == |was| == |heights| && c < |heights|
    ensures AfterCircle(objects, threshold, was, i) == Turned(objects, threshold, heights, c, i)
  {
    hide BasesBy, Raised, Bottom, Turned, Search, LooksAt, Chaining;
    BothLook();
    ChainInBounds(CircleLook, objects, threshold, i, c, n, was, heights);
    ChainEnds(CircleLook, objects, threshold, i, c, n, was, heights);
  }

  lemma TurnedIs(objects: seq<Object>, threshold: real, raised: seq<int>, c: nat, i: nat, s: Step)
    requires c < |objects| == |raised| && Search(CircleLook, objects, threshold, c, c) == s
    ensures s.AtSlider? && s.n < |objects| ==>
      Turned(objects, threshold, raised, c, i) == Lowered(objects, raised, s.n, i, raised[c] - raised[s.n] + 1)
    ensures s.End? ==> Turned(objects, threshold, raised, c, i) == raised
  {
    hide Lowered, Search;
  }

  /** What the circle's search sees at `n`. */
  lemma CircleSees(objects: seq<Object>, threshold: real, c: nat, n: nat)
    requires n < |objects| && c < |objects|
    ensures CircleLook(objects, threshold, c, n) ==
      if objects[n].kind.Spinner? then None
      else if objects[c].startTime - objects[n].endTime > threshold then Some(End)
      else if objects[n].kind.Slider? && Near(objects[n].endPos, objects[c].pos) then Some(AtSlider(n))
      else if Near(objects[n].pos, objects[c].pos) then Some(Onto(n))
      else None
  {
    hide Near;
  }

  lemma SliderSees(objects: seq<Object>, threshold: real, c: nat, n: nat)
    requires n < |objects| && c < |objects|
    ensures SliderLook(objects, threshold, c, n) ==
      if objects[n].kind.Spinner? then None
      else if objects[c].startTime - objects[n].startTime > threshold then Some(End)
      else if Near(objects[n].endPos, objects[c].pos) then Some(Onto(n))
      else None
  {
    hide Near;
  }

  /** The chain that starts at a circle. */
  method StackCircles(objects: seq<Object>, heights: array<int>, threshold: real, i: nat)
    requires i < |objects| == heights.Length && objects[i].kind.Circle?
    modifies heights
    ensures heights[..] == AfterCircle(objects, threshold, old(heights[..]), i)
  {
    hide *;
    var n: nat, c: nat := i, i;
    ghost var was, rest: nat, done := heights[..], n, false;
    BothLook();
    StartsChain(CircleLook, objects, threshold, i, was);
    while n > 0
      invariant rest == n <= c <= i && !done && Chaining(CircleLook, objects, threshold, i, c, rest, was, heights[..])
    {
      n := n - 1;
      CircleSees(objects, threshold, c, n);
      ChainsOn(CircleLook, objects, threshold, i, c, n, was, heights[..]);
      if objects[n].kind.Spinner? {
        rest := n;
        continue;
      }

      if objects[c].startTime - objects[n].endTime > threshold {
        CircleEnds(objects, threshold, i, c, rest, was, heights[..]);
        TurnedIs(objects, threshold, heights[..], c, i, End);
        done := true;
        break;
      }

      if objects[n].kind.Slider? && Near(objects[n].endPos, objects[c].pos) {
        CircleEnds(objects, threshold, i, c, rest, was, heights[..]);
        TurnedIs(objects, threshold, heights[..], c, i, AtSlider(n));
        StackBelow(objects, heights, n, i, heights[c] - heights[n] + 1);
        done := true;
        break;
      }

      if Near(objects[n].pos, objects[c].pos) {
        ghost var before := heights[..];
        heights[n] := heights[c] + 1;
        assert heights[..] == before[n := before[c] + 1];
        c := n;
      }
      rest := n;
    }
    if !done {
      SearchEnds(CircleLook, objects, threshold, c);
      ChainInBounds(CircleLook, objects, threshold, i, c, 0, was, heights[..]);
      CircleEnds(objects, threshold, i, c, 0, was, heights[..]);
      TurnedIs(objects, threshold, heights[..], c, i, End);
    }
  }

  /** Objects on the end of slider `n` move below it. */
  method StackBelow(objects: seq<Object>, heights: array<int>, n: nat, i: nat, offset: int)
    requires n < i < |objects| == heights.Length
    modifies heights
    ensures heights[..] == Lowered(objects, old(heights[..]), n, i, offset)
  {
    hide OnEnd;
    for j := n + 1 to i + 1
      invariant forall k | 0 <= k < heights.Length ::
        heights[k] == if n < k < j && OnEnd(objects, k, n) then old(heights[k]) - offset else old(heights[k])
    {
      if OnEnd(objects, j, n) {
        heights[j] := heights[j] - offset;
      }
    }
  }

  /** The chain that starts at a slider: only upward, and only along slider ends. */
  method StackSliders(objects: seq<Object>, heights: array<int>, threshold: real, i: nat)
    requires i < |objects| == heights.Length && objects[i].kind.Slider?
    modifies heights
    ensures heights[..] == AfterSlider(objects, threshold, old(heights[..]), i)
  {
    hide *;
    var n: nat, c: nat := i, i;
    ghost var was, rest: nat, done := heights[..], n, false;
    BothLook();
    StartsChain(SliderLook, objects, threshold, i, was);
    while n > 0
      invariant rest == n <= c <= i && !done && Chaining(SliderLook, objects, threshold, i, c, rest, was, heights[..])
    {
      n := n - 1;
      SliderSees(objects, threshold, c, n);
      ChainsOn(SliderLook, objects, threshold, i, c, n, was, heights[..]);
      if objects[n].kind.Spinner? {
        rest := n;
        continue;
      }

      if objects[c].startTime - objects[n].startTime > threshold {
        SliderEnds(objects, threshold, i, c, rest, was, heights[..]);
        done := true;
        break;
      }

      if Near(objects[n].endPos, objects[c].pos) {
        ghost var before := heights[..];
        heights[n] := heights[c] + 1;
        assert heights[..] == before[n := before[c] + 1];
        c := n;
      }
      rest := n;
    }
    if !done {
      SearchEnds(SliderLook, objects, threshold, c);
      ChainInBounds(SliderLook, objects, threshold, i, c, 0, was, heights[..]);
      SliderEnds(objects, threshold, i, c, 0, was, heights[..]);
    }
  }

  lemma SliderEnds(objects: seq<Object>, threshold: real, i: nat, c: nat, n: nat, was: seq<int>, heights: seq<int>)
    requires Chaining(SliderLook, objects, threshold, i, c, n, was, heights)
    requires !Search(SliderLook, objects, threshold, c, c).Onto?
    ensures i < |objects| == |was| && AfterSlider(objects, threshold, was, i) == heights
  {
    BothLook();
    ChainInBounds(SliderLook, objects, threshold, i, c, n, was, heights);
    ChainEnds(SliderLook, objects, threshold, i, c, n, was, heights);
    hide BasesBy, Raised, Bottom, Search, LooksAt, Chaining;
  }
}
