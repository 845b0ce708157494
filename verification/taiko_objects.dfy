/** osu!taiko's lists of difficulty objects: all of them, those that are notes, and the notes of
    either colour, each object knowing its index in the lists it is in. */
module TaikoObjects {
  import opened Wrappers

  datatype HitType = Center | Rim | NonHit

  datatype MonoIndex = CenterIndex(idx: nat) | RimIndex(idx: nat) | NoIndex

  /** The indices of the objects that `keep` says to keep, in order. */
  function Kept(types: seq<HitType>, keep: HitType -> bool): (r: seq<nat>)
    ensures |r| <= |types|
    ensures forall k | 0 <= k < |r| :: r[k] < |types| && keep(types[r[k]])
  {
    if types == [] then []
    else
      var front := Kept(types[..|types| - 1], keep);
      if keep(types[|types| - 1]) then front + [|types| - 1] else front
  }

  function IsNote(t: HitType): bool {
    !t.NonHit?
  }

  function IsOf(c: HitType): HitType -> bool {
    t => t == c
  }

  lemma {:induction false} KeptPrefix(types: seq<HitType>, keep: HitType -> bool, k: nat)
    requires k <= |types|
    ensures Kept(types[..k], keep) <= Kept(types, keep)
    ensures k < |types| && keep(types[k]) ==>
      |Kept(types[..k], keep)| < |Kept(types, keep)| && Kept(types, keep)[|Kept(types[..k], keep)|] == k
    decreases |types|
  {
    if k < |types| {
      var front := types[..|types| - 1];
      if k < |front| {
        KeptPrefix(front, keep, k);
        assert front[..k] == types[..k];
      }
    } else {
      assert types[..k] == types;
    }
  }

  /** `p` is kept, before `k`, and `between` kept ones lie between the two. */
  ghost predicate KeptBefore(types: seq<HitType>, keep: HitType -> bool, k: nat, between: nat, p: nat) {
    && p < k <= |types| && keep(types[p])
    && |Kept(types[..p], keep)| + between + 1 == |Kept(types[..k], keep)|
  }

  /** The indices in the lists of kept ones count the kept ones before. */
  lemma {:induction false} KeptAt(types: seq<HitType>, keep: HitType -> bool, j: nat)
    requires j < |Kept(types, keep)|
    ensures |Kept(types[..Kept(types, keep)[j]], keep)| == j
    decreases |types|
  {
    var front := types[..|types| - 1];
    if j < |Kept(front, keep)| {
      KeptAt(front, keep, j);
      var p := Kept(front, keep)[j];
      assert front[..p] == types[..p];
    }
  }

  lemma NoneKeptBetween(types: seq<HitType>, keep: HitType -> bool, k: nat, p: nat, m: nat)
    requires KeptBefore(types, keep, k, 0, p) && p < m < k
    ensures !keep(types[m])
  {
    assert types[..k][..p] == types[..p] && types[..m][..p] == types[..p] && types[..k][..m] == types[..m];
    KeptPrefix(types[..k], keep, m);
    KeptPrefix(types[..m], keep, p);
  }

  lemma KeptAppended(types: seq<HitType>, t: HitType, keep: HitType -> bool)
    ensures Kept(types + [t], keep) == if keep(t) then Kept(types, keep) + [|types|] else Kept(types, keep)
  {
    assert (types + [t])[..|types|] == types;
  }

  lemma KeptGrows(types: seq<HitType>, keep: HitType -> bool, a: nat, b: nat)
    requires a <= b <= |types|
    ensures |Kept(types[..a], keep)| <= |Kept(types[..b], keep)|
  {
    KeptPrefix(types[..b], keep, a);
    assert types[..b][..a] == types[..a];
  }

  /** `checked_sub`, then `get` */
  function Earlier(list: seq<nat>, idx: nat, backwardsIdx: nat): Option<nat>
    requires idx <= |list|
  {
    if idx < backwardsIdx + 1 then None else Some(list[idx - (backwardsIdx + 1)])
  }

  lemma EarlierKept(types: seq<HitType>, keep: HitType -> bool, k: nat, backwardsIdx: nat)
    requires k < |types|
    ensures |Kept(types[..k], keep)| <= |Kept(types, keep)|
    ensures var p := Earlier(Kept(types, keep), |Kept(types[..k], keep)|, backwardsIdx);
      && (p.Some? ==> KeptBefore(types, keep, k, backwardsIdx, p.value))
      && (p.None? ==> |Kept(types[..k], keep)| <= backwardsIdx)
  {
    hide Kept;
    var n := |Kept(types[..k], keep)|;
    KeptPrefix(types, keep, k);
    if n >= backwardsIdx + 1 {
      KeptAt(types, keep, n - (backwardsIdx + 1));
      assert Kept(types, keep)[n - (backwardsIdx + 1)] == Kept(types[..k], keep)[n - (backwardsIdx + 1)];
    }
  }

  /** The number of notes before a note, 0 for everything else. */
  function NoteIdx(types: seq<HitType>, k: nat): nat
    requires k < |types|
  {
    if types[k].NonHit? then 0 else |Kept(types[..k], IsNote)|
  }

  function MonoIdx(types: seq<HitType>, k: nat): MonoIndex
    requires k < |types|
  {
    match types[k]
    case Center => CenterIndex(|Kept(types[..k], IsOf(Center))|)
    case Rim => RimIndex(|Kept(types[..k], IsOf(Rim))|)
    case NonHit => NoIndex
  }

  /** Every object has its two indices. */
  ghost predicate Indexed(types: seq<HitType>, noteIdx: seq<nat>, monoIdx: seq<MonoIndex>) {
    && |noteIdx| == |monoIdx| == |types|
    && forall k | 0 <= k < |types| :: noteIdx[k] == NoteIdx(types, k) && monoIdx[k] == MonoIdx(types, k)
  }

  lemma AppendedIndices(types: seq<HitType>, t: HitType)
    ensures NoteIdx(types + [t], |types|) == if t.NonHit? then 0 else |Kept(types, IsNote)|
    ensures MonoIdx(types + [t], |types|) ==
      match t
      case Center => CenterIndex(|Kept(types, IsOf(Center))|)
      case Rim => RimIndex(|Kept(types, IsOf(Rim))|)
      case NonHit => NoIndex
    ensures Kept(types + [t], IsNote) == Kept(types, IsNote) + if t.NonHit? then [] else [|types|]
    ensures Kept(types + [t], IsOf(Center)) == Kept(types, IsOf(Center)) + if t.Center? then [|types|] else []
    ensures Kept(types + [t], IsOf(Rim)) == Kept(types, IsOf(Rim)) + if t.Rim? then [|types|] else []
  {
    KeptAppended(types, t, IsNote);
    KeptAppended(types, t, IsOf(Center));
    KeptAppended(types, t, IsOf(Rim));
    assert (types + [t])[..|types|] == types;
    hide Kept;
  }

  lemma IndexedOneMore(types: seq<HitType>, noteIdx: seq<nat>, monoIdx: seq<MonoIndex>, t: HitType)
    requires Indexed(types, noteIdx, monoIdx)
    ensures var all := types + [t];
      Indexed(all, noteIdx + [NoteIdx(all, |types|)], monoIdx + [MonoIdx(all, |types|)])
  {
    hide Kept;
    var all := types + [t];
    forall k | 0 <= k < |types|
      ensures NoteIdx(all, k) == NoteIdx(types, k) && MonoIdx(all, k) == MonoIdx(types, k)
    {
      assert all[..k] == types[..k];
    }
    hide NoteIdx, MonoIdx;
  }

  class TaikoDifficultyObjects {
    var objects: seq<HitType>
    var noteIdx: seq<nat>
    var monoIdx: seq<MonoIndex>
    var centerHitObjects: seq<nat>
    var rimHitObjects: seq<nat>
    var noteObjects: seq<nat>

    ghost predicate Valid()
      reads this
    {
      && Indexed(objects, noteIdx, monoIdx)
      && noteObjects == Kept(objects, IsNote)
      && centerHitObjects == Kept(objects, IsOf(Center)) && rimHitObjects == Kept(objects, IsOf(Rim))
    }

    constructor ()
      ensures Valid() && objects == []
    {
      objects, noteIdx, monoIdx := [], [], [];
      centerHitObjects, rimHitObjects, noteObjects := [], [], [];
    }

    /** `TaikoDifficultyObject::new` followed by `push`. */
    method Add(hitType: HitType)
      requires Valid()
      modifies this
      ensures Valid() && objects == old(objects) + [hitType]
    {
      hide Kept, NoteIdx, MonoIdx, Indexed;
      AppendedIndices(objects, hitType);
      IndexedOneMore(objects, noteIdx, monoIdx, hitType);
      var note, mono := 0, NoIndex;
      match hitType {
      case Center =>
        note, mono := |noteObjects|, CenterIndex(|centerHitObjects|);
        noteObjects, centerHitObjects := noteObjects + [|objects|], centerHitObjects + [|objects|];
      case Rim =>
        note, mono := |noteObjects|, RimIndex(|rimHitObjects|);
        noteObjects, rimHitObjects := noteObjects + [|objects|], rimHitObjects + [|objects|];
      case NonHit =>
      }
      noteIdx, monoIdx := noteIdx + [note], monoIdx + [mono];
      objects := objects + [hitType];
    }

    function PreviousNote(curr: nat, backwardsIdx: nat): (p: Option<nat>)
      requires Valid() && curr < |objects|
      reads this
      ensures objects[curr].NonHit? ==> p == None
      ensures p.Some? ==> KeptBefore(objects, IsNote, curr, backwardsIdx, p.value)
      ensures p.None? && !objects[curr].NonHit? ==> |Kept(objects[..curr], IsNote)| <= backwardsIdx
    {
      EarlierKept(objects, IsNote, curr, backwardsIdx);
      Earlier(noteObjects, noteIdx[curr], backwardsIdx)
    }

    /** The earlier object of the same colour with `backwardsIdx` of that colour between. */
    function PreviousMono(curr: nat, backwardsIdx: nat): (p: Option<nat>)
      requires Valid() && curr < |objects|
      reads this
      ensures objects[curr].NonHit? ==> p == None
      ensures p.Some? ==> KeptBefore(objects, IsOf(objects[curr]), curr, backwardsIdx, p.value)
      ensures p.None? && !objects[curr].NonHit? ==> |Kept(objects[..curr], IsOf(objects[curr]))| <= backwardsIdx
    {
      EarlierKept(objects, IsOf(objects[curr]), curr, backwardsIdx);
      match monoIdx[curr]
      case CenterIndex(idx) => Earlier(centerHitObjects, idx, backwardsIdx)
      case RimIndex(idx) => Earlier(rimHitObjects, idx, backwardsIdx)
      case NoIndex => None
    }

    /** For an object that is no note the search starts from the first note of the map. */
    function NextNote(curr: nat, forwardsIdx: nat): (p: Option<nat>)
      requires Valid() && curr < |objects|
      reads this
      ensures p.Some? && !objects[curr].NonHit? ==>
        p.value < |objects| && KeptBefore(objects, IsNote, p.value, forwardsIdx, curr)
      ensures p.Some? && objects[curr].NonHit? ==>
        p.value < |objects| && IsNote(objects[p.value]) && |Kept(objects[..p.value], IsNote)| == forwardsIdx + 1
      ensures var before := if objects[curr].NonHit? then [] else objects[..curr];
        p.None? ==> |Kept(objects, IsNote)| <= |Kept(before, IsNote)| + forwardsIdx + 1
    {
      var i := noteIdx[curr] + (forwardsIdx + 1);
      if i < |noteObjects| then
        KeptAt(objects, IsNote, i);
        assert !objects[curr].NonHit? ==> curr < noteObjects[i] by {
          if noteObjects[i] <= curr {
            KeptGrows(objects, IsNote, noteObjects[i], curr);
          }
        }
        Some(noteObjects[i])
      else None
    }
  }
}
