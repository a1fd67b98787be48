/** Admission of a static slice configuration (src/app/rrm_management.cc:754-798). */
module Slices {
  import opened Options

  const NUM_RBG := 110

  datatype Range = Range(posLow: Option<nat>, posHigh: Option<nat>)

  datatype Slice = Slice(id: Option<nat>, name: Option<string>, scheduler: Option<string>, static_: Option<Range>) {
    /** Getters answer 0 for what is absent. */
    function Id(): nat {
      id.GetOr(0)
    }

    function Low(): nat {
      if static_.Some? then static_.value.posLow.GetOr(0) else 0
    }

    function High(): nat {
      if static_.Some? then static_.value.posHigh.GetOr(0) else 0
    }

    predicate Covers(k: nat) {
      Low() <= k <= High()
    }

    predicate HasParameters() {
      id.Some? && (name.Some? || scheduler.Some? || static_.Some?)
    }

    predicate FullRange() {
      static_.Some? && static_.value.posLow.Some? && static_.value.posHigh.Some?
    }

    /** An empty range, or one inside the marking array. */
    predicate InBounds() {
      Low() <= High() ==> High() < NUM_RBG
    }
  }

  ghost predicate Apart(s: Slice, t: Slice) {
    forall k: nat :: !(s.Covers(k) && t.Covers(k))
  }

  predicate Named(id: nat, slices: seq<Slice>) {
    exists i | 0 <= i < |slices| :: slices[i].Id() == id
  }

  /** Every requested slice is known or complete. */
  predicate NewAreComplete(nc: seq<Slice>, exist: seq<Slice>) {
    forall i | 0 <= i < |nc| :: Named(nc[i].Id(), exist) || nc[i].FullRange()
  }

  predicate Identified(nc: seq<Slice>) {
    forall i | 0 <= i < |nc| :: nc[i].HasParameters()
  }

  /** The requested slices that carry a range. */
  function Ranged(nc: seq<Slice>): seq<Slice> {
    if nc == [] then []
    else
      var init, last := Ranged(nc[..|nc| - 1]), nc[|nc| - 1];
      if last.static_.Some? then init + [last] else init
  }

  /** The existing slices that the request does not mention. */
  function Unmentioned(exist: seq<Slice>, nc: seq<Slice>): seq<Slice> {
    if exist == [] then []
    else
      var init, last := Unmentioned(exist[..|exist| - 1], nc), exist[|exist| - 1];
      if Named(last.Id(), nc) then init else init + [last]
  }

  ghost predicate AllApart(ss: seq<Slice>) {
    forall i, j | 0 <= i < j < |ss| :: Apart(ss[i], ss[j])
  }

  /** The marking array after these slices. */
  ghost predicate IsMarking(marks: seq<bool>, ss: seq<Slice>) {
    |marks| == NUM_RBG && forall k | 0 <= k < NUM_RBG :: marks[k] <==> Covered(ss, k)
  }

  predicate Covered(ss: seq<Slice>, k: nat) {
    exists i | 0 <= i < |ss| :: ss[i].Covers(k)
  }

  datatype Verdict =
    | Accepted
    | SingleScheduler
    | MissingParameters
    | IncompleteNewSlice
    | OverlapAt(rbg: nat, id: nat)
    | OverlapOfExistingAt(rbg: nat, id: nat)
    | Undefined

  /** Slice `s` comes after slices that are apart, and `k` is the first position it shares with one of them. */
  ghost predicate FirstClash(ss: seq<Slice>, s: Slice, k: nat) {
    AllApart(ss) && s.Covers(k) && Covered(ss, k) && forall i: nat | i < k :: !(s.Covers(i) && Covered(ss, i))
  }

  /** Slice `s` comes after slices that are apart, shares nothing with them inside the array, and leaves it. */
  ghost predicate RunsBeyond(ss: seq<Slice>, s: Slice) {
    AllApart(ss) && !s.InBounds() && forall i: nat | i < NUM_RBG :: !(s.Covers(i) && Covered(ss, i))
  }

  ghost predicate AllInBounds(ss: seq<Slice>) {
    forall i | 0 <= i < |ss| :: ss[i].InBounds()
  }

  /**
   * The meaning of a verdict: which check failed first, and where. The code does not test positions; when it
   * comes to one beyond the marking array, what it does is undefined.
   */
  ghost predicate IsVerdict(single: bool, nc: seq<Slice>, exist: seq<Slice>, v: Verdict) {
    if single then v == SingleScheduler
    else if !Identified(nc) then v == MissingParameters
    else if !NewAreComplete(nc, exist) then v == IncompleteNewSlice
    else match v
      case Accepted =>
        var looked := Ranged(nc) + Unmentioned(exist, nc);
        AllApart(looked) && AllInBounds(looked)
      case OverlapAt(k, id) =>
        exists j | 0 <= j < |nc| ::
          nc[j].static_.Some? && nc[j].Id() == id && FirstClash(Ranged(nc[..j]), nc[j], k)
      case OverlapOfExistingAt(k, id) =>
        exists j | 0 <= j < |exist| ::
          exist[j].Id() == id && !Named(id, nc) && FirstClash(Ranged(nc) + Unmentioned(exist[..j], nc), exist[j], k)
      case Undefined =>
        || (exists j | 0 <= j < |nc| :: nc[j].static_.Some? && RunsBeyond(Ranged(nc[..j]), nc[j]))
        || exists j | 0 <= j < |exist| ::
             !Named(exist[j].Id(), nc) && RunsBeyond(Ranged(nc) + Unmentioned(exist[..j], nc), exist[j])
      case _ => false
  }

  datatype Marked = Done | Clash(rbg: nat) | Beyond

  /** Marks the positions of one slice; stops at the first that is taken. */
  method Mark(rbg: array<bool>, s: Slice) returns (m: Marked)
    requires rbg.Length == NUM_RBG
    modifies rbg
    ensures m.Done? ==> s.InBounds()
    ensures m.Done? ==>
      forall k | 0 <= k < NUM_RBG :: (rbg[k] <==> old(rbg[k]) || s.Covers(k)) && !(old(rbg[k]) && s.Covers(k))
    ensures m.Clash? ==> m.rbg < NUM_RBG && s.Covers(m.rbg) && old(rbg[m.rbg])
                         && forall k | 0 <= k < m.rbg && s.Covers(k) :: !old(rbg[k])
    ensures m.Beyond? ==> !s.InBounds() && forall k | 0 <= k < NUM_RBG && s.Covers(k) :: !old(rbg[k])
  {
    var i := s.Low();
    while i <= s.High()
      invariant s.Low() <= i && (s.Low() < i ==> i <= NUM_RBG) && (i <= s.High() + 1 || i == s.Low())
      invariant forall k | 0 <= k < NUM_RBG ::
        (rbg[k] <==> old(rbg[k]) || s.Low() <= k < i) && !(old(rbg[k]) && s.Low() <= k < i)
    {
      if i >= NUM_RBG {
        return Beyond;
      }
      if rbg[i] {
        return Clash(i);
      }
      rbg[i] := true;
      i := i + 1;
    }
    return Done;
  }

  /** Marks one more slice, which is apart from all those marked before, clashes first, or leaves the array. */
  method MarkNext(rbg: array<bool>, ghost ss: seq<Slice>, s: Slice) returns (m: Marked)
    requires AllApart(ss) && AllInBounds(ss) && IsMarking(rbg[..], ss)
    modifies rbg
    ensures m.Done? ==> AllApart(ss + [s]) && AllInBounds(ss + [s]) && IsMarking(rbg[..], ss + [s])
    ensures m.Clash? ==> FirstClash(ss, s, m.rbg)
    ensures m.Beyond? ==> RunsBeyond(ss, s)
  {
    m := Mark(rbg, s);
    forall k ensures Covered(ss + [s], k) <==> Covered(ss, k) || s.Covers(k) {
      OneMoreCovered(ss, s, k);
    }
  }

  lemma {:induction false} OneMoreCovered(ss: seq<Slice>, s: Slice, k: nat)
    ensures Covered(ss + [s], k) <==> Covered(ss, k) || s.Covers(k)
  {
    var all := ss + [s];
    if Covered(ss, k) {
      var i :| 0 <= i < |ss| && ss[i].Covers(k);
      assert all[i].Covers(k);
    }
    if s.Covers(k) {
      assert all[|ss|].Covers(k);
    }
  }

  method VerifyStaticSliceConfiguration(single: bool, nc: seq<Slice>, exist: seq<Slice>) returns (v: Verdict)
    ensures IsVerdict(single, nc, exist, v)
  {
    if single {
      return SingleScheduler;
    }
    if !Identified(nc) {
      return MissingParameters;
    }
    if !NewAreComplete(nc, exist) {
      return IncompleteNewSlice;
    }
    var rbg := new bool[NUM_RBG](_ => false);
    for j := 0 to |nc|
      invariant AllApart(Ranged(nc[..j])) && AllInBounds(Ranged(nc[..j])) && IsMarking(rbg[..], Ranged(nc[..j]))
    {
      assert nc[..j + 1][..j] == nc[..j];
      if nc[j].static_.Some? {
        var m := MarkNext(rbg, Ranged(nc[..j]), nc[j]);
        match m
        case Done =>
        case Clash(k) => return OverlapAt(k, nc[j].Id());
        case Beyond => return Undefined;
      }
    }
    assert nc[..|nc|] == nc;
    ghost var requested := Ranged(nc);
    assert requested + [] == requested;
    for j := 0 to |exist|
      invariant var before := requested + Unmentioned(exist[..j], nc);
        AllApart(before) && AllInBounds(before) && IsMarking(rbg[..], before)
    {
      assert exist[..j + 1][..j] == exist[..j];
      ghost var before := Unmentioned(exist[..j], nc);
      if !Named(exist[j].Id(), nc) {
        var m := MarkNext(rbg, requested + before, exist[j]);
        match m
        case Done =>
          assert requested + before + [exist[j]] == requested + (before + [exist[j]]);
        case Clash(k) => return OverlapOfExistingAt(k, exist[j].Id());
        case Beyond => return Undefined;
      }
    }
    assert exist[..|exist|] == exist;
    return Accepted;
  }

  // ---------- what admission means ----------

  lemma {:induction false} RangedOfPrefix(nc: seq<Slice>, j: nat)
    requires j <= |nc|
    ensures Ranged(nc[..j]) <= Ranged(nc)
  {
    if j == |nc| {
      assert nc[..j] == nc;
    } else {
      RangedOfPrefix(nc[..|nc| - 1], j);
      assert nc[..|nc| - 1][..j] == nc[..j];
    }
  }

  lemma {:induction false} UnmentionedOfPrefix(exist: seq<Slice>, nc: seq<Slice>, j: nat)
    requires j <= |exist|
    ensures Unmentioned(exist[..j], nc) <= Unmentioned(exist, nc)
  {
    if j == |exist| {
      assert exist[..j] == exist;
    } else {
      UnmentionedOfPrefix(exist[..|exist| - 1], nc, j);
      assert exist[..|exist| - 1][..j] == exist[..j];
    }
  }

  lemma {:induction false} ClashIsNotApart(ss: seq<Slice>, s: Slice, k: nat, all: seq<Slice>)
    requires FirstClash(ss, s, k) && ss + [s] <= all
    ensures !AllApart(all)
  {
    var i :| 0 <= i < |ss| && ss[i].Covers(k);
    assert all[i] == (ss + [s])[i] && all[|ss|] == (ss + [s])[|ss|];
    assert !Apart(all[i], all[|ss|]);
  }

  lemma {:induction false} RequestedClash(nc: seq<Slice>, exist: seq<Slice>, j: nat, k: nat)
    requires j < |nc| && nc[j].static_.Some? && FirstClash(Ranged(nc[..j]), nc[j], k)
    ensures !AllApart(Ranged(nc) + Unmentioned(exist, nc))
  {
    RangedOfPrefix(nc, j + 1);
    assert nc[..j + 1][..j] == nc[..j];
    ClashIsNotApart(Ranged(nc[..j]), nc[j], k, Ranged(nc) + Unmentioned(exist, nc));
  }

  lemma {:induction false} ExistingClash(nc: seq<Slice>, exist: seq<Slice>, j: nat, k: nat)
    requires j < |exist| && !Named(exist[j].Id(), nc)
    requires FirstClash(Ranged(nc) + Unmentioned(exist[..j], nc), exist[j], k)
    ensures !AllApart(Ranged(nc) + Unmentioned(exist, nc))
  {
    UnmentionedOfPrefix(exist, nc, j + 1);
    assert exist[..j + 1][..j] == exist[..j];
    var before := Unmentioned(exist[..j], nc);
    assert Ranged(nc) + before + [exist[j]] == Ranged(nc) + (before + [exist[j]]);
    ClashIsNotApart(Ranged(nc) + before, exist[j], k, Ranged(nc) + Unmentioned(exist, nc));
  }

  lemma {:induction false} IsRanged(nc: seq<Slice>, i: nat)
    requires i < |nc| && nc[i].static_.Some?
    ensures nc[i] in Ranged(nc)
  {
    if i == |nc| - 1 {
    } else {
      IsRanged(nc[..|nc| - 1], i);
    }
  }

  lemma {:induction false} IsUnmentioned(table: seq<Slice>, nc: seq<Slice>, t: Slice)
    requires t in table && !Named(t.Id(), nc)
    ensures t in Unmentioned(table, nc)
  {
    if table[|table| - 1] == t {
    } else {
      IsUnmentioned(table[..|table| - 1], nc, t);
    }
  }

  /** A request passes exactly when the checks hold and the ranges looked at are apart and inside the array. */
  lemma {:induction false} AdmissionIsExact(single: bool, nc: seq<Slice>, exist: seq<Slice>, v: Verdict)
    requires IsVerdict(single, nc, exist, v)
    ensures v == Accepted
       <==> var looked := Ranged(nc) + Unmentioned(exist, nc);
            !single && Identified(nc) && NewAreComplete(nc, exist) && AllApart(looked) && AllInBounds(looked)
  {
    if !single && Identified(nc) && NewAreComplete(nc, exist) {
      match v
      case Accepted =>
      case OverlapAt(k, id) =>
        var j :| 0 <= j < |nc| && nc[j].static_.Some? && nc[j].Id() == id && FirstClash(Ranged(nc[..j]), nc[j], k);
        RequestedClash(nc, exist, j, k);
      case OverlapOfExistingAt(k, id) =>
        var j :| 0 <= j < |exist| && exist[j].Id() == id && !Named(id, nc)
                 && FirstClash(Ranged(nc) + Unmentioned(exist[..j], nc), exist[j], k);
        ExistingClash(nc, exist, j, k);
      case Undefined => SomeSliceIsBeyond(nc, exist);
    }
  }

  lemma {:induction false} SomeSliceIsBeyond(nc: seq<Slice>, exist: seq<Slice>)
    requires Identified(nc) && NewAreComplete(nc, exist) && IsVerdict(false, nc, exist, Undefined)
    ensures !AllInBounds(Ranged(nc) + Unmentioned(exist, nc))
  {
    var looked := Ranged(nc) + Unmentioned(exist, nc);
    if j :| 0 <= j < |nc| && nc[j].static_.Some? && RunsBeyond(Ranged(nc[..j]), nc[j]) {
      IsRanged(nc, j);
      assert nc[j] in looked;
      var i :| 0 <= i < |looked| && looked[i] == nc[j];
    } else {
      var j :| 0 <= j < |exist| && !Named(exist[j].Id(), nc)
               && RunsBeyond(Ranged(nc) + Unmentioned(exist[..j], nc), exist[j]);
      IsUnmentioned(exist, nc, exist[j]);
      assert exist[j] in looked;
      var i :| 0 <= i < |looked| && looked[i] == exist[j];
    }
  }
}
