/** Which static slice configurations are admitted, said of the fields of the slices alone. */
module SliceProofs {
  import opened Slices

  /** Every requested slice is identified and sets something. */
  ghost predicate EachSetsSomething(nc: seq<Slice>) {
    forall i | 0 <= i < |nc| ::
      nc[i].id.Some? && !(nc[i].name.None? && nc[i].scheduler.None? && nc[i].static_.None?)
  }

  /** A requested slice that does not exist yet gives both ends of its range. */
  ghost predicate NewOnesHaveRanges(nc: seq<Slice>, exist: seq<Slice>) {
    forall i | 0 <= i < |nc| ::
      || (exists j | 0 <= j < |exist| :: exist[j].id.GetOr(0) == nc[i].id.GetOr(0))
      || (nc[i].static_.Some? && nc[i].static_.value.posLow.Some? && nc[i].static_.value.posHigh.Some?)
  }

  /** The slice stays as it is: no requested one has its id. */
  ghost predicate Stays(nc: seq<Slice>, s: Slice) {
    forall i | 0 <= i < |nc| :: nc[i].id.GetOr(0) != s.id.GetOr(0)
  }

  /** The first position of a slice; what is not given counts as 0. */
  ghost function From(s: Slice): nat {
    match s.static_
    case Some(Range(Some(low), _)) => low
    case _ => 0
  }

  /** The last position of a slice. */
  ghost function To(s: Slice): nat {
    match s.static_
    case Some(Range(_, Some(high))) => high
    case _ => 0
  }

  /** One range is empty, or one ends before the other starts. */
  ghost predicate Separate(s: Slice, t: Slice) {
    From(s) > To(s) || From(t) > To(t) || To(s) < From(t) || To(t) < From(s)
  }

  /** Ranges that the request gives, and ranges of slices that stay, have no position in common. */
  ghost predicate NothingOverlaps(nc: seq<Slice>, exist: seq<Slice>) {
    && (forall i, j | 0 <= i < j < |nc| && nc[i].static_.Some? && nc[j].static_.Some? :: Separate(nc[i], nc[j]))
    && (forall i, j | 0 <= i < j < |exist| && Stays(nc, exist[i]) && Stays(nc, exist[j]) ::
          Separate(exist[i], exist[j]))
    && forall i, j | 0 <= i < |nc| && 0 <= j < |exist| && nc[i].static_.Some? && Stays(nc, exist[j]) ::
         Separate(nc[i], exist[j])
  }

  ghost predicate EndsInside(s: Slice) {
    From(s) <= To(s) ==> To(s) < 110
  }

  ghost predicate NothingIsBeyond(nc: seq<Slice>, exist: seq<Slice>) {
    && (forall i | 0 <= i < |nc| && nc[i].static_.Some? :: EndsInside(nc[i]))
    && forall j | 0 <= j < |exist| && Stays(nc, exist[j]) :: EndsInside(exist[j])
  }

  lemma {:induction false} SeparateIs(s: Slice, t: Slice)
    ensures Apart(s, t) <==> Separate(s, t)
  {
    if !Separate(s, t) {
      var k := if From(s) < From(t) then From(t) else From(s);
      assert s.Covers(k) && t.Covers(k);
    }
  }

  lemma {:induction false} SeparateIsThroughout()
    ensures forall s, t :: Apart(s, t) <==> Separate(s, t)
  {
    forall s, t {
      SeparateIs(s, t);
    }
  }

  // ---------- the slices looked at ----------

  lemma {:induction false} StaysIs(nc: seq<Slice>, s: Slice)
    ensures Stays(nc, s) <==> !Named(s.Id(), nc)
  {
  }

  lemma {:induction false} ApartInBoth(a: seq<Slice>, b: seq<Slice>)
    ensures AllApart(a + b) <==>
      && AllApart(a) && AllApart(b) && forall i, j | 0 <= i < |a| && 0 <= j < |b| :: Apart(a[i], b[j])
  {
    var c := a + b;
    assert forall i | 0 <= i < |a| :: c[i] == a[i];
    assert forall j | 0 <= j < |b| :: c[|a| + j] == b[j];
    if AllApart(c) {
      forall i, j | 0 <= i < |a| && 0 <= j < |b|
        ensures Apart(a[i], b[j])
      {
        assert Apart(c[i], c[|a| + j]);
      }
      forall i, j | 0 <= i < j < |b|
        ensures Apart(b[i], b[j])
      {
        assert Apart(c[|a| + i], c[|a| + j]);
      }
    }
    if AllApart(a) && AllApart(b) && forall i, j | 0 <= i < |a| && 0 <= j < |b| :: Apart(a[i], b[j]) {
      forall i, j | 0 <= i < j < |c|
        ensures Apart(c[i], c[j])
      {
        if i >= |a| {
          assert Apart(b[i - |a|], b[j - |a|]);
        } else if j >= |a| {
          assert Apart(a[i], b[j - |a|]);
        }
      }
    }
  }

  lemma {:induction false} ApartWithOne(a: seq<Slice>, s: Slice)
    ensures AllApart(a + [s]) <==> AllApart(a) && forall x | x in a :: Apart(x, s)
  {
    var last := [s];
    ApartInBoth(a, last);
    if forall x | x in a :: Apart(x, s) {
      assert forall i, j | 0 <= i < |a| && 0 <= j < |last| :: Apart(a[i], last[j]);
    } else {
      var x :| x in a && !Apart(x, s);
      var i :| 0 <= i < |a| && a[i] == x;
      assert !Apart(a[i], last[0]);
    }
  }

  lemma {:induction false} RangedMembers(nc: seq<Slice>, s: Slice)
    ensures s in Ranged(nc) <==> s in nc && s.static_.Some?
  {
    if nc == [] {
    } else {
      RangedMembers(nc[..|nc| - 1], s);
    }
  }

  lemma {:induction false} StayingMembers(exist: seq<Slice>, nc: seq<Slice>, s: Slice)
    ensures s in Unmentioned(exist, nc) <==> s in exist && Stays(nc, s)
  {
    if exist == [] {
    } else {
      StayingMembers(exist[..|exist| - 1], nc, s);
      StaysIs(nc, exist[|exist| - 1]);
    }
  }

  lemma {:induction false} RangedApart(nc: seq<Slice>)
    ensures AllApart(Ranged(nc)) <==>
      forall i, j | 0 <= i < j < |nc| && nc[i].static_.Some? && nc[j].static_.Some? :: Apart(nc[i], nc[j])
  {
    if nc == [] {
    } else {
      var init, last := nc[..|nc| - 1], nc[|nc| - 1];
      RangedApart(init);
      assert forall i | 0 <= i < |init| :: init[i] == nc[i];
      ApartWithOne(Ranged(init), last);
      forall s: Slice {
        RangedMembers(init, s);
      }
      assert forall i | 0 <= i < |init| && nc[i].static_.Some? :: nc[i] in Ranged(init);
    }
  }

  lemma {:induction false} StayingApart(exist: seq<Slice>, nc: seq<Slice>)
    ensures AllApart(Unmentioned(exist, nc)) <==>
      forall i, j | 0 <= i < j < |exist| && Stays(nc, exist[i]) && Stays(nc, exist[j]) :: Apart(exist[i], exist[j])
  {
    if exist == [] {
    } else {
      var init, last := exist[..|exist| - 1], exist[|exist| - 1];
      StayingApart(init, nc);
      StaysIs(nc, last);
      assert forall i | 0 <= i < |init| :: init[i] == exist[i];
      ApartWithOne(Unmentioned(init, nc), last);
      forall s: Slice {
        StayingMembers(init, nc, s);
      }
      assert forall i | 0 <= i < |init| && Stays(nc, exist[i]) :: exist[i] in Unmentioned(init, nc);
    }
  }

  lemma {:induction false} LookedAtApart(nc: seq<Slice>, exist: seq<Slice>)
    ensures AllApart(Ranged(nc) + Unmentioned(exist, nc)) <==> NothingOverlaps(nc, exist)
  {
    var a, b := Ranged(nc), Unmentioned(exist, nc);
    ApartInBoth(a, b);
    RangedApart(nc);
    StayingApart(exist, nc);
    CrossApart(nc, exist, a, b);
    SeparateIsThroughout();
  }

  lemma {:induction false} CrossApart(nc: seq<Slice>, exist: seq<Slice>, a: seq<Slice>, b: seq<Slice>)
    requires a == Ranged(nc) && b == Unmentioned(exist, nc)
    ensures (forall i, j | 0 <= i < |a| && 0 <= j < |b| :: Apart(a[i], b[j])) <==>
      forall i, j | 0 <= i < |nc| && 0 <= j < |exist| && nc[i].static_.Some? && Stays(nc, exist[j]) ::
        Apart(nc[i], exist[j])
  {
    forall s: Slice
      ensures s in a <==> s in nc && s.static_.Some?
      ensures s in b <==> s in exist && Stays(nc, s)
    {
      RangedMembers(nc, s);
      StayingMembers(exist, nc, s);
    }
    if forall i, j | 0 <= i < |a| && 0 <= j < |b| :: Apart(a[i], b[j]) {
      forall i, j | 0 <= i < |nc| && 0 <= j < |exist| && nc[i].static_.Some? && Stays(nc, exist[j])
        ensures Apart(nc[i], exist[j])
      {
        assert nc[i] in a && exist[j] in b;
      }
    }
    if forall i, j | 0 <= i < |nc| && 0 <= j < |exist| && nc[i].static_.Some? && Stays(nc, exist[j]) ::
      Apart(nc[i], exist[j]) {
      forall i, j | 0 <= i < |a| && 0 <= j < |b|
        ensures Apart(a[i], b[j])
      {
        assert a[i] in nc && b[j] in exist;
      }
    }
  }

  lemma {:induction false} LookedAtInBounds(nc: seq<Slice>, exist: seq<Slice>)
    ensures AllInBounds(Ranged(nc) + Unmentioned(exist, nc)) <==> NothingIsBeyond(nc, exist)
  {
    var a, b := Ranged(nc), Unmentioned(exist, nc);
    forall s: Slice
      ensures s in a + b <==> (s in nc && s.static_.Some?) || (s in exist && Stays(nc, s))
    {
      RangedMembers(nc, s);
      StayingMembers(exist, nc, s);
    }
    assert AllInBounds(a + b) <==> forall s: Slice | s in a + b :: s.InBounds();
    assert NothingIsBeyond(nc, exist) <==>
      && (forall s: Slice | s in nc && s.static_.Some? :: s.InBounds())
      && forall s: Slice | s in exist && Stays(nc, s) :: s.InBounds();
  }

  lemma {:induction false} ChecksAre(nc: seq<Slice>, exist: seq<Slice>)
    ensures Identified(nc) <==> EachSetsSomething(nc)
    ensures NewAreComplete(nc, exist) <==> NewOnesHaveRanges(nc, exist)
  {
  }

  /**
   * A request is accepted exactly if the scheduler has slices, every requested slice is identified and sets something,
   * new ones give their range, and the ranges given and those of slices that stay are apart and inside the cell.
   */
  lemma {:induction false} AcceptedExactlyWhen(single: bool, nc: seq<Slice>, exist: seq<Slice>, v: Verdict)
    requires IsVerdict(single, nc, exist, v)
    ensures v == Accepted <==>
      && !single && EachSetsSomething(nc) && NewOnesHaveRanges(nc, exist)
      && NothingOverlaps(nc, exist) && NothingIsBeyond(nc, exist)
  {
    AdmissionIsExact(single, nc, exist, v);
    ChecksAre(nc, exist);
    LookedAtApart(nc, exist);
    LookedAtInBounds(nc, exist);
  }

  // ---------- what a refusal names ----------

  /** The range that a slice gives has the position. */
  ghost predicate Takes(s: Slice, k: nat) {
    From(s) <= k <= To(s)
  }

  /** Some requested slice before the first `n` has a range with this position. */
  ghost predicate TakenByRequest(nc: seq<Slice>, n: nat, k: nat) {
    exists i | 0 <= i < n && i < |nc| :: nc[i].static_.Some? && Takes(nc[i], k)
  }

  /** Some slice that stays, before the first `n`, has the position. */
  ghost predicate TakenByStaying(nc: seq<Slice>, exist: seq<Slice>, n: nat, k: nat) {
    exists i | 0 <= i < n && i < |exist| :: Stays(nc, exist[i]) && Takes(exist[i], k)
  }

  lemma {:induction false} CoveredByRequest(nc: seq<Slice>, n: nat, k: nat)
    requires n <= |nc|
    ensures Covered(Ranged(nc[..n]), k) <==> TakenByRequest(nc, n, k)
  {
    var a := Ranged(nc[..n]);
    forall s: Slice {
      RangedMembers(nc[..n], s);
    }
    if TakenByRequest(nc, n, k) {
      var i :| 0 <= i < n && nc[i].static_.Some? && Takes(nc[i], k);
      assert nc[..n][i] == nc[i] && nc[i] in a;
      var j :| 0 <= j < |a| && a[j] == nc[i];
      assert a[j].Covers(k);
    }
    if Covered(a, k) {
      var j :| 0 <= j < |a| && a[j].Covers(k);
      assert a[j] in nc[..n];
      var i :| 0 <= i < n && nc[..n][i] == a[j];
    }
  }

  lemma {:induction false} CoveredByStaying(nc: seq<Slice>, exist: seq<Slice>, n: nat, k: nat)
    requires n <= |exist|
    ensures Covered(Unmentioned(exist[..n], nc), k) <==> TakenByStaying(nc, exist, n, k)
  {
    var a := Unmentioned(exist[..n], nc);
    forall s: Slice {
      StayingMembers(exist[..n], nc, s);
    }
    if TakenByStaying(nc, exist, n, k) {
      var i :| 0 <= i < n && Stays(nc, exist[i]) && Takes(exist[i], k);
      assert exist[..n][i] == exist[i] && exist[i] in a;
      var j :| 0 <= j < |a| && a[j] == exist[i];
      assert a[j].Covers(k);
    }
    if Covered(a, k) {
      var j :| 0 <= j < |a| && a[j].Covers(k);
      assert a[j] in exist[..n];
      var i :| 0 <= i < n && exist[..n][i] == a[j];
    }
  }

  lemma {:induction false} CoveredByBoth(a: seq<Slice>, b: seq<Slice>, k: nat)
    ensures Covered(a + b, k) <==> Covered(a, k) || Covered(b, k)
  {
    var c := a + b;
    if i :| 0 <= i < |a| && a[i].Covers(k) {
      assert c[i].Covers(k);
    }
    if i :| 0 <= i < |b| && b[i].Covers(k) {
      assert c[|a| + i].Covers(k);
    }
  }

  /** A refusal for overlap names a requested slice and its first position that an earlier one has. */
  lemma {:induction false} OverlapIsReal(nc: seq<Slice>, exist: seq<Slice>, k: nat, id: nat) returns (j: nat)
    requires IsVerdict(false, nc, exist, OverlapAt(k, id))
    ensures j < |nc| && nc[j].static_.Some? && nc[j].id.GetOr(0) == id
    ensures Takes(nc[j], k) && TakenByRequest(nc, j, k)
    ensures forall i: nat | i < k && Takes(nc[j], i) :: !TakenByRequest(nc, j, i)
  {
    j :| j < |nc| && nc[j].static_.Some? && nc[j].Id() == id && FirstClash(Ranged(nc[..j]), nc[j], k);
    forall i: nat
      ensures Covered(Ranged(nc[..j]), i) <==> TakenByRequest(nc, j, i)
    {
      CoveredByRequest(nc, j, i);
    }
    assert forall i: nat :: nc[j].Covers(i) == Takes(nc[j], i);
  }

  /** Or a slice that stays, and its first position that a requested one or one before it has. */
  lemma {:induction false} OverlapOfExistingIsReal(nc: seq<Slice>, exist: seq<Slice>, k: nat, id: nat)
    returns (j: nat)
    requires IsVerdict(false, nc, exist, OverlapOfExistingAt(k, id))
    ensures j < |exist| && Stays(nc, exist[j]) && exist[j].id.GetOr(0) == id
    ensures Takes(exist[j], k) && (TakenByRequest(nc, |nc|, k) || TakenByStaying(nc, exist, j, k))
    ensures forall i: nat | i < k && Takes(exist[j], i) ::
      !TakenByRequest(nc, |nc|, i) && !TakenByStaying(nc, exist, j, i)
  {
    j :| j < |exist| && exist[j].Id() == id && !Named(id, nc)
         && FirstClash(Ranged(nc) + Unmentioned(exist[..j], nc), exist[j], k);
    assert nc[..|nc|] == nc;
    forall i: nat
      ensures Covered(Ranged(nc) + Unmentioned(exist[..j], nc), i) <==>
        TakenByRequest(nc, |nc|, i) || TakenByStaying(nc, exist, j, i)
    {
      CoveredByRequest(nc, |nc|, i);
      CoveredByStaying(nc, exist, j, i);
      CoveredByBoth(Ranged(nc), Unmentioned(exist[..j], nc), i);
    }
  }
}
