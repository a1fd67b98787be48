/** What requests that pass the check do to the slices at a base station. */
module SliceRuns {
  import opened Options
  import opened Slices

  function OrElse<T>(a: Option<T>, b: Option<T>): Option<T> {
    if a.Some? then a else b
  }

  function MergedRange(before: Option<Range>, now: Option<Range>): Option<Range> {
    if before.None? || now.None? then OrElse(now, before)
    else Some(Range(OrElse(now.value.posLow, before.value.posLow), OrElse(now.value.posHigh, before.value.posHigh)))
  }

  /** A slice takes over the fields that a request sets. */
  function MergedSlice(t: Slice, s: Slice): Slice {
    Slice(OrElse(s.id, t.id), OrElse(s.name, t.name), OrElse(s.scheduler, t.scheduler),
          MergedRange(t.static_, s.static_))
  }

  /** The position of the slice with this id, or the length. */
  function Find(table: seq<Slice>, id: nat): (i: nat)
    ensures i <= |table| && (i < |table| ==> table[i].Id() == id)
    ensures forall j | 0 <= j < i :: table[j].Id() != id
  {
    if table == [] || table[0].Id() == id then 0 else 1 + Find(table[1..], id)
  }

  /** The slices at the base station after it has carried out a request. */
  function Applied(table: seq<Slice>, nc: seq<Slice>): seq<Slice> {
    if nc == [] then table
    else
      var before, s := Applied(table, nc[..|nc| - 1]), nc[|nc| - 1];
      var i := Find(before, s.Id());
      if i == |before| then before + [s] else before[i := MergedSlice(before[i], s)]
  }

  ghost predicate DistinctIds(table: seq<Slice>) {
    forall i, j | 0 <= i < j < |table| :: table[i].Id() != table[j].Id()
  }

  /** The last entry of a request that names the id, or the length. */
  function LastNamed(nc: seq<Slice>, id: nat): (i: nat)
    ensures i <= |nc| && (i < |nc| ==> nc[i].Id() == id)
    ensures Named(id, nc) <==> i < |nc|
  {
    if nc == [] then 0
    else if nc[|nc| - 1].Id() == id then |nc| - 1
    else
      var i := LastNamed(nc[..|nc| - 1], id);
      assert Named(id, nc) ==> Named(id, nc[..|nc| - 1]);
      if i == |nc| - 1 then |nc| else i
  }

  /** The request says nothing of the slice, or ends with its complete range. */
  predicate Settled(nc: seq<Slice>, id: nat) {
    var i := LastNamed(nc, id);
    i < |nc| ==> nc[i].FullRange()
  }

  /** Where the range of a slice comes from that the request leaves alone or settles. */
  ghost predicate Origin(table: seq<Slice>, nc: seq<Slice>, t: Slice) {
    var i := LastNamed(nc, t.Id());
    if i < |nc| then t.Low() == nc[i].Low() && t.High() == nc[i].High()
    else t in table
  }

  lemma {:induction false} AppliedComesFrom(table: seq<Slice>, nc: seq<Slice>)
    requires DistinctIds(table) && Identified(nc)
    ensures DistinctIds(Applied(table, nc))
    ensures forall t | t in Applied(table, nc) && Settled(nc, t.Id()) :: Origin(table, nc, t)
  {
    if nc == [] {
    } else {
      var init, s := nc[..|nc| - 1], nc[|nc| - 1];
      AppliedComesFrom(table, init);
      var before, after := Applied(table, init), Applied(table, nc);
      var i := Find(before, s.Id());
      assert after[i].Id() == s.Id();
      assert forall k | 0 <= k < |after| && k != i :: after[k] == before[k] && after[k].Id() != s.Id();
      forall t | t in after && Settled(nc, t.Id()) ensures Origin(table, nc, t) {
        var k :| 0 <= k < |after| && after[k] == t;
        if k != i {
          assert t in before && Settled(init, t.Id());
        }
      }
    }
  }

  /** The slice of the checked list whose range a settled slice has. */
  lemma {:induction false} CheckedAs(table: seq<Slice>, nc: seq<Slice>, t: Slice) returns (c: Slice)
    requires Settled(nc, t.Id()) && Origin(table, nc, t)
    ensures c in Ranged(nc) + Unmentioned(table, nc)
    ensures c.Id() == t.Id() && c.Low() == t.Low() && c.High() == t.High()
  {
    var i := LastNamed(nc, t.Id());
    if i < |nc| {
      IsRanged(nc, i);
      c := nc[i];
    } else {
      IsUnmentioned(table, nc, t);
      c := t;
    }
  }

  ghost predicate Admitted(table: seq<Slice>, nc: seq<Slice>) {
    IsVerdict(false, nc, table, Accepted)
  }

  lemma {:induction false} SettledAreApart(table: seq<Slice>, nc: seq<Slice>, t: Slice, u: Slice)
    requires DistinctIds(table) && Admitted(table, nc) && t.Id() != u.Id()
    requires Settled(nc, t.Id()) && Origin(table, nc, t) && Settled(nc, u.Id()) && Origin(table, nc, u)
    ensures Apart(t, u)
  {
    var c := CheckedAs(table, nc, t);
    var d := CheckedAs(table, nc, u);
    var checked := Ranged(nc) + Unmentioned(table, nc);
    var i :| 0 <= i < |checked| && checked[i] == c;
    var j :| 0 <= j < |checked| && checked[j] == d;
    assert if i < j then Apart(checked[i], checked[j]) else Apart(checked[j], checked[i]);
    forall k: nat ensures !(t.Covers(k) && u.Covers(k)) {
      assert c.Covers(k) == t.Covers(k) && d.Covers(k) == u.Covers(k);
    }
  }

  /** Of two slices that are not apart after an admitted request, one was named without being settled. */
  lemma {:induction false} OnlyUnsettledClash(table: seq<Slice>, nc: seq<Slice>, i: nat, j: nat)
    requires DistinctIds(table) && Admitted(table, nc)
    requires var after := Applied(table, nc); i < j < |after| && !Apart(after[i], after[j])
    ensures var after := Applied(table, nc); !Settled(nc, after[i].Id()) || !Settled(nc, after[j].Id())
  {
    var after := Applied(table, nc);
    AppliedComesFrom(table, nc);
    if Settled(nc, after[i].Id()) && Settled(nc, after[j].Id()) {
      SettledAreApart(table, nc, after[i], after[j]);
    }
  }

  // ---------- what a request leaves each slice with ----------

  /** The range that the slice with this id has in the table. */
  function RangeIn(table: seq<Slice>, id: nat): Option<Range> {
    var i := Find(table, id);
    if i < |table| then table[i].static_ else None
  }

  /** That range with all the request says of it, in order. */
  function Carried(before: Option<Range>, nc: seq<Slice>, id: nat): Option<Range> {
    if nc == [] then before
    else
      var now, last := Carried(before, nc[..|nc| - 1], id), nc[|nc| - 1];
      if last.Id() == id then MergedRange(now, last.static_) else now
  }

  /** A slice that has just this id and the carried range. */
  function CarriedSlice(table: seq<Slice>, nc: seq<Slice>, id: nat): Slice {
    Slice(Some(id), None, None, Carried(RangeIn(table, id), nc, id))
  }

  /** Entry `i` of the request is the last on its slice and gives the complete range. */
  predicate Settles(nc: seq<Slice>, i: nat) {
    i < |nc| && LastNamed(nc, nc[i].Id()) == i && nc[i].FullRange()
  }

  /** The request names the slice and does not end with its complete range. */
  predicate LeftOpen(nc: seq<Slice>, id: nat) {
    Named(id, nc) && !Settled(nc, id)
  }

  /**
   * The range that a slice left open carries over is apart from the complete ranges that the request ends with,
   * from those of the slices it does not mention, and from those of other slices left open.
   */
  ghost predicate OpenAreApart(table: seq<Slice>, nc: seq<Slice>) {
    forall x: nat | LeftOpen(nc, x) ::
      && (forall i: nat | Settles(nc, i) :: Apart(CarriedSlice(table, nc, x), nc[i]))
      && (forall j | 0 <= j < |table| && !Named(table[j].Id(), nc) :: Apart(CarriedSlice(table, nc, x), table[j]))
      && (forall y: nat | LeftOpen(nc, y) && y != x ::
            Apart(CarriedSlice(table, nc, x), CarriedSlice(table, nc, y)))
  }

  lemma {:induction false} AppliedIds(table: seq<Slice>, nc: seq<Slice>, id: nat)
    ensures Named(id, Applied(table, nc)) <==> Named(id, table) || Named(id, nc)
    decreases |nc|
  {
    if nc == [] {
    } else {
      var init, s := nc[..|nc| - 1], nc[|nc| - 1];
      AppliedIds(table, init, id);
      var before, after := Applied(table, init), Applied(table, nc);
      var i := Find(before, s.Id());
      NamedInMore(init, s, id);
      if i == |before| {
        NamedInMore(before, s, id);
      } else {
        NamedAfterUpdate(before, i, MergedSlice(before[i], s), id);
      }
      assert nc == init + [s];
    }
  }

  lemma {:induction false} NamedInMore(ss: seq<Slice>, s: Slice, id: nat)
    ensures Named(id, ss + [s]) <==> Named(id, ss) || s.Id() == id
  {
    if Named(id, ss) {
      var i :| 0 <= i < |ss| && ss[i].Id() == id;
      assert (ss + [s])[i].Id() == id;
    }
    assert (ss + [s])[|ss|] == s;
  }

  lemma {:induction false} NamedAfterUpdate(ss: seq<Slice>, i: nat, s: Slice, id: nat)
    requires i < |ss|
    ensures Named(id, ss[i := s]) ==> Named(id, ss) || s.Id() == id
    ensures Named(id, ss) && s.Id() == ss[i].Id() ==> Named(id, ss[i := s])
    ensures s.Id() == id ==> Named(id, ss[i := s])
  {
    var tt := ss[i := s];
    assert tt[i] == s;
    if j :| 0 <= j < |ss| && ss[j].Id() == id {
      assert j != i ==> tt[j].Id() == id;
    }
  }

  /** What the base station holds of a range is what the request leaves it with. */
  lemma {:induction false} AppliedRange(table: seq<Slice>, nc: seq<Slice>)
    requires DistinctIds(table) && Identified(nc)
    ensures forall t | t in Applied(table, nc) :: t.static_ == Carried(RangeIn(table, t.Id()), nc, t.Id())
  {
    if nc == [] {
      forall t | t in table ensures t.static_ == RangeIn(table, t.Id()) {
        FoundByItsId(table, t);
      }
    } else {
      var init, s := nc[..|nc| - 1], nc[|nc| - 1];
      AppliedRange(table, init);
      AppliedComesFrom(table, init);
      var before, after := Applied(table, init), Applied(table, nc);
      var i := Find(before, s.Id());
      assert after[i].Id() == s.Id();
      assert forall k | 0 <= k < |after| && k != i :: after[k] == before[k] && after[k].Id() != s.Id();
      forall t | t in after ensures t.static_ == Carried(RangeIn(table, t.Id()), nc, t.Id()) {
        var k :| 0 <= k < |after| && after[k] == t;
        if k != i {
          assert t in before;
        } else if i == |before| {
          NewIsNotCarried(table, init, s.Id());
        } else {
          assert before[i] in before;
        }
      }
    }
  }

  lemma {:induction false} FoundByItsId(table: seq<Slice>, t: Slice)
    requires DistinctIds(table) && t in table
    ensures Find(table, t.Id()) < |table| && table[Find(table, t.Id())] == t
  {
    var i :| 0 <= i < |table| && table[i] == t;
    var k := Find(table, t.Id());
    assert k == i;
  }

  lemma {:induction false} NewIsNotCarried(table: seq<Slice>, nc: seq<Slice>, id: nat)
    requires Find(Applied(table, nc), id) == |Applied(table, nc)|
    ensures Carried(RangeIn(table, id), nc, id) == None
  {
    AppliedIds(table, nc, id);
    assert !Named(id, table) && !Named(id, nc);
    NotNamedIsNotCarried(RangeIn(table, id), nc, id);
    FoundIfNamed(table, id);
  }

  lemma {:induction false} FoundIfNamed(table: seq<Slice>, id: nat)
    ensures Named(id, table) <==> Find(table, id) < |table|
  {
    if Find(table, id) < |table| {
      assert table[Find(table, id)].Id() == id;
    }
  }

  lemma {:induction false} NotNamedIsNotCarried(before: Option<Range>, nc: seq<Slice>, id: nat)
    requires !Named(id, nc)
    ensures Carried(before, nc, id) == before
  {
    if nc == [] {
    } else {
      NamedInMore(nc[..|nc| - 1], nc[|nc| - 1], id);
      assert nc == nc[..|nc| - 1] + [nc[|nc| - 1]];
      NotNamedIsNotCarried(before, nc[..|nc| - 1], id);
    }
  }

  // ---------- the condition ----------

  ghost predicate SameRange(s: Slice, t: Slice) {
    s.Low() == t.Low() && s.High() == t.High()
  }

  lemma {:induction false} SameRangesApart(s: Slice, s': Slice, t: Slice, t': Slice)
    requires SameRange(s, s') && SameRange(t, t')
    ensures Apart(s, t) <==> Apart(s', t') && Apart(t', s')
  {
    if Apart(s, t) {
      forall k: nat ensures !(s'.Covers(k) && t'.Covers(k)) {
        assert !(s.Covers(k) && t.Covers(k));
      }
    } else {
      var k: nat :| s.Covers(k) && t.Covers(k);
      assert s'.Covers(k) && t'.Covers(k);
    }
  }

  /** The slice with a known id after the request. */
  lemma {:induction false} AfterWithId(table: seq<Slice>, nc: seq<Slice>, id: nat) returns (i: nat)
    requires DistinctIds(table) && Identified(nc) && (Named(id, table) || Named(id, nc))
    ensures i < |Applied(table, nc)| && Applied(table, nc)[i].Id() == id
    ensures SameRange(Applied(table, nc)[i], CarriedSlice(table, nc, id))
  {
    AppliedIds(table, nc, id);
    i :| 0 <= i < |Applied(table, nc)| && Applied(table, nc)[i].Id() == id;
    AppliedRange(table, nc);
    assert Applied(table, nc)[i] in Applied(table, nc);
  }

  /** What a settled slice is called in the condition: an entry of the request, or a slice of the table. */
  ghost predicate IsSettledAs(table: seq<Slice>, nc: seq<Slice>, t: Slice, c: Slice) {
    && t.Id() == c.Id() && SameRange(t, c)
    && ((exists i: nat :: Settles(nc, i) && nc[i] == c)
        || exists j :: 0 <= j < |table| && !Named(table[j].Id(), nc) && table[j] == c)
  }

  lemma {:induction false} SettledAs(table: seq<Slice>, nc: seq<Slice>, t: Slice) returns (c: Slice)
    requires Settled(nc, t.Id()) && Origin(table, nc, t)
    ensures IsSettledAs(table, nc, t, c)
  {
    var i := LastNamed(nc, t.Id());
    if i < |nc| {
      c := nc[i];
      assert Settles(nc, i);
    } else {
      c := t;
      var j :| 0 <= j < |table| && table[j] == t;
    }
  }

  /** A slice left open clashes with another only if what it carries over does. */
  lemma {:induction false} OpenClash(table: seq<Slice>, nc: seq<Slice>, t: Slice, u: Slice)
    requires DistinctIds(table) && Identified(nc) && OpenAreApart(table, nc)
    requires t in Applied(table, nc) && u in Applied(table, nc) && t.Id() != u.Id() && LeftOpen(nc, t.Id())
    ensures Apart(t, u) && Apart(u, t)
  {
    AppliedRange(table, nc);
    AppliedComesFrom(table, nc);
    var x := CarriedSlice(table, nc, t.Id());
    assert SameRange(t, x);
    if LeftOpen(nc, u.Id()) {
      var y := CarriedSlice(table, nc, u.Id());
      assert SameRange(u, y) && Apart(x, y);
      SameRangesApart(x, t, y, u);
    } else {
      var c := SettledAs(table, nc, u);
      assert Apart(x, c);
      SameRangesApart(x, t, c, u);
    }
  }

  ghost predicate AllPairsApart(ss: seq<Slice>) {
    forall i, j | 0 <= i < |ss| && 0 <= j < |ss| && i != j :: Apart(ss[i], ss[j])
  }

  lemma {:induction false} ApartBothWays(ss: seq<Slice>)
    requires AllApart(ss)
    ensures AllPairsApart(ss)
  {
    forall i, j | 0 <= i < |ss| && 0 <= j < |ss| && i != j ensures Apart(ss[i], ss[j]) {
      assert if i < j then Apart(ss[i], ss[j]) else Apart(ss[j], ss[i]);
    }
  }

  /** If all slices are apart, so is what those left open carry over. */
  lemma {:induction false} ApartMeansOpenApart(table: seq<Slice>, nc: seq<Slice>)
    requires DistinctIds(table) && Identified(nc) && AllApart(Applied(table, nc))
    ensures OpenAreApart(table, nc)
  {
    var after := Applied(table, nc);
    ApartBothWays(after);
    AppliedComesFrom(table, nc);
    forall x: nat | LeftOpen(nc, x)
      ensures forall i: nat | Settles(nc, i) :: Apart(CarriedSlice(table, nc, x), nc[i])
      ensures forall j | 0 <= j < |table| && !Named(table[j].Id(), nc) :: Apart(CarriedSlice(table, nc, x), table[j])
      ensures forall y: nat | LeftOpen(nc, y) && y != x ::
        Apart(CarriedSlice(table, nc, x), CarriedSlice(table, nc, y))
    {
      var a := AfterWithId(table, nc, x);
      forall i: nat | Settles(nc, i) ensures Apart(CarriedSlice(table, nc, x), nc[i]) {
        var b := AfterWithId(table, nc, nc[i].Id());
        assert Origin(table, nc, after[b]);
        SameRangesApart(after[a], CarriedSlice(table, nc, x), after[b], nc[i]);
      }
      forall j | 0 <= j < |table| && !Named(table[j].Id(), nc) ensures Apart(CarriedSlice(table, nc, x), table[j]) {
        assert Named(table[j].Id(), table);
        var b := AfterWithId(table, nc, table[j].Id());
        assert Origin(table, nc, after[b]) && after[b] in table;
        SameRangesApart(after[a], CarriedSlice(table, nc, x), after[b], table[j]);
      }
      forall y: nat | LeftOpen(nc, y) && y != x ensures Apart(CarriedSlice(table, nc, x), CarriedSlice(table, nc, y)) {
        var b := AfterWithId(table, nc, y);
        SameRangesApart(after[a], CarriedSlice(table, nc, x), after[b], CarriedSlice(table, nc, y));
      }
    }
  }

  /**
   * An admitted request leaves all slices apart exactly when the ranges that it leaves open are: read off the
   * table and the request, these are what the check does not look at.
   */
  lemma {:induction false} ApartAfterAdmissionExactlyWhen(table: seq<Slice>, nc: seq<Slice>)
    requires DistinctIds(table) && Admitted(table, nc)
    ensures AllApart(Applied(table, nc)) <==> OpenAreApart(table, nc)
  {
    var after := Applied(table, nc);
    AppliedComesFrom(table, nc);
    if AllApart(after) {
      ApartMeansOpenApart(table, nc);
    } else if OpenAreApart(table, nc) {
      var i, j :| 0 <= i < j < |after| && !Apart(after[i], after[j]);
      OnlyUnsettledClash(table, nc, i, j);
      if !Settled(nc, after[i].Id()) {
        OpenClash(table, nc, after[i], after[j]);
      } else {
        OpenClash(table, nc, after[j], after[i]);
      }
    }
  }

  // ---------- runs ----------

  /** Every slice that the request names ends with its complete range. */
  predicate SettlesAll(nc: seq<Slice>) {
    forall i | 0 <= i < |nc| :: Settled(nc, nc[i].Id())
  }

  lemma {:induction false} SettlingLeavesNothingOpen(table: seq<Slice>, nc: seq<Slice>)
    requires SettlesAll(nc)
    ensures OpenAreApart(table, nc)
  {
  }

  function AppliedAll(table: seq<Slice>, requests: seq<seq<Slice>>): seq<Slice> {
    if requests == [] then table
    else Applied(AppliedAll(table, requests[..|requests| - 1]), requests[|requests| - 1])
  }

  /** Each request is admitted for the table it meets. */
  ghost predicate IsRun(table: seq<Slice>, requests: seq<seq<Slice>>) {
    requests == [] || (
      var init, nc := requests[..|requests| - 1], requests[|requests| - 1];
      IsRun(table, init) && Admitted(AppliedAll(table, init), nc))
  }

  /** Whatever was admitted before, the last request alone decides whether the slices are apart. */
  lemma {:induction false} ApartAfterRunExactlyWhen(table: seq<Slice>, requests: seq<seq<Slice>>)
    requires DistinctIds(table) && IsRun(table, requests)
    ensures DistinctIds(AppliedAll(table, requests))
    ensures AllApart(AppliedAll(table, requests)) <==>
      if requests == [] then AllApart(table)
      else OpenAreApart(AppliedAll(table, requests[..|requests| - 1]), requests[|requests| - 1])
  {
    if requests == [] {
    } else {
      var init, nc := requests[..|requests| - 1], requests[|requests| - 1];
      ApartAfterRunExactlyWhen(table, init);
      AppliedComesFrom(AppliedAll(table, init), nc);
      ApartAfterAdmissionExactlyWhen(AppliedAll(table, init), nc);
    }
  }

  /** Admitted requests that settle what they name keep the slices apart for ever. */
  lemma {:induction false} EveryRunKeepsSlicesApart(table: seq<Slice>, requests: seq<seq<Slice>>)
    requires DistinctIds(table) && AllApart(table) && IsRun(table, requests)
    requires forall nc | nc in requests :: SettlesAll(nc)
    ensures DistinctIds(AppliedAll(table, requests)) && AllApart(AppliedAll(table, requests))
  {
    ApartAfterRunExactlyWhen(table, requests);
    if requests != [] {
      var nc := requests[|requests| - 1];
      assert nc in requests;
      SettlingLeavesNothingOpen(AppliedAll(table, requests[..|requests| - 1]), nc);
    }
  }

  lemma {:induction false} TwoRequested(a: Slice, b: Slice)
    ensures [a, b][..1] == [a] && [a][..0] == []
    ensures Ranged([a, b]) == Ranged([a]) + if b.static_.Some? then [b] else []
    ensures Ranged([a]) == if a.static_.Some? then [a] else []
  {
    assert [a, b][..1] == [a] && [a][..0] == [];
  }

  /** Renaming a slice frees its range for the check but not at the base station. */
  lemma {:induction false} RenamingEscapesTheCheck() returns (table: seq<Slice>, nc: seq<Slice>)
    ensures DistinctIds(table) && AllApart(table) && Admitted(table, nc) && !AllApart(Applied(table, nc))
  {
    var range := Some(Range(Some(0), Some(4)));
    var a := Slice(Some(1), None, None, range);
    var renamed := Slice(Some(1), Some("gold"), None, None);
    var b := Slice(Some(2), None, None, range);
    table, nc := [a], [renamed, b];
    TwoRequested(renamed, b);
    RenameIsAdmitted(a, renamed, b);
    var merged := MergedSlice(a, renamed);
    assert Applied(table, [renamed]) == [merged];
    assert Find([merged], 2) == 1;
    var after := Applied(table, nc);
    assert after == [merged, b];
    assert after[0].Covers(0) && after[1].Covers(0);
    assert !Apart(after[0], after[1]);
  }

  lemma {:induction false} RenameIsAdmitted(a: Slice, renamed: Slice, b: Slice)
    requires renamed.HasParameters() && renamed.Id() == a.Id() && renamed.static_.None?
    requires b.HasParameters() && b.FullRange() && b.InBounds()
    ensures Admitted([a], [renamed, b])
  {
    var table, nc := [a], [renamed, b];
    TwoRequested(renamed, b);
    assert table[0].Id() == renamed.Id() && nc[0].Id() == a.Id();
    assert Named(renamed.Id(), table) && Named(a.Id(), nc);
    assert table[..0] == [] && Unmentioned(table, nc) == [];
    assert Ranged(nc) + [] == [b];
  }
}
