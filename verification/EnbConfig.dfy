/** The config of a base station and its cells, merged from partial replies (src/rib/enb_rib_info.cc:50-87). */
module EnbConfigs {
  import opened Messages
  import opened Options

  /** The cells, the S1AP block, the two application lists, and every other field. */
  datatype EnbConfig = EnbConfig(
    cells: seq<Message>, s1ap: Option<Message>, apps: seq<int>, macObjects: seq<int>, others: Message)

  const SLICE: Path := [42]
  const NOTHING: Message := Fields(map[], map[])

  /** A field of the slice block, or the block itself. */
  predicate InSlice(p: Path) {
    SLICE <= p
  }

  function WithoutSlice(m: Message): Message {
    Fields(map p | p in m.singular && !InSlice(p) :: m.singular[p],
           map p | p in m.repeated && !InSlice(p) :: m.repeated[p])
  }

  function SliceCleared(dst: Message, src: Message): Message {
    if SLICE in src.singular then WithoutSlice(dst) else dst
  }

  /** A cell takes over the repeated fields and the slice block that the update has. */
  function CellMerged(dst: Message, src: Message): Message {
    MergeFrom(SliceCleared(Cleared(dst, src, []), src), src)
  }

  function Min(a: nat, b: nat): nat {
    if a < b then a else b
  }

  function CellsMerged(cells: seq<Message>, update: seq<Message>): (r: seq<Message>)
    ensures |r| == |cells|
  {
    seq(|cells|, i requires 0 <= i < |cells| =>
      if i < |update| then CellMerged(cells[i], update[i]) else cells[i])
  }

  function Updated(c: EnbConfig, update: EnbConfig): EnbConfig {
    if c.cells == [] then update
    else EnbConfig(CellsMerged(c.cells, update.cells),
                   Some(update.s1ap.GetOr(NOTHING)),
                   update.apps, update.macObjects, c.others)
  }

  /** The numbers of the repeated fields of a cell config. */
  const CELL_LISTS: seq<nat> := [19, 20, 21, 40]

  ghost predicate IsCellConfig(m: Message) {
    forall p | p in m.repeated && |p| == 1 :: p[0] in CELL_LISTS
  }

  method MergeCell(dst: Message, src: Message) returns (r: Message)
    requires IsCellConfig(src)
    ensures r == CellMerged(dst, src)
  {
    r := ClearRepeatedIfPresent(dst, src, [], CELL_LISTS);
    if SLICE in src.singular {
      r := WithoutSlice(r);
    }
    return MergeFrom(r, src);
  }

  class EnbConfigHolder {
    var config: EnbConfig

    constructor ()
      ensures config == EnbConfig([], None, [], [], NOTHING)
    {
      config := EnbConfig([], None, [], [], NOTHING);
    }

    method UpdateEnbConfig(update: EnbConfig)
      requires forall m | m in update.cells :: IsCellConfig(m)
      modifies this
      ensures config == Updated(old(config), update)
    {
      if |config.cells| == 0 {
        config := update;
      } else {
        var cells := config.cells;
        var n := Min(|config.cells|, |update.cells|);
        for i := 0 to n
          invariant config == old(config) && |cells| == |config.cells|
          invariant forall k | 0 <= k < |cells| ::
            cells[k] == if k < i then CellMerged(config.cells[k], update.cells[k]) else config.cells[k]
        {
          assert update.cells[i] in update.cells;
          var cell := MergeCell(cells[i], update.cells[i]);
          cells := cells[i := cell];
        }
        assert cells == CellsMerged(config.cells, update.cells);
        config := EnbConfig(cells, Some(update.s1ap.GetOr(NOTHING)), update.apps, update.macObjects, config.others);
      }
    }
  }

  /** The elements of a repeated field of an update reach the cell unmixed. */
  predicate CellReplaces(src: Message, p: Path) {
    |p| == 1 || (SLICE in src.singular && InSlice(p))
  }

  lemma {:induction false} CellSingularAt(dst: Message, src: Message, p: Path)
    ensures p in CellMerged(dst, src).singular
       <==> p in src.singular || (p in dst.singular && !(SLICE in src.singular && InSlice(p)))
    ensures p in CellMerged(dst, src).singular
        ==> CellMerged(dst, src).singular[p] == if p in src.singular then src.singular[p] else dst.singular[p]
  {
  }

  lemma {:induction false} ClearedItems(dst: Message, src: Message, p: Path)
    ensures Items(Cleared(dst, src, []), p) == if |p| == 1 && p in src.repeated then [] else Items(dst, p)
  {
    assert Inside([], p) <==> |p| == 1;
  }

  lemma {:induction false} SliceClearedItems(dst: Message, src: Message, p: Path)
    ensures Items(SliceCleared(dst, src), p) == if SLICE in src.singular && InSlice(p) then [] else Items(dst, p)
  {
  }

  lemma {:induction false} CellItemsAt(dst: Message, src: Message, p: Path)
    ensures Items(CellMerged(dst, src), p) == (
              if SLICE in src.singular && InSlice(p) then Items(src, p)
              else if p !in src.repeated then Items(dst, p)
              else if |p| == 1 then src.repeated[p]
              else Items(dst, p) + src.repeated[p])
  {
    var cleared := Cleared(dst, src, []);
    ClearedItems(dst, src, p);
    SliceClearedItems(cleared, src, p);
    MergeItems(SliceCleared(cleared, src), src, p);
  }

  lemma {:induction false} MergeItems(dst: Message, src: Message, p: Path)
    ensures Items(MergeFrom(dst, src), p) == Items(dst, p) + Items(src, p)
  {
  }

  /** An update with a slice block leaves nothing of the previous slices. */
  lemma {:induction false} SlicesAreReplaced(dst: Message, src: Message, p: Path)
    requires SLICE in src.singular && InSlice(p)
    ensures Items(CellMerged(dst, src), p) == Items(src, p)
    ensures p in CellMerged(dst, src).singular <==> p in src.singular
    ensures p in src.singular ==> CellMerged(dst, src).singular[p] == src.singular[p]
  {
    CellSingularAt(dst, src, p);
    CellItemsAt(dst, src, p);
  }

  /** The cell holds what the update says, as far as the update is not appended. */
  ghost predicate Holds(cell: Message, src: Message) {
    && (forall p | p in src.singular :: p in cell.singular && cell.singular[p] == src.singular[p])
    && (forall p | p in cell.singular && SLICE in src.singular && InSlice(p) :: p in src.singular)
    && forall p | (SLICE in src.singular && InSlice(p)) || (|p| == 1 && p in src.repeated) ::
      Items(cell, p) == Items(src, p)
  }

  lemma {:induction false} MergedCellHolds(dst: Message, src: Message)
    ensures Holds(CellMerged(dst, src), src)
  {
    forall p | (SLICE in src.singular && InSlice(p)) || (|p| == 1 && p in src.repeated)
      ensures Items(CellMerged(dst, src), p) == Items(src, p)
    {
      CellItemsAt(dst, src, p);
    }
  }

  lemma {:induction false} HeldSingular(cell: Message, src: Message)
    requires Holds(cell, src)
    ensures CellMerged(cell, src).singular == cell.singular
  {
    var again := CellMerged(cell, src).singular;
    forall p ensures p in again <==> p in cell.singular {
      CellSingularAt(cell, src, p);
    }
    forall p | p in cell.singular ensures again[p] == cell.singular[p] {
      CellSingularAt(cell, src, p);
    }
    SameMap(again, cell.singular);
  }

  lemma {:induction false} SameMap(a: map<Path, int>, b: map<Path, int>)
    requires forall p :: p in a <==> p in b
    requires forall p | p in b :: a[p] == b[p]
    ensures a == b
  {
  }

  lemma {:induction false} HeldItems(cell: Message, src: Message, p: Path)
    requires Holds(cell, src)
    ensures Items(CellMerged(cell, src), p) == Items(cell, p) <==> (p in src.repeated ==> CellReplaces(src, p))
  {
    CellItemsAt(cell, src, p);
  }

  /** A cell that holds an update is left alone by it exactly when no nested list of it is appended. */
  lemma {:induction false} HeldUpdateIsIdleExactlyWhen(cell: Message, src: Message)
    requires Holds(cell, src)
    ensures CellMerged(cell, src) == cell <==> forall p | p in src.repeated :: CellReplaces(src, p)
  {
    var again := CellMerged(cell, src);
    HeldSingular(cell, src);
    forall p ensures Items(again, p) == Items(cell, p) <==> (p in src.repeated ==> CellReplaces(src, p)) {
      HeldItems(cell, src, p);
    }
    if forall p | p in src.repeated :: CellReplaces(src, p) {
      SameFields(again, cell);
    }
  }

  /** An update whose lists are all replaced, for the cells it reaches. */
  predicate CellsReplaced(n: nat, update: seq<Message>)
    requires n <= |update|
  {
    forall i | 0 <= i < n :: forall p | p in update[i].repeated :: CellReplaces(update[i], p)
  }

  lemma {:induction false} CellsIdleExactlyWhen(cells: seq<Message>, update: seq<Message>)
    requires forall i | 0 <= i < Min(|cells|, |update|) :: Holds(cells[i], update[i])
    ensures CellsMerged(cells, update) == cells <==> CellsReplaced(Min(|cells|, |update|), update)
  {
    var again := CellsMerged(cells, update);
    forall i | 0 <= i < Min(|cells|, |update|)
      ensures again[i] == cells[i] <==> forall p | p in update[i].repeated :: CellReplaces(update[i], p)
    {
      HeldUpdateIsIdleExactlyWhen(cells[i], update[i]);
    }
    if CellsReplaced(Min(|cells|, |update|), update) {
      assert again == cells;
    }
  }

  /**
   * Hearing the same reply twice is hearing it once exactly when no nested list of a cell is appended and,
   * if it is the first one with cells, it comes with its S1AP block.
   */
  lemma {:induction false} UpdateTwiceIsOnceExactlyWhen(c: EnbConfig, u: EnbConfig)
    ensures Updated(Updated(c, u), u) == Updated(c, u)
       <==> && CellsReplaced(if c.cells == [] then |u.cells| else Min(|c.cells|, |u.cells|), u.cells)
            && (c.cells == [] && u.cells != [] ==> u.s1ap.Some?)
  {
    var once := Updated(c, u);
    if c.cells != [] {
      forall i | 0 <= i < Min(|c.cells|, |u.cells|) ensures Holds(once.cells[i], u.cells[i]) {
        MergedCellHolds(c.cells[i], u.cells[i]);
      }
    }
    CellsIdleExactlyWhen(once.cells, u.cells);
  }
}
