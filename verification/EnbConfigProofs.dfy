/** What a base station's config holds after any run of config replies. */
module EnbConfigProofs {
  import opened Options
  import opened EnbConfigs

  /** The config after these replies. */
  function After(us: seq<EnbConfig>): EnbConfig {
    if us == [] then EnbConfig([], None, [], [], NOTHING) else Updated(After(us[..|us| - 1]), us[|us| - 1])
  }

  /** The first reply with cells, or the number of replies. */
  function FirstWithCells(us: seq<EnbConfig>): (i: nat)
    ensures i <= |us| && (i < |us| ==> us[i].cells != [])
    ensures forall j | 0 <= j < i :: us[j].cells == []
  {
    if us == [] || us[0].cells != [] then 0 else 1 + FirstWithCells(us[1..])
  }

  lemma {:induction false} FirstInMore(us: seq<EnbConfig>, u: EnbConfig)
    ensures var i := FirstWithCells(us);
      FirstWithCells(us + [u]) == if i < |us| || u.cells != [] then i else |us| + 1
  {
    if us == [] || us[0].cells != [] {
    } else {
      FirstInMore(us[1..], u);
      assert (us + [u])[1..] == us[1..] + [u];
    }
  }

  /**
   * The two application lists are always those of the last reply. The cells are as many as in the first reply with
   * any, whose other fields are kept; until then everything is as in the last reply. After it the S1AP block is that
   * of the last reply, or an empty one.
   */
  lemma {:induction false} RunHolds(us: seq<EnbConfig>)
    requires us != []
    ensures var c, last, i := After(us), us[|us| - 1], FirstWithCells(us);
      && c.apps == last.apps && c.macObjects == last.macObjects
      && (i >= |us| - 1 ==> c == last)
      && (i < |us| - 1 ==>
        && |c.cells| == |us[i].cells| && c.others == us[i].others && c.s1ap == Some(last.s1ap.GetOr(NOTHING)))
  {
    var init, last := us[..|us| - 1], us[|us| - 1];
    assert us == init + [last];
    FirstInMore(init, last);
    if init == [] {
      assert After(init).cells == [];
    } else {
      RunHolds(init);
      var i := FirstWithCells(init);
      if i < |init| {
        assert init[i] == us[i];
      } else {
        assert init[|init| - 1].cells == [];
      }
    }
  }

  /** After the first reply with cells, a cell hears each reply that has as many cells, and no other. */
  lemma {:induction false} CellHears(us: seq<EnbConfig>, u: EnbConfig, k: nat)
    requires FirstWithCells(us) < |us| && k < |After(us).cells|
    ensures var before, after := After(us).cells[k], After(us + [u]).cells;
      && k < |after|
      && (k >= |u.cells| ==> after[k] == before)
      && (k < |u.cells| ==> after[k] == CellMerged(before, u.cells[k]))
  {
    assert (us + [u])[..|us|] == us;
    RunHolds(us);
  }
}
