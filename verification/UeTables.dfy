/** The tables a base station keeps of its cells and UEs (src/rib/enb_rib_info.cc). */
module UeTables {
  import opened Messages
  import opened Sequences
  import opened UeScheduling

  const RNTI: Path := [1]
  const SPS_ELEMENTS: Path := [6, 4]
  const SCELLS: Path := [28]
  const INFO: Path := [33]
  const INFO_OFFSETS: Path := [33, 3]

  /** Where a config reply, and where a state change, replaces repeated fields. */
  const REPLY_BLOCKS: seq<Path> := [[], INFO]
  const STATE_BLOCKS: seq<Path> := [[]]

  /** The repeated fields that a UE config can have (config_messages.proto, config_common.proto). */
  ghost predicate IsUeConfig(m: Message) {
    && m.repeated.Keys <= {SCELLS, INFO_OFFSETS, SPS_ELEMENTS}
    && (INFO_OFFSETS in m.repeated ==> INFO in m.singular)
  }

  /** The getter answers 0 for a field that is not present. */
  function Rnti(m: Message): int {
    if RNTI in m.singular then m.singular[RNTI] else 0
  }

  function Rntis(cs: seq<Message>): (r: seq<int>)
    ensures |r| == |cs|
  {
    seq(|cs|, i requires 0 <= i < |cs| => Rnti(cs[i]))
  }

  /** The first position of `x`, or the length. */
  function IndexOf(xs: seq<int>, x: int): (i: nat)
    ensures i <= |xs| && (i < |xs| ==> xs[i] == x)
    ensures forall j | 0 <= j < i :: xs[j] != x
  {
    if xs == [] || xs[0] == x then 0 else 1 + IndexOf(xs[1..], x)
  }

  method FindRnti(cs: seq<Message>, rnti: int) returns (i: nat)
    ensures i == IndexOf(Rntis(cs), rnti)
  {
    i := 0;
    while i < |cs| && Rnti(cs[i]) != rnti
      invariant 0 <= i <= |cs|
      invariant forall j | 0 <= j < i :: Rntis(cs)[j] != rnti
    {
      i := i + 1;
    }
    assert i < |cs| ==> Rntis(cs)[i] == rnti;
  }

  /** One config of a reply: merged into the UE with its RNTI, dropped when there is none. */
  function ApplyConfig(cs: seq<Message>, src: Message): seq<Message> {
    var i := IndexOf(Rntis(cs), Rnti(src));
    if i == |cs| then cs else cs[i := Merged(cs[i], src, REPLY_BLOCKS)]
  }

  function ApplyReply(cs: seq<Message>, reply: seq<Message>): seq<Message> {
    if reply == [] then cs else ApplyConfig(ApplyReply(cs, reply[..|reply| - 1]), reply[|reply| - 1])
  }

  datatype Change = Activated | Deactivated | Updated | OtherChange

  /** The UE configs, the RNTIs that have MAC state, and the logical channel configs. */
  datatype Tables = Tables(ues: seq<Message>, macs: set<int>, lcs: seq<Message>)

  function ApplyChange(t: Tables, change: Change, src: Message): Tables {
    var rnti := Rnti(src);
    var i := IndexOf(Rntis(t.ues), rnti);
    var l := IndexOf(Rntis(t.lcs), rnti);
    match change
    case Activated =>
      if i == |t.ues| then t.(ues := t.ues + [src], macs := t.macs + {rnti})
      else t.(ues := t.ues[i := Merged(t.ues[i], src, STATE_BLOCKS)])
    case Updated =>
      if i == |t.ues| then t else t.(ues := t.ues[i := Merged(t.ues[i], src, STATE_BLOCKS)])
    case Deactivated =>
      if i == |t.ues| then t
      else Tables(Without(t.ues, i), t.macs - {rnti}, if l == |t.lcs| then t.lcs else Without(t.lcs, l))
    case OtherChange => t
  }

  /** The field numbers of a UE config. */
  method UeFields() returns (fields: seq<nat>)
    ensures forall n: nat | 1 <= n <= 33 :: n in fields
  {
    fields := seq(33, i => i + 1);
    forall n: nat | 1 <= n <= 33 ensures n in fields {
      assert fields[n - 1] == n;
    }
  }

  method ClearTop(dst: Message, src: Message) returns (r: Message)
    requires IsUeConfig(src)
    ensures r == Cleared(dst, src, [])
  {
    var fields := UeFields();
    r := ClearRepeatedIfPresent(dst, src, [], fields);
  }

  method ClearInfo(dst: Message, src: Message) returns (r: Message)
    requires IsUeConfig(src)
    ensures r == Cleared(dst, src, INFO)
  {
    r := dst;
    if INFO in src.singular {
      r := ClearRepeatedIfPresent(dst, src, INFO, [1, 2, 3, 4, 5, 6]);
    } else {
      assert SPS_ELEMENTS[..1][0] == 6 && |SCELLS| == 1;
      assert forall p | p in src.repeated :: !Inside(INFO, p);
      assert Cleared(dst, src, INFO).repeated == dst.repeated;
    }
  }

  method MergeStateConfig(dst: Message, src: Message) returns (r: Message)
    requires IsUeConfig(src)
    ensures r == Merged(dst, src, STATE_BLOCKS)
  {
    var cleared := ClearTop(dst, src);
    OneBlock(dst, src);
    return MergeFrom(cleared, src);
  }

  method MergeReplyConfig(dst: Message, src: Message) returns (r: Message)
    requires IsUeConfig(src)
    ensures r == Merged(dst, src, REPLY_BLOCKS)
  {
    var cleared := ClearTop(dst, src);
    cleared := ClearInfo(cleared, src);
    TwoBlocks(dst, src);
    return MergeFrom(cleared, src);
  }

  lemma {:induction false} OneBlock(dst: Message, src: Message)
    ensures ClearedAll(dst, src, STATE_BLOCKS) == Cleared(dst, src, [])
  {
    assert STATE_BLOCKS[..0] == [];
  }

  lemma {:induction false} TwoBlocks(dst: Message, src: Message)
    ensures ClearedAll(dst, src, REPLY_BLOCKS) == Cleared(Cleared(dst, src, []), src, INFO)
  {
    assert REPLY_BLOCKS[..1] == STATE_BLOCKS;
    OneBlock(dst, src);
  }

  class EnbRibInfo {
    var ueConfig: seq<Message>
    var ueMacInfo: map<int, UeMacRibInfo>
    var lcConfig: seq<Message>

    ghost function State(): Tables
      reads this
    {
      Tables(ueConfig, ueMacInfo.Keys, lcConfig)
    }

    /** A UE known before and after has the same MAC object. */
    ghost predicate MacKept(before: map<int, UeMacRibInfo>)
      reads this`ueMacInfo
    {
      forall r | r in before && r in ueMacInfo :: ueMacInfo[r] == before[r]
    }

    constructor ()
      ensures State() == Tables([], {}, [])
    {
      ueConfig, ueMacInfo, lcConfig := [], map[], [];
    }

    method UpdateUeConfigReply(reply: seq<Message>)
      requires forall s | s in reply :: IsUeConfig(s)
      modifies this`ueConfig
      ensures ueConfig == ApplyReply(old(ueConfig), reply)
    {
      for k := 0 to |reply|
        invariant ueConfig == ApplyReply(old(ueConfig), reply[..k])
      {
        var i := FindRnti(ueConfig, Rnti(reply[k]));
        if i < |ueConfig| {
          var merged := MergeReplyConfig(ueConfig[i], reply[k]);
          ueConfig := ueConfig[i := merged];
        }
        assert reply[..k + 1][..k] == reply[..k];
      }
      assert reply[..|reply|] == reply;
    }

    /** MAC state is created for a UE that was not known, and otherwise kept or dropped. */
    method UpdateUeState(change: Change, config: Message)
      requires IsUeConfig(config)
      modifies this
      ensures State() == ApplyChange(old(State()), change, config)
      ensures MacKept(old(ueMacInfo)) && forall r | r in ueMacInfo && r !in old(ueMacInfo) :: fresh(ueMacInfo[r])
    {
      var rnti := Rnti(config);
      var i := FindRnti(ueConfig, rnti);
      match change
      case Activated =>
        if i == |ueConfig| {
          AddUe(config);
        } else {
          var merged := MergeStateConfig(ueConfig[i], config);
          ueConfig := ueConfig[i := merged];
        }
      case Deactivated =>
        if i < |ueConfig| {
          RemoveUe(i, rnti);
        }
      case Updated =>
        if i < |ueConfig| {
          var merged := MergeStateConfig(ueConfig[i], config);
          ueConfig := ueConfig[i := merged];
        }
      case OtherChange =>
    }

    /** A MAC entry that is already there is kept. */
    method AddUe(config: Message)
      modifies this`ueConfig, this`ueMacInfo
      ensures ueConfig == old(ueConfig) + [config]
      ensures ueMacInfo.Keys == old(ueMacInfo.Keys) + {Rnti(config)}
      ensures MacKept(old(ueMacInfo)) && forall r | r in ueMacInfo && r !in old(ueMacInfo) :: fresh(ueMacInfo[r])
    {
      ueConfig := ueConfig + [config];
      if Rnti(config) !in ueMacInfo {
        var info := new UeMacRibInfo();
        ueMacInfo := ueMacInfo[Rnti(config) := info];
      }
    }

    method RemoveUe(i: nat, rnti: int)
      requires i < |ueConfig|
      modifies this
      ensures ueConfig == Without(old(ueConfig), i)
      ensures ueMacInfo == old(ueMacInfo) - {rnti}
      ensures var l := IndexOf(Rntis(old(lcConfig)), rnti);
        lcConfig == if l == |old(lcConfig)| then old(lcConfig) else Without(old(lcConfig), l)
    {
      ueConfig := ueConfig[..i] + ueConfig[i + 1..];
      ueMacInfo := ueMacInfo - {rnti};
      var l := FindRnti(lcConfig, rnti);
      if l < |lcConfig| {
        lcConfig := lcConfig[..l] + lcConfig[l + 1..];
      }
    }

    method UpdateLcConfig(reply: seq<Message>)
      modifies this`lcConfig
      ensures lcConfig == if reply == [] then old(lcConfig) else reply
    {
      if reply == [] {
        return;
      }
      lcConfig := reply;
    }
  }
}
