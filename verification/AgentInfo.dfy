/** Agents and their capability sets (src/rib/agent_info.h, src/rib/agent_info.cc). */
module AgentInfos {
  import opened Bits

  /** A capability's enum value is its bit position in the 32-bit mask. */
  type Capability = c: nat | c < 32

  // The eight capabilities LOPHY (0) to RRC (7) make a complete base station; S1AP (8) is optional.
  const BASE_CAPABILITIES := 8

  /** Immutable record of one connected agent. */
  datatype AgentInfo = AgentInfo(agentId: nat, bsId: nat, capabilities: seq<Capability>)

  function CapSet(caps: seq<Capability>): set<Capability> {
    set c | c in caps
  }

  /** The members of `s` below `n`, in ascending order. */
  function Ascending(s: set<Capability>, n: nat): seq<Capability>
    requires n <= 32
  {
    if n == 0 then []
    else if n - 1 in s then Ascending(s, n - 1) + [n - 1]
    else Ascending(s, n - 1)
  }

  /** The one list that stands for a capability set. */
  function Canonical(s: set<Capability>): seq<Capability> {
    Ascending(s, 32)
  }

  lemma {:induction false} AscendingMembers(s: set<Capability>, n: nat)
    requires n <= 32
    ensures CapSet(Ascending(s, n)) == set c | c in s && c < n
    ensures forall i, j | 0 <= i < j < |Ascending(s, n)| :: Ascending(s, n)[i] < Ascending(s, n)[j]
  {
    if n == 0 {
    } else {
      AscendingMembers(s, n - 1);
      var r := Ascending(s, n - 1);
      assert forall i | 0 <= i < |r| :: r[i] in CapSet(r);
      forall c: Capability
        ensures c in CapSet(Ascending(s, n)) <==> c in s && c < n
      {
        assert c in CapSet(r) <==> c in s && c < n - 1;
      }
    }
  }

  /** A canonical list is strictly ascending and names exactly its set. */
  lemma {:induction false} CanonicalList(s: set<Capability>)
    ensures CapSet(Canonical(s)) == s
    ensures forall i, j | 0 <= i < j < |Canonical(s)| :: Canonical(s)[i] < Canonical(s)[j]
  {
    AscendingMembers(s, 32);
  }

  ghost predicate IsMaskOf(u: nat, s: set<Capability>) {
    forall k: nat :: Bit(u, k) <==> k in s
  }

  method ToU32(caps: seq<Capability>) returns (u: nat)
    ensures IsMaskOf(u, CapSet(caps))
    ensures u < Pow2(32)
  {
    u := 0;
    forall k: nat { ZeroBits(k); }
    for i := 0 to |caps|
      invariant IsMaskOf(u, CapSet(caps[..i]))
    {
      forall k: nat
        ensures Bit(BitOr(u, Pow2(caps[i])), k) <==> k in CapSet(caps[..i]) || k == caps[i]
      {
        OrBits(u, Pow2(caps[i]), k);
        PowerBits(caps[i], k);
      }
      u := BitOr(u, Pow2(caps[i]));
      assert caps[..i + 1] == caps[..i] + [caps[i]];
    }
    assert caps[..|caps|] == caps;
    BoundedBits(u, 32);
  }

  /** `w` is `u` shifted right by `m` places. */
  ghost predicate ShiftedBy(w: nat, u: nat, m: nat) {
    forall k: nat :: Bit(w, k) <==> Bit(u, k + m)
  }

  lemma {:induction false} ShiftOnce(w: nat, u: nat, m: nat)
    requires ShiftedBy(w, u, m)
    ensures w % 2 == 1 <==> Bit(u, m)
    ensures ShiftedBy(w / 2, u, m + 1)
  {
    assert Bit(w, 0) <==> Bit(u, 0 + m);
    forall k: nat
      ensures Bit(w / 2, k) <==> Bit(u, k + (m + 1))
    {
      assert Bit(w, k + 1) <==> Bit(u, (k + 1) + m);
    }
  }

  /** One pass of the extraction loop: the low bit of what is left decides on capability `m`. */
  lemma {:induction false} ExtractOne(w: nat, u: nat, s: set<Capability>, m: nat)
    requires IsMaskOf(u, s) && ShiftedBy(w, u, m) && w > 0
    ensures m < 32 && ShiftedBy(w / 2, u, m + 1)
    ensures m in s <==> w % 2 == 1
  {
    var k := SomeBit(w);
    assert k + m in s;
    ShiftOnce(w, u, m);
  }

  lemma {:induction false} ExtractDone(u: nat, s: set<Capability>, m: nat)
    requires IsMaskOf(u, s) && ShiftedBy(0, u, m) && m <= 32
    ensures Ascending(s, m) == Canonical(s)
  {
    forall k: Capability | m <= k
      ensures k !in s
    {
      ZeroBits(k - m);
      assert Bit(0, k - m) <==> Bit(u, (k - m) + m);
    }
    NothingAbove(s, m);
  }

  method FromU32(u: nat, ghost s: set<Capability>) returns (caps: seq<Capability>)
    requires IsMaskOf(u, s)
    ensures caps == Canonical(s)
  {
    caps := [];
    var w, n: nat := u, 1;
    while w > 0
      invariant 1 <= n <= 33
      invariant ShiftedBy(w, u, n - 1)
      invariant caps == Ascending(s, n - 1)
    {
      ExtractOne(w, u, s, n - 1);
      if w % 2 == 1 {
        caps := caps + [n - 1];
      }
      n := n + 1;
      w := w / 2;
    }
    ExtractDone(u, s, n - 1);
  }

  lemma {:induction false} NothingAbove(s: set<Capability>, m: nat)
    requires m <= 32
    requires forall k: Capability | k in s :: k < m
    ensures Ascending(s, m) == Canonical(s)
    decreases 32 - m
  {
    if m == 32 {
    } else {
      assert m !in s;
      NothingAbove(s, m + 1);
    }
  }

  /** The capability list of an agent object; constructing and merging sort it and remove duplicates. */
  class AgentCapabilities {
    var caps: seq<Capability>

    /** The constructor throws on an empty list; its one caller replaces an empty list beforehand. */
    constructor (protoCaps: seq<Capability>)
      requires |protoCaps| >= 1
      ensures caps == Canonical(CapSet(protoCaps)) && CapSet(caps) == CapSet(protoCaps)
    {
      var u := ToU32(protoCaps);
      var cs := FromU32(u, CapSet(protoCaps));
      caps := cs;
      CanonicalList(CapSet(protoCaps));
    }

    /** The copy constructor. */
    constructor Copy(other: seq<Capability>)
      ensures caps == other
    {
      caps := other;
    }

    method Orthogonal(other: seq<Capability>) returns (b: bool)
      ensures b <==> CapSet(caps) !! CapSet(other)
    {
      var u := ToU32(caps);
      var v := ToU32(other);
      b := BitAnd(u, v) == 0;
      AndZeroIffNoCommonBit(u, v);
      if !b {
        var k: nat :| Bit(u, k) && Bit(v, k);
        assert k in CapSet(caps) && k in CapSet(other);
      } else {
        forall c | c in CapSet(caps)
          ensures c !in CapSet(other)
        {
          assert !(Bit(u, c) && Bit(v, c));
        }
      }
    }

    method MergeIn(other: seq<Capability>)
      modifies this
      ensures caps == Canonical(CapSet(old(caps)) + CapSet(other))
      ensures CapSet(caps) == CapSet(old(caps)) + CapSet(other)
    {
      var u := ToU32(caps);
      var v := ToU32(other);
      forall k: nat { OrBits(u, v, k); }
      CanonicalList(CapSet(caps) + CapSet(other));
      caps := FromU32(BitOr(u, v), CapSet(caps) + CapSet(other));
    }

    method IsComplete() returns (b: bool)
      ensures b <==> forall c: Capability | c < BASE_CAPABILITIES :: c in CapSet(caps)
    {
      var u := ToU32(caps);
      b := BitAnd(u, 0xFF) == 0xFF;
      LowBitsFull(u, BASE_CAPABILITIES);
      assert Pow2(8) == 0x100 by { assert Pow2(4) == 0x10; }
      assert LowBitsSet(u, 8) <==> forall c: Capability | c < 8 :: c in CapSet(caps) by {
        assert forall k: nat | k < 8 :: Bit(u, k) <==> k in CapSet(caps);
        if !LowBitsSet(u, 8) {
          var k: nat :| k < 8 && !Bit(u, k);
          var c: Capability := k;
          assert c !in CapSet(caps);
        }
      }
    }
  }
}
