/** Cell geometry, transport block sizes and the DCI bitmap (src/app/remote_scheduler_primitives.cc). */
module Primitives {
  import opened Bits

  /** The downlink bandwidths, in resource blocks, for which group count and group size match. */
  type Bandwidth = n: nat | n == 6 || n == 25 || n == 50 || n == 100 witness 6

  // Length of the resource-block-group maps; a cell uses a prefix of them.
  const N_RBG_MAX := 25

  type RbgMap = m: seq<bool> | |m| == N_RBG_MAX witness seq(N_RBG_MAX, _ => false)

  function MinRbUnit(bw: nat): nat {
    match bw
    case 6 => 1
    case 25 => 2
    case 50 => 3
    case 100 => 4
    case _ => 2
  }

  function NbRbg(bw: nat): nat {
    match bw
    case 100 => 25
    case 75 => 19
    case 50 => 17
    case 25 => 13
    case 15 => 8
    case 6 => 6
    case _ => 0
  }

  /** The last group is shorter at 25 and 50 resource blocks. */
  predicate IsShortGroup(bw: nat, i: int) {
    i == NbRbg(bw) - 1 && (bw == 25 || bw == 50)
  }

  /** Number of resource blocks in group `i`, section 7.1.6.1 of TS 36.213. */
  function RbgSize(bw: Bandwidth, i: nat): nat {
    if IsShortGroup(bw, i) then MinRbUnit(bw) - 1 else MinRbUnit(bw)
  }

  /** Number of resource blocks in those of the first `n` groups that the map marks. */
  function SizeOf(bw: Bandwidth, m: RbgMap, n: nat): nat
    requires n <= NbRbg(bw)
  {
    if n == 0 then 0 else SizeOf(bw, m, n - 1) + (if m[n - 1] then RbgSize(bw, n - 1) else 0)
  }

  /** Number of resource blocks in all the groups of the cell that the map marks. */
  function Rbs(bw: Bandwidth, m: RbgMap): nat {
    SizeOf(bw, m, NbRbg(bw))
  }

  function Complement(m: RbgMap): RbgMap {
    seq(N_RBG_MAX, i requires 0 <= i < N_RBG_MAX => !m[i])
  }

  lemma {:induction false} SizeOfComplement(bw: Bandwidth, m: RbgMap, n: nat)
    requires n <= NbRbg(bw)
    ensures SizeOf(bw, m, n) + SizeOf(bw, Complement(m), n) ==
            n * MinRbUnit(bw) - (if n == NbRbg(bw) && (bw == 25 || bw == 50) then 1 else 0)
  {
    if n == 0 {
    } else {
      SizeOfComplement(bw, m, n - 1);
    }
  }

  /** The groups of a cell make up its bandwidth, so marked and unmarked blocks add up to it. */
  lemma {:induction false} GroupsFillTheCell(bw: Bandwidth, m: RbgMap)
    ensures Rbs(bw, m) + Rbs(bw, Complement(m)) == bw
  {
    SizeOfComplement(bw, m, NbRbg(bw));
  }

  lemma {:induction false} SizeOfMonotone(bw: Bandwidth, m: RbgMap, i: nat, n: nat)
    requires i <= n <= NbRbg(bw)
    ensures SizeOf(bw, m, i) <= SizeOf(bw, m, n)
  {
    if i == n {
    } else {
      SizeOfMonotone(bw, m, i, n - 1);
    }
  }

  lemma {:induction false} SizeOfSame(bw: Bandwidth, m: RbgMap, m': RbgMap, n: nat)
    requires n <= NbRbg(bw)
    requires forall i | 0 <= i < n :: m[i] == m'[i]
    ensures SizeOf(bw, m, n) == SizeOf(bw, m', n)
  {
    if n == 0 {
    } else {
      SizeOfSame(bw, m, m', n - 1);
    }
  }

  /** Marking one more group of the cell adds the size of that group. */
  lemma {:induction false} SizeOfMark(bw: Bandwidth, m: RbgMap, i: nat, n: nat)
    requires i < N_RBG_MAX && n <= NbRbg(bw) && !m[i]
    ensures SizeOf(bw, m[i := true], n) == SizeOf(bw, m, n) + (if i < n then RbgSize(bw, i) else 0)
  {
    if n == 0 {
    } else {
      SizeOfMark(bw, m, i, n - 1);
    }
  }

  // ---------- transport block sizes ----------

  const MAX_MCS := 28

  /** Any table of transport block sizes in bits with the shape of the source's, entries below 2^19. */
  type TbsTable = t: seq<seq<nat>> |
    |t| == 27 && (forall r | r in t :: |r| == 110 && forall b | b in r :: b < 0x8_0000)
    witness seq(27, _ => seq(110, _ => 0))

  function GetITbs(mcs: nat): nat {
    if mcs < 10 then mcs
    else if mcs == 10 then 9
    else if mcs < 17 then mcs - 1
    else if mcs == 17 then 15
    else mcs - 2
  }

  /** Size in bytes of the transport block, section 7.1.7 of TS 36.213; it fits 16 bits. */
  function TbsDl(t: TbsTable, mcs: nat, nbRb: nat): (bytes: nat)
    requires nbRb <= 110
    ensures bytes < 0x1_0000
  {
    if nbRb > 0 && mcs < 29 then
      assert t[GetITbs(mcs)] in t && t[GetITbs(mcs)][nbRb - 1] in t[GetITbs(mcs)];
      t[GetITbs(mcs)][nbRb - 1] / 8
    else 0
  }

  // ---------- the DCI bitmap ----------

  /** Group `c` belongs to the shortest prefix of the marked groups that reaches `nbRb` resource blocks. */
  predicate InShortestPrefix(bw: Bandwidth, m: RbgMap, nbRb: int, c: nat) {
    c < NbRbg(bw) && m[c] && SizeOf(bw, m, c) < nbRb
  }

  /** The bitmap carries group 0 in its highest bit. */
  ghost predicate IsBitmapOf(bitmap: nat, bw: Bandwidth, m: RbgMap, nbRb: int) {
    && bitmap < Pow2(NbRbg(bw))
    && forall c: nat | c < NbRbg(bw) :: Bit(bitmap, NbRbg(bw) - 1 - c) <==> InShortestPrefix(bw, m, nbRb, c)
  }

  method AllocatePrbsSub(nbRb: int, rballoc: array<bool>, bw: Bandwidth) returns (rballocDci: nat)
    requires rballoc.Length == N_RBG_MAX
    ensures IsBitmapOf(rballocDci, bw, rballoc[..], nbRb)
  {
    var left, check := nbRb, 0;
    rballocDci := 0;
    ghost var m: RbgMap := rballoc[..];
    var n := NbRbg(bw);
    forall k: nat { ZeroBits(k); }
    while left > 0 && check < n
      invariant 0 <= check <= n
      invariant left == nbRb - SizeOf(bw, m, check)
      invariant forall k: nat :: Bit(rballocDci, k) <==> n - check <= k < n && InShortestPrefix(bw, m, nbRb, n - 1 - k)
    {
      if rballoc[check] {
        ghost var before := rballocDci;
        rballocDci := BitOr(rballocDci, Pow2((n - 1) - check));
        forall k: nat
          ensures Bit(rballocDci, k) <==> Bit(before, k) || k == n - 1 - check
        {
          OrBits(before, Pow2(n - 1 - check), k);
          PowerBits(n - 1 - check, k);
        }
        match bw {
          case 6 => left := left - 1;
          case 25 =>
            if check == n - 1 { left := left - 1; } else { left := left - 2; }
          case 50 =>
            if check == n - 1 { left := left - 2; } else { left := left - 3; }
          case 100 => left := left - 4;
          case _ =>
        }
      }
      check := check + 1;
    }
    forall c: nat | check <= c < n
      ensures !InShortestPrefix(bw, m, nbRb, c)
    {
      SizeOfMonotone(bw, m, check, c);
    }
    BoundedBits(rballocDci, n);
    forall c: nat | c < n
      ensures Bit(rballocDci, n - 1 - c) <==> InShortestPrefix(bw, m, nbRb, c)
    {
      assert n - 1 - (n - 1 - c) == c;
    }
  }
}
