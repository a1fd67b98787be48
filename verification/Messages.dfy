/**
 * Partial protobuf messages as the sets of their present fields, and the two ways the controller merges
 * them (src/rib/enb_rib_info.cc:76-79, 116-119, 148-149, 481-499).
 */
module Messages {
  /** A field is named by the field numbers that lead to it, one per nesting level. */
  type Path = seq<nat>

  /**
   * The present singular fields, a nested message counting as one that is present, and the repeated fields.
   * A value is a number; text, and an element that is a message, stand for the number that encodes them.
   */
  datatype Fields = Fields(singular: map<Path, int>, repeated: map<Path, seq<int>>)

  /** A repeated field without elements is not present. */
  type Message = m: Fields | forall p | p in m.repeated :: m.repeated[p] != [] witness Fields(map[], map[])

  function Items(m: Message, p: Path): seq<int> {
    if p in m.repeated then m.repeated[p] else []
  }

  /** Protobuf's own merge: singular fields are overwritten, repeated ones appended. */
  function MergeFrom(dst: Message, src: Message): Message {
    Fields(dst.singular + src.singular,
           map p | p in dst.repeated.Keys + src.repeated.Keys :: Items(dst, p) + Items(src, p))
  }

  /** Field `p` stands directly in the nested message at `block`. */
  predicate Inside(block: Path, p: Path) {
    |p| == |block| + 1 && p[..|block|] == block
  }

  /** `dst` without the repeated fields of its block that are present in `src`. */
  function Cleared(dst: Message, src: Message, block: Path): Message {
    dst.(repeated := map p | p in dst.repeated && !(Inside(block, p) && p in src.repeated) :: dst.repeated[p])
  }

  /** Visits the fields of one block of the message type. */
  method ClearRepeatedIfPresent(dst: Message, src: Message, block: Path, fields: seq<nat>) returns (r: Message)
    requires forall p | p in src.repeated && Inside(block, p) :: p[|block|] in fields
    ensures r == Cleared(dst, src, block)
  {
    r := dst;
    for i := 0 to |fields|
      invariant r.singular == dst.singular && r.repeated.Keys <= dst.repeated.Keys
      invariant forall p | p in r.repeated :: r.repeated[p] == dst.repeated[p]
      invariant forall p | p in dst.repeated ::
        p !in r.repeated <==> Inside(block, p) && p in src.repeated && p[|block|] in fields[..i]
    {
      var field := block + [fields[i]];
      assert forall p | Inside(block, p) && p[|block|] == fields[i] :: p == field;
      assert Inside(block, field);
      if field in src.repeated {
        r := r.(repeated := r.repeated - {field});
      }
    }
  }

  /** Merging that replaces the repeated fields standing directly in one of the given blocks. */
  function Merged(dst: Message, src: Message, blocks: seq<Path>): Message {
    MergeFrom(ClearedAll(dst, src, blocks), src)
  }

  function ClearedAll(dst: Message, src: Message, blocks: seq<Path>): Message {
    if blocks == [] then dst else Cleared(ClearedAll(dst, src, blocks[..|blocks| - 1]), src, blocks[|blocks| - 1])
  }

  predicate Replaced(p: Path, blocks: seq<Path>) {
    exists b | b in blocks :: Inside(b, p)
  }

  /** No repeated field of the message escapes being replaced. */
  predicate Flat(src: Message, blocks: seq<Path>) {
    forall p | p in src.repeated :: Replaced(p, blocks)
  }

  lemma {:induction false} ClearedAllAt(dst: Message, src: Message, blocks: seq<Path>, p: Path)
    ensures ClearedAll(dst, src, blocks).singular == dst.singular
    ensures Items(ClearedAll(dst, src, blocks), p)
         == if Replaced(p, blocks) && p in src.repeated then [] else Items(dst, p)
  {
    if blocks == [] {
    } else {
      var init, last := blocks[..|blocks| - 1], blocks[|blocks| - 1];
      ClearedAllAt(dst, src, init, p);
      assert blocks == init + [last];
    }
  }

  lemma {:induction false} MergedSingular(dst: Message, src: Message, blocks: seq<Path>)
    ensures Merged(dst, src, blocks).singular == dst.singular + src.singular
  {
    ClearedAllAt(dst, src, blocks, []);
  }

  /** What merging does to the elements of one repeated field. */
  function Put(items: seq<int>, src: Message, blocks: seq<Path>, p: Path): seq<int> {
    if p in src.repeated && Replaced(p, blocks) then src.repeated[p] else items + Items(src, p)
  }

  lemma {:induction false} MergedAt(dst: Message, src: Message, blocks: seq<Path>, p: Path)
    ensures Items(Merged(dst, src, blocks), p) == Put(Items(dst, p), src, blocks, p)
  {
    ClearedAllAt(dst, src, blocks, p);
  }

  /** A message is its fields. */
  lemma {:induction false} SameFields(a: Message, b: Message)
    requires a.singular == b.singular
    requires forall p :: Items(a, p) == Items(b, p)
    ensures a == b
  {
    forall p ensures p in a.repeated <==> p in b.repeated {
      assert Items(a, p) == Items(b, p);
    }
    forall p | p in a.repeated ensures a.repeated[p] == b.repeated[p] {
      assert Items(a, p) == Items(b, p);
    }
    assert a.repeated == b.repeated;
  }

  lemma {:induction false} SameFieldsExactlyWhen(a: Message, b: Message)
    ensures a == b <==> a.singular == b.singular && forall p :: Items(a, p) == Items(b, p)
  {
    if a.singular == b.singular && forall p :: Items(a, p) == Items(b, p) {
      SameFields(a, b);
    }
  }

  /** Setting field `p` in either order leaves the same elements. */
  predicate ElementsAgree(a: Message, b: Message, blocks: seq<Path>, p: Path) {
    p in a.repeated && p in b.repeated ==>
      if Replaced(p, blocks) then a.repeated[p] == b.repeated[p]
      else a.repeated[p] + b.repeated[p] == b.repeated[p] + a.repeated[p]
  }

  /** Two updates agree on every field that both set. */
  ghost predicate Compatible(a: Message, b: Message, blocks: seq<Path>) {
    && (forall p | p in a.singular && p in b.singular :: a.singular[p] == b.singular[p])
    && forall p :: ElementsAgree(a, b, blocks, p)
  }

  lemma {:induction false} OverridesCommute(d: map<Path, int>, a: map<Path, int>, b: map<Path, int>)
    ensures d + a + b == d + b + a <==> forall p | p in a && p in b :: a[p] == b[p]
  {
    if d + a + b == d + b + a {
      forall p | p in a && p in b ensures a[p] == b[p] {
        assert (d + a + b)[p] == b[p] && (d + b + a)[p] == a[p];
      }
    }
  }

  lemma {:induction false} SingularCommute(d: Message, a: Message, b: Message, blocks: seq<Path>)
    ensures Merged(Merged(d, a, blocks), b, blocks).singular == Merged(Merged(d, b, blocks), a, blocks).singular
       <==> forall p | p in a.singular && p in b.singular :: a.singular[p] == b.singular[p]
  {
    MergedSingular(d, a, blocks);
    MergedSingular(d, b, blocks);
    MergedSingular(Merged(d, a, blocks), b, blocks);
    MergedSingular(Merged(d, b, blocks), a, blocks);
    OverridesCommute(d.singular, a.singular, b.singular);
  }

  lemma {:induction false} PutsCommute(items: seq<int>, a: Message, b: Message, blocks: seq<Path>, p: Path)
    ensures Put(Put(items, a, blocks, p), b, blocks, p) == Put(Put(items, b, blocks, p), a, blocks, p)
       <==> ElementsAgree(a, b, blocks, p)
  {
    var x, y := Items(a, p), Items(b, p);
    assert items + x + y == items + (x + y) && items + y + x == items + (y + x);
    SameTail(items, x + y, y + x);
    assert items + [] == items && x + [] == x == [] + x && y + [] == y == [] + y;
  }

  /** Both orders give field `p` the same elements. */
  lemma {:induction false} ElementsCommute(d: Message, a: Message, b: Message, blocks: seq<Path>, p: Path)
    ensures Items(Merged(Merged(d, a, blocks), b, blocks), p) == Items(Merged(Merged(d, b, blocks), a, blocks), p)
       <==> ElementsAgree(a, b, blocks, p)
  {
    MergedAt(d, a, blocks, p);
    MergedAt(Merged(d, a, blocks), b, blocks, p);
    MergedAt(d, b, blocks, p);
    MergedAt(Merged(d, b, blocks), a, blocks, p);
    PutsCommute(Items(d, p), a, b, blocks, p);
  }

  /** The order of two merges does not matter exactly when they agree on what both set. */
  lemma {:induction false} MergesCommuteExactlyWhen(d: Message, a: Message, b: Message, blocks: seq<Path>)
    ensures Merged(Merged(d, a, blocks), b, blocks) == Merged(Merged(d, b, blocks), a, blocks)
       <==> Compatible(a, b, blocks)
  {
    var ab, ba := Merged(Merged(d, a, blocks), b, blocks), Merged(Merged(d, b, blocks), a, blocks);
    SingularCommute(d, a, b, blocks);
    forall p ensures Items(ab, p) == Items(ba, p) <==> ElementsAgree(a, b, blocks, p) {
      ElementsCommute(d, a, b, blocks, p);
    }
    SameFieldsExactlyWhen(ab, ba);
  }

  lemma {:induction false} SameTail(h: seq<int>, s: seq<int>, t: seq<int>)
    ensures h + s == h + t <==> s == t
  {
    if h + s == h + t {
      assert s == (h + s)[|h|..];
      assert t == (h + t)[|h|..];
    }
  }
}
