/** `BitFlags<PcrSlot>`: a set of PCR slots stored as a mask of their bits. */
module SlotBitFlags {
  import opened Wrappers
  import opened PcrSlots

  /** A `BitFlags<PcrSlot>` value: a mask with no bit outside the defined slots. */
  type SlotFlags = m: bv32 | m & !AllBits == 0

  /** `BitFlags::<PcrSlot>::try_from(u32)`: accepts exactly the masks without undefined bits,
      and keeps every bit of them. */
  function FlagsFromBits(bits: bv32): (r: Option<SlotFlags>)
    ensures r.Some? <==> bits < 0x0100_0000
    ensures r.Some? ==> r.value == bits
  {
    if bits & !AllBits == 0 then Some(bits) else None
  }

  /** A mask without undefined bits is accepted as it is. */
  lemma FlagsFromDefinedBits(bits: bv32)
    requires bits & !AllBits == 0
    ensures FlagsFromBits(bits) == Some(bits)
  {
  }

  /** Membership of a slot in a set of flags. */
  predicate Contains(flags: bv32, s: PcrSlot) {
    flags & Bits(s) != 0
  }

  /** Membership, unfolded: the slot's bit is set in the mask. Proofs below call this at
      the points where they need the bit-level meaning, which keeps the solver from
      mixing membership facts and mask arithmetic elsewhere. */
  lemma ContainsDef(flags: bv32, s: PcrSlot)
    ensures Contains(flags, s) <==> flags & Bits(s) != 0
  {
  }

  /** No slot is a member of the empty set of flags. */
  lemma ContainsEmpty(s: PcrSlot)
    ensures !Contains(0, s)
  {
  }

  /** The union of two sets of flags is a set of flags. */
  lemma UnionDefined(a: SlotFlags, b: SlotFlags)
    ensures (a | b) & !AllBits == 0
  {
  }

  /** A mask meets a union iff it meets one of its parts. */
  lemma MeetsUnion(a: bv32, b: bv32, x: bv32)
    ensures (a | b) & x != 0 <==> a & x != 0 || b & x != 0
  {
  }

  /** A slot is in a union of flags iff it is in one of them. */
  lemma ContainsUnion(a: bv32, b: bv32, s: PcrSlot)
    ensures Contains(a | b, s) <==> Contains(a, s) || Contains(b, s)
  {
    ContainsDef(a | b, s);
    ContainsDef(a, s);
    ContainsDef(b, s);
    MeetsUnion(a, b, Bits(s));
  }

  /** The flags of a single slot contain that slot and no other. */
  lemma ContainsSingle(t: PcrSlot, s: PcrSlot)
    ensures Contains(Bits(t), s) <==> s == t
  {
    ContainsDef(Bits(t), s);
    DistinctSlotsDistinctBits(s, t);
  }

  /** Adding a slot's flag to a mask adds exactly that slot to its members. */
  lemma ContainsAdded(t: PcrSlot, rest: bv32, s: PcrSlot)
    ensures Contains(Bits(t) | rest, s) <==> s == t || Contains(rest, s)
  {
    ContainsUnion(Bits(t), rest, s);
    ContainsSingle(t, s);
  }

  /** Two single bits that meet are the same bit. */
  lemma SingleBitsMeet(x: bv32, y: bv32)
    requires IsSingleBit(x) && IsSingleBit(y) && x & y != 0
    ensures x == y
  {
  }

  /** A single-bit mask holding a slot is that slot's flag. */
  lemma SingleBitIsSlot(x: bv32, s: PcrSlot)
    requires IsSingleBit(x) && Contains(x, s)
    ensures x == Bits(s)
  {
    ContainsDef(x, s);
    BitsSingle(s);
    SingleBitsMeet(x, Bits(s));
  }

  /** `FromIterator<PcrSlot>` for `BitFlags`: the union of the slots' flags. */
  function Collect(slots: seq<PcrSlot>): SlotFlags {
    if |slots| == 0 then 0
    else
      var rest := Collect(slots[1..]);
      BitsDefined(slots[0]);
      UnionDefined(Bits(slots[0]), rest);
      Bits(slots[0]) | rest
  }

  /** The union of some slots holds exactly those slots, repeats collapsing. */
  lemma {:induction false} CollectMembers(slots: seq<PcrSlot>, s: PcrSlot)
    ensures Contains(Collect(slots), s) <==> s in slots
  {
    if |slots| == 0 {
      ContainsEmpty(s);
    } else {
      CollectMembers(slots[1..], s);
      ContainsAdded(slots[0], Collect(slots[1..]), s);
      assert slots == [slots[0]] + slots[1..];
    }
  }

  /** `BitFlags::iter` from bit position `from` on: members listed in ascending bit order. */
  function IterFrom(flags: SlotFlags, from: nat): (r: seq<PcrSlot>)
    requires from <= 24
    ensures forall k :: 0 <= k < |r| ==> from <= r[k]
    ensures StrictlyAscending(r)
    decreases 24 - from
  {
    if from == 24 then []
    else
      var rest := IterFrom(flags, from + 1);
      (if Contains(flags, from) then [from] else []) + rest
  }

  /** The listing from `from` on holds exactly the members at or above `from`. */
  lemma {:induction false} IterFromMembers(flags: SlotFlags, from: nat, s: PcrSlot)
    requires from <= 24
    ensures s in IterFrom(flags, from) <==> from <= s && Contains(flags, s)
    decreases 24 - from
  {
    if from < 24 {
      IterFromMembers(flags, from + 1, s);
      if s == from {
        assert s !in IterFrom(flags, from + 1);
      } else {
        assert s in IterFrom(flags, from) <==> s in IterFrom(flags, from + 1);
      }
    }
  }

  /** `BitFlags::iter`: the members in ascending bit order. */
  function Iter(flags: SlotFlags): (r: seq<PcrSlot>)
    ensures StrictlyAscending(r)
  {
    IterFrom(flags, 0)
  }

  /** `iter` lists every member, and nothing else. */
  lemma IterMembers(flags: SlotFlags, s: PcrSlot)
    ensures s in Iter(flags) <==> Contains(flags, s)
  {
    IterFromMembers(flags, 0, s);
  }

  // Extensionality of masks, written out slot by slot. Each group of four slots takes
  // one step from "same members" to "same bits" and stays small enough for the solver;
  // a single quantified step over all 24 bits does not.

  /** Two masks agree on membership of slots 0 to 3, written out slot by slot. */
  ghost predicate AgreeOnNibble0(a: bv32, b: bv32) {
    (Contains(a, 0) <==> Contains(b, 0)) &&
    (Contains(a, 1) <==> Contains(b, 1)) &&
    (Contains(a, 2) <==> Contains(b, 2)) &&
    (Contains(a, 3) <==> Contains(b, 3))
  }

  /** Agreement on every slot gives agreement on slots 0 to 3. */
  lemma AgreeOnNibble0FromAll(a: bv32, b: bv32)
    requires forall s :: Contains(a, s) <==> Contains(b, s)
    ensures AgreeOnNibble0(a, b)
  {
  }

  /** Agreement on slots 0 to 3 is agreement on bits 0 to 3. */
  lemma AgreeOnNibble0Bits(a: bv32, b: bv32)
    requires AgreeOnNibble0(a, b)
    ensures a & 0x000001 == 0 <==> b & 0x000001 == 0
    ensures a & 0x000002 == 0 <==> b & 0x000002 == 0
    ensures a & 0x000004 == 0 <==> b & 0x000004 == 0
    ensures a & 0x000008 == 0 <==> b & 0x000008 == 0
  {
  }

  /** Two masks agree on membership of slots 4 to 7, written out slot by slot. */
  ghost predicate AgreeOnNibble1(a: bv32, b: bv32) {
    (Contains(a, 4) <==> Contains(b, 4)) &&
    (Contains(a, 5) <==> Contains(b, 5)) &&
    (Contains(a, 6) <==> Contains(b, 6)) &&
    (Contains(a, 7) <==> Contains(b, 7))
  }

  /** Agreement on every slot gives agreement on slots 4 to 7. */
  lemma AgreeOnNibble1FromAll(a: bv32, b: bv32)
    requires forall s :: Contains(a, s) <==> Contains(b, s)
    ensures AgreeOnNibble1(a, b)
  {
  }

  /** Agreement on slots 4 to 7 is agreement on bits 4 to 7. */
  lemma AgreeOnNibble1Bits(a: bv32, b: bv32)
    requires AgreeOnNibble1(a, b)
    ensures a & 0x000010 == 0 <==> b & 0x000010 == 0
    ensures a & 0x000020 == 0 <==> b & 0x000020 == 0
    ensures a & 0x000040 == 0 <==> b & 0x000040 == 0
    ensures a & 0x000080 == 0 <==> b & 0x000080 == 0
  {
  }

  /** Two masks agree on membership of slots 8 to 11, written out slot by slot. */
  ghost predicate AgreeOnNibble2(a: bv32, b: bv32) {
    (Contains(a, 8) <==> Contains(b, 8)) &&
    (Contains(a, 9) <==> Contains(b, 9)) &&
    (Contains(a, 10) <==> Contains(b, 10)) &&
    (Contains(a, 11) <==> Contains(b, 11))
  }

  /** Agreement on every slot gives agreement on slots 8 to 11. */
  lemma AgreeOnNibble2FromAll(a: bv32, b: bv32)
    requires forall s :: Contains(a, s) <==> Contains(b, s)
    ensures AgreeOnNibble2(a, b)
  {
  }

  /** Agreement on slots 8 to 11 is agreement on bits 8 to 11. */
  lemma AgreeOnNibble2Bits(a: bv32, b: bv32)
    requires AgreeOnNibble2(a, b)
    ensures a & 0x000100 == 0 <==> b & 0x000100 == 0
    ensures a & 0x000200 == 0 <==> b & 0x000200 == 0
    ensures a & 0x000400 == 0 <==> b & 0x000400 == 0
    ensures a & 0x000800 == 0 <==> b & 0x000800 == 0
  {
  }

  /** Two masks agree on membership of slots 12 to 15, written out slot by slot. */
  ghost predicate AgreeOnNibble3(a: bv32, b: bv32) {
    (Contains(a, 12) <==> Contains(b, 12)) &&
    (Contains(a, 13) <==> Contains(b, 13)) &&
    (Contains(a, 14) <==> Contains(b, 14)) &&
    (Contains(a, 15) <==> Contains(b, 15))
  }

  /** Agreement on every slot gives agreement on slots 12 to 15. */
  lemma AgreeOnNibble3FromAll(a: bv32, b: bv32)
    requires forall s :: Contains(a, s) <==> Contains(b, s)
    ensures AgreeOnNibble3(a, b)
  {
  }

  /** Agreement on slots 12 to 15 is agreement on bits 12 to 15. */
  lemma AgreeOnNibble3Bits(a: bv32, b: bv32)
    requires AgreeOnNibble3(a, b)
    ensures a & 0x001000 == 0 <==> b & 0x001000 == 0
    ensures a & 0x002000 == 0 <==> b & 0x002000 == 0
    ensures a & 0x004000 == 0 <==> b & 0x004000 == 0
    ensures a & 0x008000 == 0 <==> b & 0x008000 == 0
  {
  }

  /** Two masks agree on membership of slots 16 to 19, written out slot by slot. */
  ghost predicate AgreeOnNibble4(a: bv32, b: bv32) {
    (Contains(a, 16) <==> Contains(b, 16)) &&
    (Contains(a, 17) <==> Contains(b, 17)) &&
    (Contains(a, 18) <==> Contains(b, 18)) &&
    (Contains(a, 19) <==> Contains(b, 19))
  }

  /** Agreement on every slot gives agreement on slots 16 to 19. */
  lemma AgreeOnNibble4FromAll(a: bv32, b: bv32)
    requires forall s :: Contains(a, s) <==> Contains(b, s)
    ensures AgreeOnNibble4(a, b)
  {
  }

  /** Agreement on slots 16 to 19 is agreement on bits 16 to 19. */
  lemma AgreeOnNibble4Bits(a: bv32, b: bv32)
    requires AgreeOnNibble4(a, b)
    ensures a & 0x010000 == 0 <==> b & 0x010000 == 0
    ensures a & 0x020000 == 0 <==> b & 0x020000 == 0
    ensures a & 0x040000 == 0 <==> b & 0x040000 == 0
    ensures a & 0x080000 == 0 <==> b & 0x080000 == 0
  {
  }

  /** Two masks agree on membership of slots 20 to 23, written out slot by slot. */
  ghost predicate AgreeOnNibble5(a: bv32, b: bv32) {
    (Contains(a, 20) <==> Contains(b, 20)) &&
    (Contains(a, 21) <==> Contains(b, 21)) &&
    (Contains(a, 22) <==> Contains(b, 22)) &&
    (Contains(a, 23) <==> Contains(b, 23))
  }

  /** Agreement on every slot gives agreement on slots 20 to 23. */
  lemma AgreeOnNibble5FromAll(a: bv32, b: bv32)
    requires forall s :: Contains(a, s) <==> Contains(b, s)
    ensures AgreeOnNibble5(a, b)
  {
  }

  /** Agreement on slots 20 to 23 is agreement on bits 20 to 23. */
  lemma AgreeOnNibble5Bits(a: bv32, b: bv32)
    requires AgreeOnNibble5(a, b)
    ensures a & 0x100000 == 0 <==> b & 0x100000 == 0
    ensures a & 0x200000 == 0 <==> b & 0x200000 == 0
    ensures a & 0x400000 == 0 <==> b & 0x400000 == 0
    ensures a & 0x800000 == 0 <==> b & 0x800000 == 0
  {
  }

  /** Flags that agree on each defined bit are equal. */
  lemma AgreeOnEachBitEqual(a: SlotFlags, b: SlotFlags)
    requires (a & 0x000001 == 0 <==> b & 0x000001 == 0) &&
      (a & 0x000002 == 0 <==> b & 0x000002 == 0) &&
      (a & 0x000004 == 0 <==> b & 0x000004 == 0) &&
      (a & 0x000008 == 0 <==> b & 0x000008 == 0) &&
      (a & 0x000010 == 0 <==> b & 0x000010 == 0) &&
      (a & 0x000020 == 0 <==> b & 0x000020 == 0) &&
      (a & 0x000040 == 0 <==> b & 0x000040 == 0) &&
      (a & 0x000080 == 0 <==> b & 0x000080 == 0) &&
      (a & 0x000100 == 0 <==> b & 0x000100 == 0) &&
      (a & 0x000200 == 0 <==> b & 0x000200 == 0) &&
      (a & 0x000400 == 0 <==> b & 0x000400 == 0) &&
      (a & 0x000800 == 0 <==> b & 0x000800 == 0) &&
      (a & 0x001000 == 0 <==> b & 0x001000 == 0) &&
      (a & 0x002000 == 0 <==> b & 0x002000 == 0) &&
      (a & 0x004000 == 0 <==> b & 0x004000 == 0) &&
      (a & 0x008000 == 0 <==> b & 0x008000 == 0) &&
      (a & 0x010000 == 0 <==> b & 0x010000 == 0) &&
      (a & 0x020000 == 0 <==> b & 0x020000 == 0) &&
      (a & 0x040000 == 0 <==> b & 0x040000 == 0) &&
      (a & 0x080000 == 0 <==> b & 0x080000 == 0) &&
      (a & 0x100000 == 0 <==> b & 0x100000 == 0) &&
      (a & 0x200000 == 0 <==> b & 0x200000 == 0) &&
      (a & 0x400000 == 0 <==> b & 0x400000 == 0) &&
      (a & 0x800000 == 0 <==> b & 0x800000 == 0)
    ensures a == b
  {
  }

  /** Flags are determined by their members. */
  lemma FlagsExtensional(a: SlotFlags, b: SlotFlags)
    requires forall s :: Contains(a, s) <==> Contains(b, s)
    ensures a == b
  {
    AgreeOnNibble0FromAll(a, b);
    AgreeOnNibble1FromAll(a, b);
    AgreeOnNibble2FromAll(a, b);
    AgreeOnNibble3FromAll(a, b);
    AgreeOnNibble4FromAll(a, b);
    AgreeOnNibble5FromAll(a, b);
    AgreeOnNibble0Bits(a, b);
    AgreeOnNibble1Bits(a, b);
    AgreeOnNibble2Bits(a, b);
    AgreeOnNibble3Bits(a, b);
    AgreeOnNibble4Bits(a, b);
    AgreeOnNibble5Bits(a, b);
    AgreeOnEachBitEqual(a, b);
  }

  /** Flags that list the same slots are equal. */
  lemma IterInjective(a: SlotFlags, b: SlotFlags)
    requires Iter(a) == Iter(b)
    ensures a == b
  {
    forall s
      ensures Contains(a, s) <==> Contains(b, s)
    {
      IterMembers(a, s);
      IterMembers(b, s);
    }
    FlagsExtensional(a, b);
  }

  /** The flags of a single slot list exactly that slot. */
  lemma IterSingle(s: PcrSlot)
    ensures Bits(s) & !AllBits == 0
    ensures Iter(Bits(s)) == [s]
  {
    BitsDefined(s);
    forall t
      ensures t in Iter(Bits(s)) <==> t in [s]
    {
      IterMembers(Bits(s), t);
      ContainsSingle(s, t);
    }
    AscendingDeterminedByElements(Iter(Bits(s)), [s]);
  }

  /** Flags that list a single slot are that slot's flag. */
  lemma IterOneSlot(flags: SlotFlags)
    requires |Iter(flags)| == 1
    ensures flags == Bits(Iter(flags)[0])
  {
    var s := Iter(flags)[0];
    assert Iter(flags) == [s];
    IterSingle(s);
    IterInjective(flags, Bits(s));
  }

  /** The set of flags is the union of the slots it lists: `iter` then `collect` is the identity. */
  lemma CollectIter(flags: SlotFlags)
    ensures Collect(Iter(flags)) == flags
  {
    forall s
      ensures Contains(Collect(Iter(flags)), s) <==> Contains(flags, s)
    {
      CollectMembers(Iter(flags), s);
      IterMembers(flags, s);
    }
    FlagsExtensional(Collect(Iter(flags)), flags);
  }

  /** Listing the union of some slots gives them sorted with repeats removed. */
  lemma IterCollect(slots: seq<PcrSlot>, sorted: seq<PcrSlot>)
    requires StrictlyAscending(sorted)
    requires forall s :: s in sorted <==> s in slots
    ensures Iter(Collect(slots)) == sorted
  {
    forall s
      ensures s in Iter(Collect(slots)) <==> s in sorted
    {
      IterMembers(Collect(slots), s);
      CollectMembers(slots, s);
    }
    AscendingDeterminedByElements(Iter(Collect(slots)), sorted);
  }

  /** The empty set of flags is the only one that lists no slot. */
  lemma IterEmpty(flags: SlotFlags)
    ensures Iter(flags) == [] <==> flags == 0
  {
    if Iter(flags) == [] {
      forall s
        ensures Contains(flags, s) <==> Contains(0, s)
      {
        IterMembers(flags, s);
        ContainsEmpty(s);
      }
      FlagsExtensional(flags, 0);
    } else {
      IterMembers(flags, Iter(flags)[0]);
      ContainsEmpty(Iter(flags)[0]);
    }
  }
}
