/** The PCR slot enumeration: 24 slots, each identified by one bit of a 32-bit mask. */
module PcrSlots {
  /** Every bit a selection of defined slots can have (`BitFlags::<PcrSlot>::all()`). */
  const AllBits: bv32 := 0x00FF_FFFF

  /** One of the 24 PCR slots of a selection, identified by the position of its bit
      (24 is also the first bit position no slot uses). The derived order of the
      enumeration is the order of these positions. */
  type PcrSlot = p: nat | p < 24

  // The variants of the enumeration, in declaration order.
  const Slot0: PcrSlot := 0
  const Slot1: PcrSlot := 1
  const Slot2: PcrSlot := 2
  const Slot3: PcrSlot := 3
  const Slot4: PcrSlot := 4
  const Slot5: PcrSlot := 5
  const Slot6: PcrSlot := 6
  const Slot7: PcrSlot := 7
  const Slot8: PcrSlot := 8
  const Slot9: PcrSlot := 9
  const Slot10: PcrSlot := 10
  const Slot11: PcrSlot := 11
  const Slot12: PcrSlot := 12
  const Slot13: PcrSlot := 13
  const Slot14: PcrSlot := 14
  const Slot15: PcrSlot := 15
  const Slot16: PcrSlot := 16
  const Slot17: PcrSlot := 17
  const Slot18: PcrSlot := 18
  const Slot19: PcrSlot := 19
  const Slot20: PcrSlot := 20
  const Slot21: PcrSlot := 21
  const Slot22: PcrSlot := 22
  const Slot23: PcrSlot := 23

  /** A 32-bit value with exactly one bit set. */
  predicate IsSingleBit(x: bv32) {
    x != 0 && x & (x - 1) == 0
  }

  /** The `#[repr(u32)]` discriminant of a slot, as the enumeration declares it. */
  function Bits(s: PcrSlot): bv32 {
    match s
    case 0 => 0x0000_0001
    case 1 => 0x0000_0002
    case 2 => 0x0000_0004
    case 3 => 0x0000_0008
    case 4 => 0x0000_0010
    case 5 => 0x0000_0020
    case 6 => 0x0000_0040
    case 7 => 0x0000_0080
    case 8 => 0x0000_0100
    case 9 => 0x0000_0200
    case 10 => 0x0000_0400
    case 11 => 0x0000_0800
    case 12 => 0x0000_1000
    case 13 => 0x0000_2000
    case 14 => 0x0000_4000
    case 15 => 0x0000_8000
    case 16 => 0x0001_0000
    case 17 => 0x0002_0000
    case 18 => 0x0004_0000
    case 19 => 0x0008_0000
    case 20 => 0x0010_0000
    case 21 => 0x0020_0000
    case 22 => 0x0040_0000
    case 23 => 0x0080_0000
  }

  /** A slot's discriminant lies inside the defined bits. */
  lemma BitsDefined(s: PcrSlot)
    ensures Bits(s) & !AllBits == 0
  {
  }

  /** A slot's discriminant has exactly one bit set. */
  lemma BitsSingle(s: PcrSlot)
    ensures IsSingleBit(Bits(s))
  {
  }

  /** Distinct slots have disjoint bits; a slot shares its bit only with itself. */
  lemma DistinctSlotsDistinctBits(s: PcrSlot, t: PcrSlot)
    ensures s != t <==> Bits(s) & Bits(t) == 0
  {
  }

  /** Slot i is bit i: the table above is the powers of two in order. */
  lemma BitsIsBitPosition(s: PcrSlot)
    ensures Bits(s) == (1 as bv32) << (s as bv5)
  {
  }

  /** Slots listed in strictly increasing bit order, hence without repeats. */
  predicate StrictlyAscending(r: seq<PcrSlot>) {
    forall j, k :: 0 <= j < k < |r| ==> r[j] < r[k]
  }

  /** The first of a strictly ascending list is below every other member. */
  lemma AscendingHeadLeast(p: seq<PcrSlot>, s: PcrSlot)
    requires StrictlyAscending(p) && s in p
    ensures p[0] <= s
    ensures s in p[1..] <==> s != p[0]
  {
    var k :| 0 <= k < |p| && p[k] == s;
    if k > 0 {
      assert p[1..][k - 1] == s;
    }
  }

  /** Two strictly ascending lists of the same slots are the same list. */
  lemma {:induction false} AscendingDeterminedByElements(p: seq<PcrSlot>, q: seq<PcrSlot>)
    requires StrictlyAscending(p) && StrictlyAscending(q)
    requires forall s :: s in p <==> s in q
    ensures p == q
  {
    assert q != [] ==> q[0] in p;
    if p != [] {
      assert p[0] in q;
      AscendingHeadLeast(q, p[0]);
      AscendingHeadLeast(p, q[0]);
      forall s
        ensures s in p[1..] <==> s in q[1..]
      {
        if s in p {
          AscendingHeadLeast(p, s);
          AscendingHeadLeast(q, s);
        }
      }
      AscendingDeterminedByElements(p[1..], q[1..]);
      assert p == [p[0]] + p[1..];
      assert q == [q[0]] + q[1..];
    }
  }
}
