/** Conversions between a PCR slot and its 32-bit and four-byte representations. */
module PcrSlotConversions {
  import opened Wrappers
  import opened LeBytes
  import opened PcrSlots
  import opened SlotBitFlags

  /** `TryFrom<u32> for PcrSlot`: the value must be a set of defined slots, and that set
      must list exactly one slot; every failure is `InvalidParam`. */
  function TryFromU32(v: bv32): (r: Result<PcrSlot>)
    ensures r.Err? ==> r.error == InvalidParam
  {
    match FlagsFromBits(v)
    case None => Err(InvalidParam)
    case Some(flags) =>
      var slots := Iter(flags);
      if |slots| == 0 then Err(InvalidParam)
      else if |slots| == 1 then Ok(slots[0])
      else Err(InvalidParam)
  }

  /** Converting a slot to `u32` and back gives the slot. */
  lemma TryFromU32Bits(s: PcrSlot)
    ensures TryFromU32(Bits(s)) == Ok(s)
  {
    BitsDefined(s);
    FlagsFromDefinedBits(Bits(s));
    IterSingle(s);
  }

  /** A value that converts is the discriminant of the slot it converts to. */
  lemma TryFromU32Sound(v: bv32)
    requires TryFromU32(v).Ok?
    ensures Bits(TryFromU32(v).value) == v
  {
    var flags := FlagsFromBits(v).value;
    IterOneSlot(flags);
  }

  /** Every single bit below bit 24 converts. */
  lemma TryFromU32Complete(v: bv32)
    requires IsSingleBit(v) && v < 0x0100_0000
    ensures TryFromU32(v).Ok?
  {
    var flags: SlotFlags := v;
    IterEmpty(flags);
    var s := Iter(flags)[0];
    IterMembers(flags, s);
    SingleBitIsSlot(flags, s);
    IterSingle(s);
  }

  /** A value converts exactly when it is a single bit below bit 24, and then it is the
      discriminant of the slot it converts to; a value that does not convert is
      refused with `InvalidParam`. */
  lemma TryFromU32Spec(v: bv32)
    ensures TryFromU32(v).Ok? <==> IsSingleBit(v) && v < 0x0100_0000
    ensures TryFromU32(v).Ok? ==> Bits(TryFromU32(v).value) == v
    ensures TryFromU32(v).Err? ==> TryFromU32(v).error == InvalidParam
  {
    if TryFromU32(v).Ok? {
      TryFromU32Sound(v);
      BitsSingle(TryFromU32(v).value);
      BitsDefined(TryFromU32(v).value);
    } else if IsSingleBit(v) && v < 0x0100_0000 {
      TryFromU32Complete(v);
    }
  }

  /** The value 0 names no slot. */
  lemma TryFromU32Zero()
    ensures TryFromU32(0) == Err(InvalidParam)
  {
    IterEmpty(0);
  }

  /** A value that holds the bits of two different slots names no single slot. */
  lemma TryFromU32TwoSlots(v: bv32, s: PcrSlot, t: PcrSlot)
    requires v < 0x0100_0000 && s != t && Contains(v, s) && Contains(v, t)
    ensures TryFromU32(v) == Err(InvalidParam)
  {
    var slots := Iter(v);
    IterMembers(v, s);
    IterMembers(v, t);
    var i :| 0 <= i < |slots| && slots[i] == s;
    var j :| 0 <= j < |slots| && slots[j] == t;
    assert i != j;
    assert |slots| >= 2;
  }

  /** `From<PcrSlot> for [u8; 4]`: the discriminant in little-endian byte order. */
  function ToBytes(s: PcrSlot): (b: Bytes4)
    ensures FromLeBytes(b) == Bits(s)
    ensures b[3] == 0
  {
    BitsDefined(s);
    ToLeBytes(Bits(s))
  }

  /** `TryFrom<[u8; 4]> for PcrSlot`: the bytes read as a little-endian `u32`, then
      converted as a `u32`. */
  function TryFromBytes(b: Bytes4): (r: Result<PcrSlot>)
    ensures r.Ok? ==> b[3] == 0
    ensures r.Err? ==> r.error == InvalidParam
  {
    TryFromU32(FromLeBytes(b))
  }

  /** Converting a slot to bytes and back gives the slot. */
  lemma TryFromBytesToBytes(s: PcrSlot)
    ensures TryFromBytes(ToBytes(s)) == Ok(s)
  {
    TryFromU32Bits(s);
  }

  /** Bytes that convert to a slot are exactly that slot's bytes. */
  lemma ToBytesTryFromBytes(b: Bytes4)
    requires TryFromBytes(b).Ok?
    ensures ToBytes(TryFromBytes(b).value) == b
  {
    TryFromU32Spec(FromLeBytes(b));
    LeBytesRoundTrip(b);
  }
}
