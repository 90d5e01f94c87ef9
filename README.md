# PCR selection codec of tss-esapi, in Dafny

This project models the conversions between a PCR selection as the `tss-esapi` crate
represents it and the `TPMS_PCR_SELECT` structure of the TPM 2.0 Software Stack. It also
proves properties of those conversions. The modelled code is
`tss-esapi/src/structures/pcr/select.rs`.

- `PcrSlot` is one of the 24 PCR slots. Slot i carries the `#[repr(u32)]` discriminant
  2^i. It converts to and from a `u32` and a little-endian `[u8; 4]`. Parsing one slot is
  strict: the value must be exactly one bit, and that bit must be a defined slot. Every
  failure is `InvalidParam`.
- `PcrSelectSize` is one of the bitmap sizes 1 to 4. Its default is 3.
- `PcrSelect` pairs a size with a `BitFlags<PcrSlot>` set of slots.
  - `new` builds the set from a list of slots.
  - `selected_pcrs` lists the set in ascending order.
  - Converting from `TPMS_PCR_SELECT` checks the size octet first (`InvalidParam`). It
    then reads the bitmap as a little-endian `u32` and refuses any bit above the 24 slots
    (`UnsupportedParam`).
  - Converting to `TPMS_PCR_SELECT` always succeeds.

Modules, one per file:

- `Wrappers` (`wrappers.dfy`): `Option`, `Result` and the two error kinds.
- `LeBytes` (`le_bytes.dfy`): `u32::from_le_bytes` and `u32::to_le_bytes` over the
  four-byte `pcrSelect` array.
- `PcrSlots` (`pcr_slot.dfy`): the slots, their discriminants, and ascending slot
  lists.
- `SlotBitFlags` (`slot_flags.dfy`): `BitFlags<PcrSlot>` as a 32-bit mask without
  undefined bits.
  - `BitFlags::try_from(u32)`, `collect` and `iter`.
  - Membership facts stated one slot at a time.
- `PcrSlotConversions` (`pcr_slot_conversions.dfy`): `PcrSlot` to and from `u32` and
  `[u8; 4]`.
- `PcrSelectSizes` (`pcr_select_size.dfy`): `PcrSelectSize`.
- `PcrSelects` (`pcr_select.dfy`): `PcrSelect` and its two `TPMS_PCR_SELECT`
  conversions.

A slot is represented by the position of its bit (0 to 23). `PcrSlots.Bits` gives its
discriminant, written out as the enumeration declares it. `PcrSlots.BitsIsBitPosition`
proves that slot i is `1 << i`. The derived order of `PcrSlot` compares discriminants, and
a higher position is a larger power of two. So "ascending" means ascending positions.

The size octet is parsed first and returns early (`select.rs:151-159`). So an invalid
size gives `InvalidParam` even when the bitmap also has a bit above bit 23.
`PcrSelects.TryFromTpms` states this.

## Model

| member | source | states |
|---|---|---|
| PcrSlots.Bits | tss-esapi/src/structures/pcr/select.rs:24-55 | `From<PcrSlot> for u32`: the slot's declared discriminant; see `BitsIsBitPosition`, `BitsSingle`, `BitsDefined` and `DistinctSlotsDistinctBits` |
| PcrSlots.BitsIsBitPosition | tss-esapi/src/structures/pcr/select.rs:24-49 | slot i's discriminant is `1 << i`: the declared table is the powers of two in order |
| PcrSlots.BitsSingle | tss-esapi/src/structures/pcr/select.rs:24-49 | every slot's discriminant has exactly one bit set |
| PcrSlots.BitsDefined | tss-esapi/src/structures/pcr/select.rs:24-49 | every discriminant lies in the low 24 bits |
| PcrSlots.DistinctSlotsDistinctBits | tss-esapi/src/structures/pcr/select.rs:24-49 | two slots share a bit if and only if they are the same slot |
| PcrSlots.AscendingDeterminedByElements | tss-esapi/src/structures/pcr/select.rs:141-143 | two strictly ascending slot lists with the same members are equal, so the sorted, repeat-free listing is unique |
| SlotBitFlags.FlagsFromBits | tss-esapi/src/structures/pcr/select.rs:61-65 | `BitFlags::try_from` accepts a `u32` if and only if it is below 2^24, and keeps all its bits |
| SlotBitFlags.ContainsAdded | tss-esapi/src/structures/pcr/select.rs:131 | adding a slot's flag to a mask adds exactly that slot to the members |
| SlotBitFlags.Collect | tss-esapi/src/structures/pcr/select.rs:131 | `collect()` into `BitFlags`: the union of the listed slots' bits; see `CollectMembers` |
| SlotBitFlags.CollectMembers | tss-esapi/src/structures/pcr/select.rs:128-133 | the set collected from a list holds a slot if and only if the list holds it |
| SlotBitFlags.IterFrom | tss-esapi/src/structures/pcr/select.rs:141-143 | the listing from a position on is strictly ascending and starts at or above that position |
| SlotBitFlags.IterFromMembers | tss-esapi/src/structures/pcr/select.rs:141-143 | the listing from a position on holds exactly the members at or above it |
| SlotBitFlags.Iter | tss-esapi/src/structures/pcr/select.rs:67-76 | `iter` lists members in strictly ascending order, hence without repeats |
| SlotBitFlags.IterMembers | tss-esapi/src/structures/pcr/select.rs:67-76 | `iter` lists a slot if and only if it is a member |
| SlotBitFlags.FlagsExtensional | tss-esapi/src/structures/pcr/select.rs:123 | two sets of flags with the same members are the same mask |
| SlotBitFlags.IterInjective | tss-esapi/src/structures/pcr/select.rs:141-143 | different sets of flags give different listings |
| SlotBitFlags.IterSingle | tss-esapi/src/structures/pcr/select.rs:67-77 | the flags of one slot list exactly that slot |
| SlotBitFlags.IterOneSlot | tss-esapi/src/structures/pcr/select.rs:67-77 | flags that list exactly one slot are that slot's flag |
| SlotBitFlags.IterEmpty | tss-esapi/src/structures/pcr/select.rs:67-74 | the listing is empty if and only if the mask is 0 |
| SlotBitFlags.CollectIter | tss-esapi/src/structures/pcr/select.rs:128-143 | collecting the listed slots gives back the same set of flags |
| SlotBitFlags.IterCollect | tss-esapi/src/structures/pcr/select.rs:128-143 | listing the set collected from some slots gives them sorted with repeats removed |
| PcrSlotConversions.TryFromU32 | tss-esapi/src/structures/pcr/select.rs:57-85 | `TryFrom<u32> for PcrSlot`: every refusal is `InvalidParam`; see `TryFromU32Spec` for when it succeeds and with what |
| PcrSlotConversions.TryFromU32Spec | tss-esapi/src/structures/pcr/select.rs:57-85 | a `u32` converts to a slot if and only if it is a single bit below bit 24; the slot's discriminant is then that value; every refusal is `InvalidParam` |
| PcrSlotConversions.TryFromU32Sound | tss-esapi/src/structures/pcr/select.rs:57-85 | a converted value is the discriminant of the slot it gives |
| PcrSlotConversions.TryFromU32Complete | tss-esapi/src/structures/pcr/select.rs:57-85 | every single bit below bit 24 converts |
| PcrSlotConversions.TryFromU32Bits | tss-esapi/src/structures/pcr/select.rs:51-84 | `try_from(u32::from(s)) == Ok(s)` for every slot |
| PcrSlotConversions.TryFromU32Zero | tss-esapi/src/structures/pcr/select.rs:69-74 | 0 has no first element and is refused with `InvalidParam` |
| PcrSlotConversions.TryFromU32TwoSlots | tss-esapi/src/structures/pcr/select.rs:75-81 | a defined mask holding two different slots is refused with `InvalidParam` |
| PcrSlotConversions.ToBytes | tss-esapi/src/structures/pcr/select.rs:87-91 | the bytes are the little-endian encoding of the discriminant; the fourth byte is 0 |
| PcrSlotConversions.TryFromBytes | tss-esapi/src/structures/pcr/select.rs:93-99 | `TryFrom<[u8; 4]> for PcrSlot`: a success has a zero fourth byte, every refusal is `InvalidParam`; see `TryFromBytesToBytes` and `ToBytesTryFromBytes` |
| PcrSlotConversions.TryFromBytesToBytes | tss-esapi/src/structures/pcr/select.rs:87-99 | `try_from(<[u8; 4]>::from(s)) == Ok(s)` for every slot |
| PcrSlotConversions.ToBytesTryFromBytes | tss-esapi/src/structures/pcr/select.rs:93-99 | bytes that convert to a slot are exactly that slot's bytes |
| LeBytes.FromLeBytes | tss-esapi/src/structures/pcr/select.rs:97 | byte k gives bits 8k to 8k+7; the word is below 2^24 if and only if the fourth byte is 0 |
| LeBytes.ToLeBytes | tss-esapi/src/structures/pcr/select.rs:89 | `from_le_bytes(to_le_bytes(x)) == x` |
| LeBytes.LeBytesRoundTrip | tss-esapi/src/structures/pcr/select.rs:161-162 | `to_le_bytes(from_le_bytes(b)) == b` for every four bytes |
| PcrSelectSizes.PcrSelectSize.ToU8 | tss-esapi/src/structures/pcr/select.rs:101-109 | every size's discriminant is between 1 and 4 |
| PcrSelectSizes.FromU8 | tss-esapi/src/structures/pcr/select.rs:101-109 | `from_u8(n)` gives a size if and only if n is 1 to 4, and that size has discriminant n |
| PcrSelectSizes.FromU8ToU8 | tss-esapi/src/structures/pcr/select.rs:101-109 | `from_u8(size.to_u8()) == Some(size)` for every size |
| PcrSelectSizes.Default | tss-esapi/src/structures/pcr/select.rs:111-118 | the default size has discriminant 3 |
| PcrSelects.PcrSelect.SelectedPcrs | tss-esapi/src/structures/pcr/select.rs:140-143 | `selected_pcrs` is strictly ascending |
| PcrSelects.SelectedPcrsMembers | tss-esapi/src/structures/pcr/select.rs:140-143 | `selected_pcrs` lists exactly the selected slots |
| PcrSelects.New | tss-esapi/src/structures/pcr/select.rs:127-133 | `PcrSelect::new`: the given size with the set of the listed slots; see `NewMembers` and `NewSelectedPcrs` |
| PcrSelects.NewMembers | tss-esapi/src/structures/pcr/select.rs:127-133 | `new` keeps the size and selects exactly the listed slots |
| PcrSelects.NewSelectedPcrs | tss-esapi/src/structures/pcr/select.rs:127-143 | `new(size, slots).selected_pcrs()` is the slots sorted with repeats removed |
| PcrSelects.NewFromSelectedPcrs | tss-esapi/src/structures/pcr/select.rs:127-143 | `new(x.size_of_select(), &x.selected_pcrs()) == x` |
| PcrSelects.TryFromTpms | tss-esapi/src/structures/pcr/select.rs:146-170 | `InvalidParam` if and only if the size octet is not 1 to 4; `UnsupportedParam` if and only if the size is valid and the bitmap has a bit above 23; otherwise success with that size and exactly the bitmap's bits |
| PcrSelects.ToTpms | tss-esapi/src/structures/pcr/select.rs:172-179 | total; the size octet is 1 to 4; the bitmap's fourth octet is 0; the bitmap reads back as the selection |
| PcrSelects.TryFromToTpms | tss-esapi/src/structures/pcr/select.rs:146-179 | converting a selection to `TPMS_PCR_SELECT` and back gives the selection |
| PcrSelects.ToTryFromTpms | tss-esapi/src/structures/pcr/select.rs:146-179 | a `TPMS_PCR_SELECT` that converts is given back unchanged by the reverse conversion |
| PcrSelects.EmptyBitmapAccepted | tss-esapi/src/structures/pcr/select.rs:160-167 | an all-zero bitmap under a valid size is accepted as the empty selection |
| PcrSelects.SelectSlot0Example | tss-esapi/src/structures/pcr/select.rs:127-179 | PCR 0 with the default size is written as size 3 and bitmap 01 00 00 00, and reads back |
| PcrSelects.SizeNotCheckedAgainstBitmap | tss-esapi/src/structures/pcr/select.rs:149-168 | size 1 with PCR 16 selected is accepted; the size octet is not checked against the bitmap |

## Left out

- Logging through `error!` is not modelled. It has no effect on results.
- `Error` is modelled only by its `WrapperErrorKind` (`InvalidParam` or `UnsupportedParam`).
  The error value that `BitFlags::try_from` produces and then discards is not modelled.
- The FFI types of `crate::tss2_esys` are not part of this model. `TPMS_PCR_SELECT` is a
  record of one octet and four octets, because `TPM2_PCR_SELECT_MAX` is 4.
- The internals of `enumflags2` are not part of this model. `BitFlags<PcrSlot>` is a 32-bit
  mask with no bit above bit 23. `iter` lists its slots in ascending bit order, and
  `collect` is the union of the slots' bits.
- The internals of `num_traits` are not part of this model. `from_u8` and `to_u8` are the
  declared discriminants. `to_u8().unwrap()` in the conversion to `TPMS_PCR_SELECT` cannot
  fail and is modelled as total.
- `size_of_select()` is the datatype field `sizeOfSelect`. It has no separate function.
- The derived `Hash`, `Debug`, `Clone` and `Copy` implementations are not modelled. The
  derived order of `PcrSlot` is modelled only as the order of slot positions, which
  `selected_pcrs` follows.
- The iterator in `TryFrom<u32>` is modelled as a whole list. The conversion looks at
  its length: no element, one element, or more.
