/** `PcrSelect`: a PCR selection, and its conversions to and from `TPMS_PCR_SELECT`. */
module PcrSelects {
  import opened Wrappers
  import opened LeBytes
  import opened PcrSlots
  import opened SlotBitFlags
  import opened PcrSelectSizes

  /** `TPMS_PCR_SELECT` as the TSS defines it: a size octet and a four-octet bitmap. */
  datatype TpmsPcrSelect = TpmsPcrSelect(sizeofSelect: bv8, pcrSelect: Bytes4)

  /** A selection: the declared size of its bitmap and the set of selected slots. */
  datatype PcrSelect = PcrSelect(sizeOfSelect: PcrSelectSize, selection: SlotFlags)
  {
    /** `selected_pcrs`: the selected slots in ascending order, each once. */
    function SelectedPcrs(): (r: seq<PcrSlot>)
      ensures StrictlyAscending(r)
    {
      Iter(selection)
    }
  }

  /** `selected_pcrs` lists exactly the selected slots. */
  lemma SelectedPcrsMembers(x: PcrSelect, s: PcrSlot)
    ensures s in x.SelectedPcrs() <==> Contains(x.selection, s)
  {
    IterMembers(x.selection, s);
  }

  /** `PcrSelect::new`: the given size, and the set of the listed slots. */
  function New(size: PcrSelectSize, slots: seq<PcrSlot>): PcrSelect {
    PcrSelect(size, Collect(slots))
  }

  /** `new` keeps the size and selects exactly the listed slots. */
  lemma NewMembers(size: PcrSelectSize, slots: seq<PcrSlot>, s: PcrSlot)
    ensures New(size, slots).sizeOfSelect == size
    ensures Contains(New(size, slots).selection, s) <==> s in slots
  {
    CollectMembers(slots, s);
  }

  /** `TryFrom<TPMS_PCR_SELECT> for PcrSelect`: the size octet is checked first and an
      unknown size is `InvalidParam`; then the bitmap, read little-endian, must hold no
      bit above the 24 slots, or the result is `UnsupportedParam`. */
  function TryFromTpms(w: TpmsPcrSelect): (r: Result<PcrSelect>)
    ensures r == Err(InvalidParam) <==> !(1 <= w.sizeofSelect <= 4)
    ensures r == Err(UnsupportedParam) <==> 1 <= w.sizeofSelect <= 4 && w.pcrSelect[3] != 0
    ensures r.Ok? <==> 1 <= w.sizeofSelect <= 4 && w.pcrSelect[3] == 0
    ensures r.Ok? ==> r.value.sizeOfSelect.ToU8() == w.sizeofSelect
    ensures r.Ok? ==> r.value.selection == FromLeBytes(w.pcrSelect)
  {
    match FromU8(w.sizeofSelect)
    case None => Err(InvalidParam)
    case Some(size) =>
      match FlagsFromBits(FromLeBytes(w.pcrSelect))
      case None => Err(UnsupportedParam)
      case Some(selection) => Ok(PcrSelect(size, selection))
  }

  /** `From<PcrSelect> for TPMS_PCR_SELECT`: always succeeds; the size octet is one of
      1 to 4 and the bitmap's fourth octet is zero. */
  function ToTpms(x: PcrSelect): (w: TpmsPcrSelect)
    ensures 1 <= w.sizeofSelect <= 4
    ensures w.pcrSelect[3] == 0
    ensures FromLeBytes(w.pcrSelect) == x.selection
  {
    TpmsPcrSelect(x.sizeOfSelect.ToU8(), ToLeBytes(x.selection))
  }

  /** Converting a selection to `TPMS_PCR_SELECT` and back gives the selection. */
  lemma TryFromToTpms(x: PcrSelect)
    ensures TryFromTpms(ToTpms(x)) == Ok(x)
  {
    FromU8ToU8(x.sizeOfSelect);
  }

  /** A `TPMS_PCR_SELECT` that converts is given back unchanged by the reverse conversion. */
  lemma ToTryFromTpms(w: TpmsPcrSelect)
    requires TryFromTpms(w).Ok?
    ensures ToTpms(TryFromTpms(w).value) == w
  {
    LeBytesRoundTrip(w.pcrSelect);
  }

  /** The selection made by `new` lists the given slots in ascending order, repeats removed. */
  lemma NewSelectedPcrs(size: PcrSelectSize, slots: seq<PcrSlot>, sorted: seq<PcrSlot>)
    requires StrictlyAscending(sorted)
    requires forall s :: s in sorted <==> s in slots
    ensures New(size, slots).SelectedPcrs() == sorted
  {
    IterCollect(slots, sorted);
  }

  /** A selection is rebuilt by `new` from its size and its selected slots. */
  lemma NewFromSelectedPcrs(x: PcrSelect)
    ensures New(x.sizeOfSelect, x.SelectedPcrs()) == x
  {
    CollectIter(x.selection);
  }

  /** An all-zero bitmap under a valid size is accepted, as a selection of no slot. */
  lemma EmptyBitmapAccepted(sizeofSelect: bv8)
    requires 1 <= sizeofSelect <= 4
    ensures TryFromTpms(TpmsPcrSelect(sizeofSelect, [0, 0, 0, 0])).Ok?
    ensures TryFromTpms(TpmsPcrSelect(sizeofSelect, [0, 0, 0, 0])).value.SelectedPcrs() == []
  {
    IterEmpty(0);
  }

  /** Selecting PCR 0 with the default size writes size 3 and bitmap 01 00 00 00, which
      converts back to the same selection. */
  lemma SelectSlot0Example()
    ensures ToTpms(New(Default(), [Slot0])) == TpmsPcrSelect(3, [1, 0, 0, 0])
    ensures TryFromTpms(TpmsPcrSelect(3, [1, 0, 0, 0])) == Ok(New(Default(), [Slot0]))
  {
    var x := New(Default(), [Slot0]);
    assert [Slot0][1..] == [];
    assert Collect([]) == 0;
    assert x.selection == 1;
    TryFromToTpms(x);
  }

  /** The size octet is not checked against the bitmap: size 1 with PCR 16 selected
      converts, although one octet cannot hold bit 16. */
  lemma SizeNotCheckedAgainstBitmap()
    ensures TryFromTpms(TpmsPcrSelect(1, [0, 0, 1, 0])).Ok?
    ensures TryFromTpms(TpmsPcrSelect(1, [0, 0, 1, 0])).value.SelectedPcrs() == [Slot16]
  {
    assert FromLeBytes([0, 0, 1, 0]) == Bits(Slot16);
    IterSingle(Slot16);
  }
}
