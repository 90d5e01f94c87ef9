/** `PcrSelectSize`: the number of octets of a PCR selection bitmap. */
module PcrSelectSizes {
  import opened Wrappers

  /** The sizes a selection bitmap may declare. */
  datatype PcrSelectSize = OneByte | TwoBytes | ThreeBytes | FourBytes
  {
    /** `ToPrimitive::to_u8`: the declared discriminant, which is the number of octets. */
    function ToU8(): (n: bv8)
      ensures 1 <= n <= 4
    {
      match this
      case OneByte => 1
      case TwoBytes => 2
      case ThreeBytes => 3
      case FourBytes => 4
    }
  }

  /** `FromPrimitive::from_u8`: the size whose discriminant is `n`, if there is one. */
  function FromU8(n: bv8): (r: Option<PcrSelectSize>)
    ensures r.Some? <==> 1 <= n <= 4
    ensures r.Some? ==> r.value.ToU8() == n
  {
    if n == 1 then Some(OneByte)
    else if n == 2 then Some(TwoBytes)
    else if n == 3 then Some(ThreeBytes)
    else if n == 4 then Some(FourBytes)
    else None
  }

  /** `Default for PcrSelectSize`: three octets, enough for the 24 slots. */
  function Default(): (d: PcrSelectSize)
    ensures d.ToU8() == 3
  {
    ThreeBytes
  }

  /** Reading back the discriminant of a size gives that size. */
  lemma FromU8ToU8(size: PcrSelectSize)
    ensures FromU8(size.ToU8()) == Some(size)
  {
  }
}
