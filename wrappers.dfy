/** Failure-carrying values shared by the conversions of the PCR selection codec. */
module Wrappers {

  /** A value that may be absent, as returned by the numeric conversions `from_u8`
      and by `BitFlags::try_from`. */
  datatype Option<T> = None | Some(value: T)

  /** The two kinds of wrapper error the conversions report. */
  datatype WrapperErrorKind = InvalidParam | UnsupportedParam

  /** The outcome of a fallible conversion: the converted value, or the kind of error. */
  datatype Result<T> = Ok(value: T) | Err(error: WrapperErrorKind)
}
