/** Fixed-width integer types of the C and SDL interfaces the OTG window
    talks to, and the Option wrapper used for results that may be absent. */
module Types {

  newtype int16 = x: int | -0x8000 <= x < 0x8000
  newtype uint8 = x: int | 0 <= x < 0x100
  newtype uint16 = x: int | 0 <= x < 0x1_0000
  newtype int32 = x: int | -0x8000_0000 <= x < 0x8000_0000
  newtype uint32 = x: int | 0 <= x < 0x1_0000_0000

  datatype Option<+T> = None | Some(value: T)
}
