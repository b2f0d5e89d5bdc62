/** Machine-level value types shared by every layer of the EAARL codec. */
module Bytes {
  /** One octet of a buffer (`unsigned char`). */
  type Byte = x: int | 0 <= x < 0x100

  /** `uint16_t` */
  type U16 = x: int | 0 <= x < 0x1_0000

  /** `uint32_t` */
  type U32 = x: int | 0 <= x < 0x1_0000_0000

  /** `int16_t` */
  type I16 = x: int | -0x8000 <= x < 0x8000

  /** `int32_t` */
  type I32 = x: int | -0x8000_0000 <= x < 0x8000_0000

  const UINT16_MAX: int := 0xFFFF
  const UINT24_MAX: int := 0xFF_FFFF

  /** A pointer that may be NULL, when the pointee is modelled as a value. */
  datatype Option<T> = None | Some(value: T)
}
