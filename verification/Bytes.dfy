/** Octets, device addresses, and the 16-bit helpers of HCI_Commands.h (MAKE16OFXY,
    LSBYTEOF16BIT, MSBYTEOF16BIT). */
module Bytes {
  type byte = b: int | 0 <= b < 256

  type uint16 = n: int | 0 <= n < 0x10000

  type Mac = m: seq<byte> | |m| == 6 witness [0, 0, 0, 0, 0, 0]

  function Make16(high: byte, low: byte): uint16 { 256 * high + low }

  function Low(n: uint16): byte { n % 256 }

  function High(n: uint16): byte { n / 256 }

  /** A uint8_t after `++`. */
  function Increment(b: byte): byte { if b == 255 then 0 else b + 1 }
}
