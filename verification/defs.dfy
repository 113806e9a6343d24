/**
 Constants of the SIM800L driver header that its behaviour depends on:
 outcome codes, the capacities of the static command buffers and the
 fixed receive length.
 */
module Defs {

  /** An unsigned 8-bit value, the type of every outcome code and parameter. */
  type uint8 = x: int | 0 <= x < 0x100

  /** C's conversion of an int to `uint8_t`: reduction modulo 256. */
  function ToUint8(x: int): (r: uint8)
    ensures 0 <= x < 0x100 ==> r == x
    ensures (x - r) % 0x100 == 0
  {
    x % 0x100
  }

  function Min(a: int, b: int): (m: int)
    ensures m <= a && m <= b && (m == a || m == b)
  {
    if a <= b then a else b
  }

  /** The range of a 32-bit C `int`. */
  predicate InInt32(x: int) {
    -0x8000_0000 <= x < 0x8000_0000
  }

  // Outcome codes (RESPONSE_ERROR ... LENGTH_OUT_OF_RANGE).
  const ResponseError: uint8 := 0x1
  const ResponseOk: uint8 := 0x2
  const NoResponse: uint8 := 0x4
  const NoSms: uint8 := 0x8
  const IndexOutOfRange: uint8 := 0x10
  const LengthOutOfRange: uint8 := 0x20

  // Capacities of the static command buffers and the response markers.
  const SelectSmsMessageFormat: nat := 9
  const ReadSmsMessage: nat := 12
  const DeleteSmsMessage: nat := 10
  const SendSmsMessage: nat := 10
  const LenCnmiMode: nat := 17
  const LenOkResponse: nat := 6
  const LenErrorResponse: nat := 9
  const LenSignalQuality: nat := 6
  const LenRejectCall: nat := 12
  const PhoneNumberLen: nat := 12

  /** Number of bytes every receive waits for. */
  const BufferSize: nat := 255

  /** x is a power of two: exactly one bit set. */
  predicate SingleBit(x: nat)
    decreases x
  {
    x == 1 || (x >= 2 && x % 2 == 0 && SingleBit(x / 2))
  }

  const OutcomeCodes: seq<uint8> :=
    [ResponseError, ResponseOk, NoResponse, NoSms, IndexOutOfRange, LengthOutOfRange]

  /** The six outcome codes are pairwise distinct single-bit values. */
  lemma OutcomeCodesDistinctBits()
    ensures forall i :: 0 <= i < |OutcomeCodes| ==> SingleBit(OutcomeCodes[i])
    ensures forall i, j :: 0 <= i < j < |OutcomeCodes| ==> OutcomeCodes[i] != OutcomeCodes[j]
  {
    assert SingleBit(1) && SingleBit(2) && SingleBit(4) && SingleBit(8);
    assert SingleBit(0x10) && SingleBit(0x20);
  }
}
