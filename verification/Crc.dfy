/** CRC-32 of IEEE 802.3, section 3.2.9, in its reflected form. */
module Crc {
  import opened Bytes

  function ShiftBit(c: bv32): bv32 {
    if c & 1 == 1 then (c >> 1) ^ 0xEDB8_8320 else c >> 1
  }

  function ShiftByte(c: bv32): bv32 {
    ShiftBit(ShiftBit(ShiftBit(ShiftBit(ShiftBit(ShiftBit(ShiftBit(ShiftBit(c))))))))
  }

  function Step(c: bv32, b: byte): bv32 {
    ShiftByte(c ^ (b as bv32))
  }

  function Register(c: bv32, data: bytes): bv32
    decreases data
  {
    if data == [] then c else Register(Step(c, data[0]), data[1..])
  }

  function Crc32(data: bytes): u32 {
    (Register(0xFFFF_FFFF, data) ^ 0xFFFF_FFFF) as u32
  }

  // ---- The check value ----

  /** Each register of the trace follows from the one before by a byte of the data. */
  ghost predicate Traces<T(!new)>(f: (T, byte) -> T, trace: seq<T>, data: bytes) {
    |trace| == |data| + 1 && forall i :: 0 <= i < |data| ==> f(trace[i], data[i]) == trace[i + 1]
  }

  function Fold<T>(f: (T, byte) -> T, c: T, data: bytes): T
    decreases data
  {
    if data == [] then c else Fold(f, f(c, data[0]), data[1..])
  }

  lemma {:induction false} TraceEnds<T(!new)>(f: (T, byte) -> T, trace: seq<T>, data: bytes)
    requires Traces(f, trace, data)
    ensures Fold(f, trace[0], data) == trace[|data|]
    decreases data
  {
    if data != [] {
      assert forall i :: 0 <= i < |data| - 1 ==> data[1..][i] == data[i + 1] && trace[1..][i] == trace[i + 1];
      TraceEnds(f, trace[1..], data[1..]);
    }
  }

  lemma {:induction false} RegisterFolds(c: bv32, data: bytes)
    ensures Register(c, data) == Fold(Step, c, data)
    decreases data
  {
    if data != [] {
      RegisterFolds(Step(c, data[0]), data[1..]);
    }
  }

  lemma FirstDigits()
    ensures Step(0xFFFF_FFFF, 0x31) == 0x7C23_1048 && Step(0x7C23_1048, 0x32) == 0xB0AC_BB32
    ensures Step(0xB0AC_BB32, 0x33) == 0x77B7_9C2D
  {
  }

  lemma MiddleDigits()
    ensures Step(0x77B7_9C2D, 0x34) == 0x641C_1F5C && Step(0x641C_1F5C, 0x35) == 0x340A_C5E3
    ensures Step(0x340A_C5E3, 0x36) == 0xF68D_2C9E
  {
  }

  lemma LastDigits()
    ensures Step(0xF68D_2C9E, 0x37) == 0xAFFC_9660 && Step(0xAFFC_9660, 0x38) == 0x651F_2550
    ensures Step(0x651F_2550, 0x39) == 0x340B_C6D9
  {
  }

  const Digits: bytes := [0x31, 0x32, 0x33, 0x34, 0x35, 0x36, 0x37, 0x38, 0x39]

  const Trace: seq<bv32> := [0xFFFF_FFFF, 0x7C23_1048, 0xB0AC_BB32, 0x77B7_9C2D, 0x641C_1F5C, 0x340A_C5E3,
                             0xF68D_2C9E, 0xAFFC_9660, 0x651F_2550, 0x340B_C6D9]

  lemma DigitsTrace(f: (bv32, byte) -> bv32)
    requires f(0xFFFF_FFFF, 0x31) == 0x7C23_1048 && f(0x7C23_1048, 0x32) == 0xB0AC_BB32
    requires f(0xB0AC_BB32, 0x33) == 0x77B7_9C2D && f(0x77B7_9C2D, 0x34) == 0x641C_1F5C
    requires f(0x641C_1F5C, 0x35) == 0x340A_C5E3 && f(0x340A_C5E3, 0x36) == 0xF68D_2C9E
    requires f(0xF68D_2C9E, 0x37) == 0xAFFC_9660 && f(0xAFFC_9660, 0x38) == 0x651F_2550
    requires f(0x651F_2550, 0x39) == 0x340B_C6D9
    ensures Fold(f, 0xFFFF_FFFF, Digits) == 0x340B_C6D9
  {
    TraceEnds(f, Trace, Digits);
  }

  /** The published check value, of the digits from 1 to 9. */
  lemma CheckValue()
    ensures Crc32(Digits) == 0xCBF4_3926
  {
    FirstDigits();
    MiddleDigits();
    LastDigits();
    DigitsTrace(Step);
    RegisterFolds(0xFFFF_FFFF, Digits);
  }
}
