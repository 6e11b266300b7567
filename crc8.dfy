/**
 * The CRC-8 engine of the MXW01 protocol (main.go, calculateCRC8).
 *
 * The checksum is table driven: the register starts at 0 and every payload byte
 * `b` replaces it by `table[crc ^ b]`.  The table is copied entry by entry
 * from the driver, one row of eight per line; it is the table of the MSB-first
 * CRC-8 with polynomial 0x07 (the SMBus PEC checksum).
 */
module Crc {

  /** Entry `col` (below 8) of a row of eight. */
  function Pick(col: bv8, a0: bv8, a1: bv8, a2: bv8, a3: bv8, a4: bv8, a5: bv8, a6: bv8, a7: bv8): bv8 {
    if col == 0 then a0 else if col == 1 then a1 else if col == 2 then a2 else if col == 3 then a3
    else if col == 4 then a4 else if col == 5 then a5 else if col == 6 then a6 else a7
  }

  /**
   * The 256-entry lookup table of calculateCRC8, in the driver's order, eight
   * entries per row: entry `i` is in row `i >> 3`, column `i & 7`.
   */
  function TableEntry(i: bv8): bv8 {
    var row, col := i >> 3, i & 7;
    if row == 0x00 then Pick(col, 0x00, 0x07, 0x0e, 0x09, 0x1c, 0x1b, 0x12, 0x15)
    else if row == 0x01 then Pick(col, 0x38, 0x3f, 0x36, 0x31, 0x24, 0x23, 0x2a, 0x2d)
    else if row == 0x02 then Pick(col, 0x70, 0x77, 0x7e, 0x79, 0x6c, 0x6b, 0x62, 0x65)
    else if row == 0x03 then Pick(col, 0x48, 0x4f, 0x46, 0x41, 0x54, 0x53, 0x5a, 0x5d)
    else if row == 0x04 then Pick(col, 0xe0, 0xe7, 0xee, 0xe9, 0xfc, 0xfb, 0xf2, 0xf5)
    else if row == 0x05 then Pick(col, 0xd8, 0xdf, 0xd6, 0xd1, 0xc4, 0xc3, 0xca, 0xcd)
    else if row == 0x06 then Pick(col, 0x90, 0x97, 0x9e, 0x99, 0x8c, 0x8b, 0x82, 0x85)
    else if row == 0x07 then Pick(col, 0xa8, 0xaf, 0xa6, 0xa1, 0xb4, 0xb3, 0xba, 0xbd)
    else if row == 0x08 then Pick(col, 0xc7, 0xc0, 0xc9, 0xce, 0xdb, 0xdc, 0xd5, 0xd2)
    else if row == 0x09 then Pick(col, 0xff, 0xf8, 0xf1, 0xf6, 0xe3, 0xe4, 0xed, 0xea)
    else if row == 0x0a then Pick(col, 0xb7, 0xb0, 0xb9, 0xbe, 0xab, 0xac, 0xa5, 0xa2)
    else if row == 0x0b then Pick(col, 0x8f, 0x88, 0x81, 0x86, 0x93, 0x94, 0x9d, 0x9a)
    else if row == 0x0c then Pick(col, 0x27, 0x20, 0x29, 0x2e, 0x3b, 0x3c, 0x35, 0x32)
    else if row == 0x0d then Pick(col, 0x1f, 0x18, 0x11, 0x16, 0x03, 0x04, 0x0d, 0x0a)
    else if row == 0x0e then Pick(col, 0x57, 0x50, 0x59, 0x5e, 0x4b, 0x4c, 0x45, 0x42)
    else if row == 0x0f then Pick(col, 0x6f, 0x68, 0x61, 0x66, 0x73, 0x74, 0x7d, 0x7a)
    else if row == 0x10 then Pick(col, 0x89, 0x8e, 0x87, 0x80, 0x95, 0x92, 0x9b, 0x9c)
    else if row == 0x11 then Pick(col, 0xb1, 0xb6, 0xbf, 0xb8, 0xad, 0xaa, 0xa3, 0xa4)
    else if row == 0x12 then Pick(col, 0xf9, 0xfe, 0xf7, 0xf0, 0xe5, 0xe2, 0xeb, 0xec)
    else if row == 0x13 then Pick(col, 0xc1, 0xc6, 0xcf, 0xc8, 0xdd, 0xda, 0xd3, 0xd4)
    else if row == 0x14 then Pick(col, 0x69, 0x6e, 0x67, 0x60, 0x75, 0x72, 0x7b, 0x7c)
    else if row == 0x15 then Pick(col, 0x51, 0x56, 0x5f, 0x58, 0x4d, 0x4a, 0x43, 0x44)
    else if row == 0x16 then Pick(col, 0x19, 0x1e, 0x17, 0x10, 0x05, 0x02, 0x0b, 0x0c)
    else if row == 0x17 then Pick(col, 0x21, 0x26, 0x2f, 0x28, 0x3d, 0x3a, 0x33, 0x34)
    else if row == 0x18 then Pick(col, 0x4e, 0x49, 0x40, 0x47, 0x52, 0x55, 0x5c, 0x5b)
    else if row == 0x19 then Pick(col, 0x76, 0x71, 0x78, 0x7f, 0x6a, 0x6d, 0x64, 0x63)
    else if row == 0x1a then Pick(col, 0x3e, 0x39, 0x30, 0x37, 0x22, 0x25, 0x2c, 0x2b)
    else if row == 0x1b then Pick(col, 0x06, 0x01, 0x08, 0x0f, 0x1a, 0x1d, 0x14, 0x13)
    else if row == 0x1c then Pick(col, 0xae, 0xa9, 0xa0, 0xa7, 0xb2, 0xb5, 0xbc, 0xbb)
    else if row == 0x1d then Pick(col, 0x96, 0x91, 0x98, 0x9f, 0x8a, 0x8d, 0x84, 0x83)
    else if row == 0x1e then Pick(col, 0xde, 0xd9, 0xd0, 0xd7, 0xc2, 0xc5, 0xcc, 0xcb)
    else Pick(col, 0xe6, 0xe1, 0xe8, 0xef, 0xfa, 0xfd, 0xf4, 0xf3)
  }

  /** One table-driven step: the register `crc` absorbs the byte `b`. */
  function TableStep(crc: bv8, b: bv8): bv8 {
    TableEntry(crc ^ b)
  }

  /** The register after feeding `data` to a register that holds `crc`. */
  function CrcFrom(crc: bv8, data: seq<bv8>): bv8
    decreases |data|
  {
    if data == [] then crc else CrcFrom(TableStep(crc, data[0]), data[1..])
  }

  /** The checksum of a payload: the register starts at zero. */
  function Crc8(data: seq<bv8>): bv8 {
    CrcFrom(0, data)
  }

  /** calculateCRC8: the table-driven loop over the payload. */
  method CalculateCrc8(data: seq<bv8>) returns (crc: bv8)
    ensures crc == Crc8(data)
  {
    crc := 0;
    for i := 0 to |data|
      invariant CrcFrom(crc, data[i..]) == Crc8(data)
    {
      assert data[i..] == [data[i]] + data[i + 1..];
      crc := TableStep(crc, data[i]);
    }
    assert data[|data|..] == [];
  }

  /** Feeding `a` then `b` is feeding `a + b`: the checksum is a left fold. */
  lemma {:induction false} CrcFromConcat(crc: bv8, a: seq<bv8>, b: seq<bv8>)
    ensures CrcFrom(crc, a + b) == CrcFrom(CrcFrom(crc, a), b)
    decreases |a|
  {
    if a != [] {
      assert (a + b)[1..] == a[1..] + b;
      CrcFromConcat(TableStep(crc, a[0]), a[1..], b);
    } else {
      assert a + b == b;
    }
  }

  /** The empty payload has checksum 0, and one more byte costs one table step. */
  lemma {:induction false} Crc8Snoc(d: seq<bv8>, b: bv8)
    ensures Crc8([]) == 0
    ensures Crc8(d + [b]) == TableStep(Crc8(d), b)
  {
    CrcFromConcat(0, d, [b]);
    assert [b][1..] == [];
  }

  /** One step of the bitwise MSB-first CRC-8 with polynomial 0x07. */
  function PolyStep(c: bv8): bv8 {
    if c & 0x80 != 0 then (c << 1) ^ 0x07 else c << 1
  }

  /** The bitwise CRC-8 (polynomial 0x07) of the single byte `x`. */
  function BitwiseEntry(x: bv8): bv8 {
    PolyStep(PolyStep(PolyStep(PolyStep(PolyStep(PolyStep(PolyStep(PolyStep(x))))))))
  }

  // Sample entries of the table agree with the bitwise polynomial-0x07 CRC.

  /** The one-byte payload `[0x00]` of the query commands has checksum 0x00. */
  lemma ZeroPayloadChecksum()
    ensures Crc8([0x00]) == BitwiseEntry(0) == 0x00
  {
    var p: seq<bv8> := [0x00];
    assert Crc8(p) == CrcFrom(TableStep(0, 0), []) by {
      assert p[1..] == [];
    }
  }

  lemma TableEntry1()
    ensures TableEntry(1) == BitwiseEntry(1) == 0x07
  {
  }

  lemma TableEntry64()
    ensures TableEntry(64) == BitwiseEntry(64) == 0xc7
  {
  }

  lemma TableEntry128()
    ensures TableEntry(128) == BitwiseEntry(128) == 0x89
  {
  }
}
