/** Little-endian packing of a 32-bit word into the four-byte `pcrSelect` array
    (`u32::to_le_bytes` and `u32::from_le_bytes`). */
module LeBytes {

  /** A `[u8; TPM2_PCR_SELECT_MAX]` array: the `pcrSelect` array of TPMS_PCR_SELECT,
      whose length TPM2_PCR_SELECT_MAX is 4. */
  type Bytes4 = b: seq<bv8> | |b| == 4 witness [0, 0, 0, 0]

  /** `u32::from_le_bytes`: byte k holds bits 8k .. 8k+7 of the word. */
  function FromLeBytes(b: Bytes4): (x: bv32)
    ensures (x & 0xFF) as bv8 == b[0]
    ensures ((x >> 8) & 0xFF) as bv8 == b[1]
    ensures ((x >> 16) & 0xFF) as bv8 == b[2]
    ensures (x >> 24) as bv8 == b[3]
    ensures x < 0x0100_0000 <==> b[3] == 0
  {
    (b[0] as bv32) | ((b[1] as bv32) << 8) | ((b[2] as bv32) << 16) | ((b[3] as bv32) << 24)
  }

  /** `u32::to_le_bytes`: the inverse of FromLeBytes. */
  function ToLeBytes(x: bv32): (b: Bytes4)
    ensures FromLeBytes(b) == x
  {
    [(x & 0xFF) as bv8, ((x >> 8) & 0xFF) as bv8, ((x >> 16) & 0xFF) as bv8, (x >> 24) as bv8]
  }

  /** Decoding then re-encoding reproduces the bytes. */
  lemma LeBytesRoundTrip(b: Bytes4)
    ensures ToLeBytes(FromLeBytes(b)) == b
  {
    var x := FromLeBytes(b);
    var r := ToLeBytes(x);
    assert r[0] == b[0] && r[1] == b[1] && r[2] == b[2] && r[3] == b[3];
  }
}
