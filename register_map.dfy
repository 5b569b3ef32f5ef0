/**
 * The accelerator's register file as user space and the kernel driver both see it
 * (TRegs), the wait-type encoding (read_type_t) and the command message that user
 * space sends to the driver (write_message), with its in-memory byte layout.
 */
module RegisterMap {
  import opened Common

  // Word index of each TRegs field; the padding words are the addresses the HLS
  // register file skips.
  const CONTROL: nat := 0
  const GIER: nat := 1
  const IER: nat := 2
  const ISR: nat := 3
  const BIT_SET_REF_1: nat := 4
  const BIT_SET_REF_2: nat := 5
  const PADDING1: nat := 6
  const NSEQT: nat := 7
  const PADDING2: nat := 8
  const LENGTH_REF_1: nat := 9
  const LENGTH_REF_2: nat := 10
  const PADDING3: nat := 11
  const BIT_SET_PAT_1: nat := 12
  const BIT_SET_PAT_2: nat := 13
  const PADDING4: nat := 14
  const NSEQP: nat := 15
  const PADDING5: nat := 16
  const LENGTH_PAT_1: nat := 17
  const LENGTH_PAT_2: nat := 18
  const PADDING6: nat := 19
  const OUTPUT_1: nat := 20
  const OUTPUT_2: nat := 21
  const NUM_REGS: nat := 22

  /** Byte offset of a register word from the start of the register window. */
  function ByteOffset(word: nat): (off: nat)
    ensures off % 4 == 0 && off / 4 == word
  {
    4 * word
  }

  /** The documented byte address of every field of the register file. */
  lemma RegisterOffsets()
    ensures ByteOffset(CONTROL) == 0x00 && ByteOffset(GIER) == 0x04
    ensures ByteOffset(IER) == 0x08 && ByteOffset(ISR) == 0x0C
    ensures ByteOffset(BIT_SET_REF_1) == 0x10 && ByteOffset(BIT_SET_REF_2) == 0x14
    ensures ByteOffset(NSEQT) == 0x1C
    ensures ByteOffset(LENGTH_REF_1) == 0x24 && ByteOffset(LENGTH_REF_2) == 0x28
    ensures ByteOffset(BIT_SET_PAT_1) == 0x30 && ByteOffset(BIT_SET_PAT_2) == 0x34
    ensures ByteOffset(NSEQP) == 0x3C
    ensures ByteOffset(LENGTH_PAT_1) == 0x44 && ByteOffset(LENGTH_PAT_2) == 0x48
    ensures ByteOffset(OUTPUT_1) == 0x50 && ByteOffset(OUTPUT_2) == 0x54
    ensures ByteOffset(NUM_REGS) == 0x58
  {
  }

  // read_type_t
  const INTERRUPT: u32 := 0
  const POLLING: u32 := 1
  const CONTINUE: u32 := 2

  /** `v | 1`: bit 0 raised (ap_start in control, done in isr), every other bit kept. */
  function SetBit0(v: u32): (r: u32)
    ensures r % 2 == 1 && r / 2 == v / 2
  {
    if v % 2 == 1 then v else v + 1
  }

  /** `(status & 2) == 2`: ap_done is set. */
  predicate Done(status: u32) {
    (status / 2) % 2 == 1
  }

  /** The effect of writing 1 to a toggle-on-write register: bit 0 flips, the rest stays. */
  function ToggleBit0(v: u32): (r: u32)
    ensures r % 2 != v % 2 && r / 2 == v / 2
  {
    if v % 2 == 1 then v - 1 else v + 1
  }

  /** The command of one accelerator run, as passed from user space to the driver. */
  datatype WriteMessage = WriteMessage(
    seqT: u64,        // physical address of the target sequences
    seqQ: u64,        // physical address of the query sequences
    nSeqT: u32,       // number of targets
    nSeqQ: u32,       // number of queries
    lengthSeqT: u64,  // physical address of the target lengths
    lengthSeqQ: u64,  // physical address of the query lengths
    minPos: u64,      // physical address of the result array
    waitType: u32)    // read_type_t

  /** One 32-bit register write, in program order. */
  datatype MmioWrite = MmioWrite(reg: nat, value: u32)

  /**
   * The twelve register writes that program one run, in the order both the
   * user-space configuration and the driver's write handler issue them: each
   * address as low word then high word, and the two counts.
   */
  function ProgramWrites(m: WriteMessage): (ws: seq<MmioWrite>)
    ensures |ws| == 12
  {
    TargetWrites(m) + QueryWrites(m)
  }

  /** The first five: the target sequences, their count and their lengths. */
  function TargetWrites(m: WriteMessage): seq<MmioWrite> {
    [ MmioWrite(BIT_SET_REF_1, Lo(m.seqT)), MmioWrite(BIT_SET_REF_2, Hi(m.seqT)),
      MmioWrite(NSEQT, m.nSeqT),
      MmioWrite(LENGTH_REF_1, Lo(m.lengthSeqT)), MmioWrite(LENGTH_REF_2, Hi(m.lengthSeqT)) ]
  }

  /** The last seven: the query sequences, their count, their lengths and the output. */
  function QueryWrites(m: WriteMessage): seq<MmioWrite> {
    [ MmioWrite(BIT_SET_PAT_1, Lo(m.seqQ)), MmioWrite(BIT_SET_PAT_2, Hi(m.seqQ)),
      MmioWrite(NSEQP, m.nSeqQ),
      MmioWrite(LENGTH_PAT_1, Lo(m.lengthSeqQ)), MmioWrite(LENGTH_PAT_2, Hi(m.lengthSeqQ)),
      MmioWrite(OUTPUT_1, Lo(m.minPos)), MmioWrite(OUTPUT_2, Hi(m.minPos)) ]
  }

  /** The register file after those twelve writes. */
  function Programmed(r: seq<u32>, m: WriteMessage): seq<u32>
    requires |r| == NUM_REGS
  {
    ProgrammedQuery(ProgrammedTarget(r, m), m)
  }

  function ProgrammedTarget(r: seq<u32>, m: WriteMessage): (r': seq<u32>)
    requires |r| == NUM_REGS
    ensures |r'| == NUM_REGS
  {
    r[BIT_SET_REF_1 := Lo(m.seqT)][BIT_SET_REF_2 := Hi(m.seqT)]
     [NSEQT := m.nSeqT]
     [LENGTH_REF_1 := Lo(m.lengthSeqT)][LENGTH_REF_2 := Hi(m.lengthSeqT)]
  }

  function ProgrammedQuery(r: seq<u32>, m: WriteMessage): seq<u32>
    requires |r| == NUM_REGS
  {
    r[BIT_SET_PAT_1 := Lo(m.seqQ)][BIT_SET_PAT_2 := Hi(m.seqQ)]
     [NSEQP := m.nSeqQ]
     [LENGTH_PAT_1 := Lo(m.lengthSeqQ)][LENGTH_PAT_2 := Hi(m.lengthSeqQ)]
     [OUTPUT_1 := Lo(m.minPos)][OUTPUT_2 := Hi(m.minPos)]
  }

  /** A 64-bit address as held by an adjacent (low, high) register pair. */
  function Pair(r: seq<u32>, low: nat): u64
    requires low + 1 < |r|
  {
    r[low + 1] * TWO_32 + r[low]
  }

  /**
   * Programming a run touches exactly the twelve address and count registers:
   * every address is recovered from its register pair, the counts are stored as
   * given, and control, gier, ier, isr and the padding words keep their values.
   */
  lemma ProgrammedRegisters(r: seq<u32>, m: WriteMessage)
    requires |r| == NUM_REGS
    ensures |Programmed(r, m)| == NUM_REGS
    ensures Pair(Programmed(r, m), BIT_SET_REF_1) == m.seqT
    ensures Pair(Programmed(r, m), BIT_SET_PAT_1) == m.seqQ
    ensures Pair(Programmed(r, m), LENGTH_REF_1) == m.lengthSeqT
    ensures Pair(Programmed(r, m), LENGTH_PAT_1) == m.lengthSeqQ
    ensures Pair(Programmed(r, m), OUTPUT_1) == m.minPos
    ensures Programmed(r, m)[NSEQT] == m.nSeqT && Programmed(r, m)[NSEQP] == m.nSeqQ
    ensures forall i | 0 <= i < NUM_REGS && !IsProgrammedReg(i) :: Programmed(r, m)[i] == r[i]
    ensures forall w | w in ProgramWrites(m) :: IsProgrammedReg(w.reg) && Programmed(r, m)[w.reg] == w.value
  {
  }

  /** The registers a run's programming writes. */
  predicate IsProgrammedReg(i: nat) {
    i in {BIT_SET_REF_1, BIT_SET_REF_2, NSEQT, LENGTH_REF_1, LENGTH_REF_2,
          BIT_SET_PAT_1, BIT_SET_PAT_2, NSEQP, LENGTH_PAT_1, LENGTH_PAT_2, OUTPUT_1, OUTPUT_2}
  }

  /** The twelve writes go to twelve different registers. */
  lemma ProgramWritesDistinct(m: WriteMessage)
    ensures forall a, b | 0 <= a < b < 12 :: ProgramWrites(m)[a].reg != ProgramWrites(m)[b].reg
  {
  }

  // ---- in-memory layout of write_message (LP64, little-endian) ----

  /** Field offsets of write_message; the 52 bytes of fields are padded to 56. */
  const OFF_SEQ_T: nat := 0
  const OFF_SEQ_Q: nat := 8
  const OFF_N_SEQ_T: nat := 16
  const OFF_N_SEQ_Q: nat := 20
  const OFF_LENGTH_SEQ_T: nat := 24
  const OFF_LENGTH_SEQ_Q: nat := 32
  const OFF_MIN_POS: nat := 40
  const OFF_WAIT_TYPE: nat := 48
  const MESSAGE_SIZE: nat := 56

  function Pow256(n: nat): (r: nat)
    ensures r >= 1
  {
    if n == 0 then 1 else 256 * Pow256(n - 1)
  }

  /** Little-endian bytes of `x`, `n` of them. */
  function EncodeLE(x: nat, n: nat): (b: seq<u8>)
    ensures |b| == n
  {
    if n == 0 then [] else [x % 256] + EncodeLE(x / 256, n - 1)
  }

  /** The number whose little-endian bytes are `b`. */
  function DecodeLE(b: seq<u8>): (x: nat)
    ensures x < Pow256(|b|)
  {
    if b == [] then 0 else b[0] + 256 * DecodeLE(b[1..])
  }

  lemma {:induction false} DecodeEncodeLE(x: nat, n: nat)
    requires x < Pow256(n)
    ensures DecodeLE(EncodeLE(x, n)) == x
  {
    if n > 0 {
      DecodeEncodeLE(x / 256, n - 1);
      assert EncodeLE(x, n)[1..] == EncodeLE(x / 256, n - 1);
    }
  }

  lemma Pow256Widths()
    ensures Pow256(4) == TWO_32 && Pow256(8) == TWO_64
  {
    assert Pow256(4) == 0x1_0000_0000 by {
      assert Pow256(2) == 0x1_0000;
    }
    assert Pow256(8) == Pow256(4) * Pow256(4) by {
      assert Pow256(8) == 256 * 256 * 256 * 256 * Pow256(4);
    }
  }

  /** The 56 bytes user space hands to `write`. */
  function Encode(m: WriteMessage): (b: seq<u8>)
    ensures |b| == MESSAGE_SIZE
  {
    EncodeLE(m.seqT, 8) + EncodeLE(m.seqQ, 8) + EncodeLE(m.nSeqT, 4) + EncodeLE(m.nSeqQ, 4)
    + EncodeLE(m.lengthSeqT, 8) + EncodeLE(m.lengthSeqQ, 8) + EncodeLE(m.minPos, 8)
    + EncodeLE(m.waitType, 4) + [0, 0, 0, 0]
  }

  function Word64(b: seq<u8>, off: nat): u64
    requires off + 8 <= |b|
  {
    Pow256Widths();
    DecodeLE(b[off..off + 8])
  }

  function Word32(b: seq<u8>, off: nat): u32
    requires off + 4 <= |b|
  {
    Pow256Widths();
    DecodeLE(b[off..off + 4])
  }

  /** How the driver reads the message out of the bytes it copied from user space. */
  function Decode(b: seq<u8>): WriteMessage
    requires |b| >= MESSAGE_SIZE
  {
    WriteMessage(Word64(b, OFF_SEQ_T), Word64(b, OFF_SEQ_Q), Word32(b, OFF_N_SEQ_T),
                 Word32(b, OFF_N_SEQ_Q), Word64(b, OFF_LENGTH_SEQ_T), Word64(b, OFF_LENGTH_SEQ_Q),
                 Word64(b, OFF_MIN_POS), Word32(b, OFF_WAIT_TYPE))
  }

  /**
   * Both sides declare the same field order, so the driver reads back exactly the
   * message user space wrote.
   */
  lemma DecodeEncode(m: WriteMessage)
    ensures Decode(Encode(m)) == m
  {
    Pow256Widths();
    var b := Encode(m);
    assert b[0..8] == EncodeLE(m.seqT, 8);
    assert b[8..16] == EncodeLE(m.seqQ, 8);
    assert b[16..20] == EncodeLE(m.nSeqT, 4);
    assert b[20..24] == EncodeLE(m.nSeqQ, 4);
    assert b[24..32] == EncodeLE(m.lengthSeqT, 8);
    assert b[32..40] == EncodeLE(m.lengthSeqQ, 8);
    assert b[40..48] == EncodeLE(m.minPos, 8);
    assert b[48..52] == EncodeLE(m.waitType, 4);
    DecodeEncodeLE(m.seqT, 8);
    DecodeEncodeLE(m.seqQ, 8);
    DecodeEncodeLE(m.nSeqT, 4);
    DecodeEncodeLE(m.nSeqQ, 4);
    DecodeEncodeLE(m.lengthSeqT, 8);
    DecodeEncodeLE(m.lengthSeqQ, 8);
    DecodeEncodeLE(m.minPos, 8);
    DecodeEncodeLE(m.waitType, 4);
  }
}
