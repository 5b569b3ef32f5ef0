/**
 * The sequence-file reader of the host program (read_file in HW_split_block.cpp).
 *
 * The file is given as the lines `fgets` returns, each at most BUFFER_SIZE - 1
 * bytes long.  A line starting with `@T` opens the next sequence, a line
 * starting with `+` makes the reader ignore what follows until the next header,
 * and any other line is copied into the slot of the current sequence, which has
 * a fixed stride of MAX_SEQ_LENGTH bytes.  `Run` is the specification of the
 * reader; `ParseSequences` fills the two DMA buffers in place and is proved
 * against it.
 */
module SequenceFile {
  import opened Common

  const MAX_SEQ_LENGTH: nat := 360
  const MAX_DESCRIPTION_LENGTH: nat := 724
  const BUFFER_SIZE: nat := MAX_SEQ_LENGTH + MAX_DESCRIPTION_LENGTH

  const NUL: u8 := 0
  const NEWLINE: u8 := 10
  const PLUS: u8 := 43
  const AT: u8 := 64
  const LETTER_T: u8 := 84

  /** A line as `fgets` leaves it in the buffer: at least one byte, NUL-terminated. */
  predicate IsLine(line: seq<u8>) {
    1 <= |line| <= BUFFER_SIZE - 1
  }

  /** Byte `j` of the buffer holding `line`: the line, then its terminating NUL. */
  function Buf(line: seq<u8>, j: nat): u8 {
    if j < |line| then line[j] else NUL
  }

  /** `strncmp(buffer, "@T", 2) == 0` */
  predicate IsHeader(line: seq<u8>) {
    Buf(line, 0) == AT && Buf(line, 1) == LETTER_T
  }

  /** `buffer[0] == '+'` */
  predicate IsSeparator(line: seq<u8>) {
    Buf(line, 0) == PLUS
  }

  /** The position of the first NUL of the buffer at or after `j`. */
  function FirstNul(line: seq<u8>, j: nat): (k: nat)
    requires j <= |line|
    ensures j <= k <= |line|
    ensures Buf(line, k) == NUL
    ensures forall i | j <= i < k :: line[i] != NUL
    decreases |line| - j
  {
    if j == |line| || line[j] == NUL then j else FirstNul(line, j + 1)
  }

  /** Where the copy of a sequence line stops: at the first NUL, or after MAX_SEQ_LENGTH bytes. */
  function Stop(line: seq<u8>): (k: nat)
    ensures k <= MAX_SEQ_LENGTH && k <= |line|
  {
    var n := FirstNul(line, 0);
    if n < MAX_SEQ_LENGTH then n else MAX_SEQ_LENGTH
  }

  /** The number of bytes of `s` that are not a newline. */
  function NonNewlines(s: seq<u8>): (n: nat)
    ensures n <= |s|
  {
    if s == [] then 0 else NonNewlines(s[..|s| - 1]) + (if s[|s| - 1] == NEWLINE then 0 else 1)
  }

  /** The length recorded for a sequence line: its bytes before the stop that are not newlines. */
  function LineLength(line: seq<u8>): (n: nat)
    ensures n <= MAX_SEQ_LENGTH
  {
    NonNewlines(line[..Stop(line)])
  }

  /**
   * A slot of MAX_SEQ_LENGTH bytes after a sequence line was copied into it:
   * every byte before the stop except newlines is overwritten (a newline leaves
   * the old byte in place), the NUL at the stop is copied when it is inside the
   * slot, and the bytes after it are untouched.
   */
  function CopiedSlot(old_: seq<u8>, line: seq<u8>): (slot: seq<u8>)
    requires |old_| == MAX_SEQ_LENGTH
    ensures |slot| == MAX_SEQ_LENGTH
  {
    var stop := Stop(line);
    seq(MAX_SEQ_LENGTH, j requires 0 <= j < MAX_SEQ_LENGTH =>
      if j < stop && line[j] != NEWLINE then line[j]
      else if j == stop then NUL
      else old_[j])
  }

  /** The buffer `s` with slot `k` replaced by `slot`. */
  function PutSlot(s: seq<u8>, k: nat, slot: seq<u8>): (r: seq<u8>)
    requires (k + 1) * MAX_SEQ_LENGTH <= |s| && |slot| == MAX_SEQ_LENGTH
    ensures |r| == |s|
  {
    s[..k * MAX_SEQ_LENGTH] + slot + s[(k + 1) * MAX_SEQ_LENGTH..]
  }

  /** Slot `k` of the buffer `s`. */
  function Slot(s: seq<u8>, k: nat): (slot: seq<u8>)
    requires (k + 1) * MAX_SEQ_LENGTH <= |s|
    ensures |slot| == MAX_SEQ_LENGTH
  {
    s[k * MAX_SEQ_LENGTH..(k + 1) * MAX_SEQ_LENGTH]
  }

  /**
   * The reader's state: `count` headers accepted so far (sequenceCount), the
   * `ignore` flag, the content of the sequence and length buffers, whether a
   * header beyond the capacity ended the reading, and whether a sequence line
   * came before any header.  Such a line makes the source copy into the 360
   * bytes in front of the sequence buffer (`sequences + (0 - 1) * 360`, then
   * `+ jj`) and store its length at `length[-1]`; the model ends the reading
   * there with `fault`.
   */
  datatype Reader = Reader(count: nat, ignore: bool, seqs: seq<u8>, lens: seq<i32>,
                           stopped: bool, fault: bool)

  /** The shape every state of a reader with capacity `max` has. */
  predicate Fits(r: Reader, max: nat) {
    && r.count <= max
    && |r.seqs| == max * MAX_SEQ_LENGTH
    && |r.lens| == max
    && (r.stopped ==> r.count == max)
  }

  /** The buffers before the first line: each slot starts with a NUL and each length is 0. */
  function Init(seqs: seq<u8>, max: nat): (r: Reader)
    requires |seqs| == max * MAX_SEQ_LENGTH
    ensures Fits(r, max) && r.count == 0 && !r.ignore && !r.stopped && !r.fault
    ensures forall k | 0 <= k < max :: r.lens[k] == 0 && r.seqs[k * MAX_SEQ_LENGTH] == NUL
    ensures forall j | 0 <= j < |seqs| && j % MAX_SEQ_LENGTH != 0 :: r.seqs[j] == seqs[j]
  {
    var zeroed := seq(|seqs|, j requires 0 <= j < |seqs| =>
                      if j % MAX_SEQ_LENGTH == 0 then NUL else seqs[j]);
    assert forall k | 0 <= k < max :: (k * MAX_SEQ_LENGTH) % MAX_SEQ_LENGTH == 0;
    Reader(0, false, zeroed, seq(max, _ => 0), false, false)
  }

  /** One line of the file. */
  function Step(r: Reader, line: seq<u8>, max: nat): (r': Reader)
    requires Fits(r, max)
    ensures Fits(r', max)
  {
    if IsHeader(line) then
      if r.count < max then r.(count := r.count + 1, ignore := false)
      else r.(stopped := true)
    else if IsSeparator(line) then r.(ignore := true)
    else if r.ignore then r
    else if r.count == 0 then r.(fault := true)
    else
      var k := r.count - 1;
      r.(seqs := PutSlot(r.seqs, k, CopiedSlot(Slot(r.seqs, k), line)),
         lens := r.lens[k := LineLength(line) as i32])
  }

  /** The reader over the remaining lines, until the file ends, it stops, or it faults. */
  function Run(lines: seq<seq<u8>>, r: Reader, max: nat): (r': Reader)
    requires Fits(r, max)
    ensures Fits(r', max)
  {
    if lines == [] || r.stopped || r.fault then r else Run(lines[1..], Step(r, lines[0], max), max)
  }

  /** The number of header lines in `lines`. */
  function Headers(lines: seq<seq<u8>>): nat {
    if lines == [] then 0 else (if IsHeader(lines[0]) then 1 else 0) + Headers(lines[1..])
  }

  function Min(a: nat, b: nat): nat { if a < b then a else b }

  /**
   * The reader accepts one sequence per header, up to the capacity; a fault can
   * only happen before the first header.
   */
  lemma {:induction false} RunCount(lines: seq<seq<u8>>, r: Reader, max: nat)
    requires Fits(r, max) && !r.fault
    requires r.stopped ==> lines == []
    ensures var r' := Run(lines, r, max);
      && (r'.fault ==> r'.count == 0)
      && (!r'.fault ==> r'.count == Min(r.count + Headers(lines), max))
  {
    if lines != [] {
      var s := Step(r, lines[0], max);
      if s.stopped {
        assert r.count == max && s.count == max;
        assert Run(lines, r, max) == s;
      } else if !s.fault {
        RunCount(lines[1..], s, max);
      }
    }
  }

  /** From the initial state: at most `max` sequences are read, one per header. */
  lemma CountIsHeadersUpToCapacity(lines: seq<seq<u8>>, seqs: seq<u8>, max: nat)
    requires |seqs| == max * MAX_SEQ_LENGTH
    ensures var r := Run(lines, Init(seqs, max), max);
      && r.count <= max
      && (r.fault ==> r.count == 0)
      && (!r.fault ==> r.count == Min(Headers(lines), max))
  {
    RunCount(lines, Init(seqs, max), max);
  }

  /** A file whose first line is blank faults: the blank line is a sequence line before any header. */
  lemma BlankFirstLineFaults(rest: seq<seq<u8>>, seqs: seq<u8>, max: nat)
    requires |seqs| == max * MAX_SEQ_LENGTH
    ensures var r := Run([[NEWLINE]] + rest, Init(seqs, max), max);
      r.fault && r.count == 0
  {
    var lines := [[NEWLINE]] + rest;
    assert lines[0] == [NEWLINE] && lines[1..] == rest;
    var s := Step(Init(seqs, max), lines[0], max);
    assert s.fault;
    assert Run(lines, Init(seqs, max), max) == s;
  }

  /**
   * The reader as evidently intended: lines before the first header are skipped,
   * which starting with `ignore` set achieves.
   */
  function InitCorrected(seqs: seq<u8>, max: nat): (r: Reader)
    requires |seqs| == max * MAX_SEQ_LENGTH
    ensures Fits(r, max) && r.count == 0 && r.ignore && !r.stopped && !r.fault
  {
    Init(seqs, max).(ignore := true)
  }

  /** While no sequence is open the reader ignores lines, so it never faults. */
  lemma {:induction false} IgnoringReaderNeverFaults(lines: seq<seq<u8>>, r: Reader, max: nat)
    requires Fits(r, max) && !r.fault && (r.count == 0 ==> r.ignore)
    ensures !Run(lines, r, max).fault
  {
    if lines != [] && !r.stopped {
      var s := Step(r, lines[0], max);
      assert !s.fault && (s.count == 0 ==> s.ignore);
      IgnoringReaderNeverFaults(lines[1..], s, max);
    }
  }

  /**
   * With `ignore` set and no sequence open, the reader ends with the same buffers,
   * count and stop as without it, whenever the reader without it does not fault.
   */
  lemma {:induction false} IgnoringReaderAgrees(lines: seq<seq<u8>>, r: Reader, max: nat)
    requires Fits(r, max) && r.count == 0 && !r.fault && !Run(lines, r, max).fault
    ensures var a, b := Run(lines, r, max), Run(lines, r.(ignore := true), max);
      a.seqs == b.seqs && a.lens == b.lens && a.count == b.count && a.stopped == b.stopped
  {
    if lines != [] && !r.stopped {
      var line := lines[0];
      var s, t := Step(r, line, max), Step(r.(ignore := true), line, max);
      if IsHeader(line) && r.count == max {
        assert s.stopped && t.stopped && s == t.(ignore := r.ignore);
      } else if IsHeader(line) || IsSeparator(line) {
        assert s == t;
      } else {
        assert r.ignore;
        assert r.(ignore := true) == r;
      }
    }
  }

  /**
   * The corrected reader never faults, reads one sequence per header up to the
   * capacity, and on every file the as-written reader handles it leaves the
   * same buffers.
   */
  lemma CorrectedReaderCounts(lines: seq<seq<u8>>, seqs: seq<u8>, max: nat)
    requires |seqs| == max * MAX_SEQ_LENGTH
    ensures var c := Run(lines, InitCorrected(seqs, max), max);
      && !c.fault
      && c.count == Min(Headers(lines), max)
      && (!Run(lines, Init(seqs, max), max).fault ==>
            var a := Run(lines, Init(seqs, max), max);
            a.seqs == c.seqs && a.lens == c.lens && a.count == c.count)
  {
    IgnoringReaderNeverFaults(lines, InitCorrected(seqs, max), max);
    RunCount(lines, InitCorrected(seqs, max), max);
    if !Run(lines, Init(seqs, max), max).fault {
      IgnoringReaderAgrees(lines, Init(seqs, max), max);
    }
  }

  /** Every recorded length stays within 0..MAX_SEQ_LENGTH. */
  lemma {:induction false} LengthsBounded(lines: seq<seq<u8>>, r: Reader, max: nat)
    requires Fits(r, max)
    requires forall k | 0 <= k < max :: 0 <= r.lens[k] <= MAX_SEQ_LENGTH
    ensures var r' := Run(lines, r, max);
      forall k | 0 <= k < max :: 0 <= r'.lens[k] <= MAX_SEQ_LENGTH
  {
    if lines != [] && !r.stopped && !r.fault {
      var s := Step(r, lines[0], max);
      assert forall k | 0 <= k < max :: 0 <= s.lens[k] <= MAX_SEQ_LENGTH;
      LengthsBounded(lines[1..], s, max);
      assert Run(lines, r, max) == Run(lines[1..], s, max);
    } else {
      assert Run(lines, r, max) == r;
    }
  }

  /** The lines after a `+` line, up to the next header, change no buffer. */
  lemma {:induction false} IgnoredLinesKeepBuffers(lines: seq<seq<u8>>, r: Reader, max: nat)
    requires Fits(r, max) && r.ignore
    requires forall i | 0 <= i < |lines| :: !IsHeader(lines[i])
    ensures var r' := Run(lines, r, max);
      r'.seqs == r.seqs && r'.lens == r.lens && r'.count == r.count
  {
    if lines != [] && !r.stopped && !r.fault {
      var s := Step(r, lines[0], max);
      assert s.ignore && s.seqs == r.seqs && s.lens == r.lens && s.count == r.count;
      IgnoredLinesKeepBuffers(lines[1..], s, max);
    }
  }

  /** A sequence line writes only the slot of the current sequence and its length. */
  lemma SequenceLineWritesOneSlot(r: Reader, line: seq<u8>, max: nat)
    requires Fits(r, max) && !IsHeader(line) && !IsSeparator(line) && !r.ignore && r.count > 0
    ensures var r' := Step(r, line, max); var k := r.count - 1;
      && Slot(r'.seqs, k) == CopiedSlot(Slot(r.seqs, k), line)
      && r'.lens[k] == LineLength(line) as i32
      && (forall j | 0 <= j < |r.seqs| && !(k * MAX_SEQ_LENGTH <= j < (k + 1) * MAX_SEQ_LENGTH) ::
            r'.seqs[j] == r.seqs[j])
      && (forall k' | 0 <= k' < max && k' != k :: r'.lens[k'] == r.lens[k'])
  {
    var k := r.count - 1;
    var r' := Step(r, line, max);
    assert r'.seqs == PutSlot(r.seqs, k, CopiedSlot(Slot(r.seqs, k), line));
    assert Slot(r'.seqs, k) == CopiedSlot(Slot(r.seqs, k), line);
  }

  /**
   * read_file's two loops on the DMA buffers `seqs` and `lens`: the zeroing loop,
   * then one iteration per line.  The final buffers, the number of sequences and
   * whether a sequence line came before any header are those of `Run`.
   */
  method ParseSequences(lines: seq<seq<u8>>, seqs: array<u8>, lens: array<i32>, max: nat)
    returns (count: nat, fault: bool)
    requires seqs.Length == max * MAX_SEQ_LENGTH && lens.Length == max
    requires forall i | 0 <= i < |lines| :: IsLine(lines[i])
    modifies seqs, lens
    ensures var r := Run(lines, Init(old(seqs[..]), max), max);
      count == r.count && fault == r.fault && seqs[..] == r.seqs && lens[..] == r.lens
  {
    ghost var init := Init(seqs[..], max);
    ZeroSlots(seqs, lens, max);
    count, fault := 0, false;
    var ignore := false;
    var n := 0;
    while n < |lines|
      invariant n <= |lines| && count <= max && !fault
      invariant Run(lines, init, max)
                == Run(lines[n..], Reader(count, ignore, seqs[..], lens[..], false, false), max)
    {
      ghost var r := Reader(count, ignore, seqs[..], lens[..], false, false);
      assert lines[n..][0] == lines[n] && lines[n..][1..] == lines[n + 1..];
      var line := lines[n];
      if IsHeader(line) {
        if count < max {
          count := count + 1;
          ignore := false;
        } else {
          return;
        }
      } else if Buf(line, 0) == PLUS {
        ignore := true;
      } else if !ignore {
        if count == 0 {
          fault := true;
          return;
        }
        StoreLine(seqs, lens, count - 1, line);
      }
      assert Step(r, line, max) == Reader(count, ignore, seqs[..], lens[..], false, false);
      n := n + 1;
    }
  }

  /** The zeroing loop: the first byte of every slot and every length become 0. */
  method ZeroSlots(seqs: array<u8>, lens: array<i32>, max: nat)
    requires seqs.Length == max * MAX_SEQ_LENGTH && lens.Length == max
    modifies seqs, lens
    ensures var init := Init(old(seqs[..]), max); seqs[..] == init.seqs && lens[..] == init.lens
  {
    ghost var init := Init(seqs[..], max);
    var i := 0;
    while i < max
      invariant i <= max
      invariant forall j | 0 <= j < seqs.Length ::
                  seqs[j] == if j < i * MAX_SEQ_LENGTH then init.seqs[j] else old(seqs[j])
      invariant forall k | 0 <= k < max :: lens[k] == if k < i then 0 else old(lens[k])
    {
      seqs[i * MAX_SEQ_LENGTH] := NUL;
      lens[i] := 0;
      i := i + 1;
    }
    assert seqs[..] == init.seqs;
    assert lens[..] == init.lens;
  }

  /** A sequence line for sequence `k`: its copy into slot `k` and its recorded length. */
  method StoreLine(seqs: array<u8>, lens: array<i32>, k: nat, line: seq<u8>)
    requires (k + 1) * MAX_SEQ_LENGTH <= seqs.Length && k < lens.Length
    modifies seqs, lens
    ensures seqs[..] == PutSlot(old(seqs[..]), k, CopiedSlot(Slot(old(seqs[..]), k), line))
    ensures lens[..] == old(lens[..])[k := LineLength(line) as i32]
  {
    var cnt := CopyLine(seqs, k * MAX_SEQ_LENGTH, line);
    lens[k] := cnt as i32;
  }

  /** The inner loop of a sequence line: the copy into the slot starting at `base`. */
  method CopyLine(seqs: array<u8>, base: nat, line: seq<u8>) returns (cnt: nat)
    requires base + MAX_SEQ_LENGTH <= seqs.Length
    modifies seqs
    ensures cnt == LineLength(line)
    ensures seqs[..] == old(seqs[..base])
                        + CopiedSlot(old(seqs[base..base + MAX_SEQ_LENGTH]), line)
                        + old(seqs[base + MAX_SEQ_LENGTH..])
  {
    ghost var slot := CopiedSlot(old(seqs[base..base + MAX_SEQ_LENGTH]), line);
    ghost var stop := Stop(line);
    cnt := 0;
    var jj := 0;
    while jj < MAX_SEQ_LENGTH
      invariant jj <= stop
      invariant cnt == NonNewlines(line[..jj])
      invariant forall j | 0 <= j < seqs.Length ::
                  seqs[j] == if base <= j < base + jj then slot[j - base] else old(seqs[j])
    {
      var b := Buf(line, jj);
      if b != NEWLINE {
        seqs[base + jj] := b;
        if b == NUL {
          assert jj == stop;
          assert seqs[..] == old(seqs[..base]) + slot + old(seqs[base + MAX_SEQ_LENGTH..]);
          return;
        }
        cnt := cnt + 1;
      }
      assert line[..jj + 1][..jj] == line[..jj];
      jj := jj + 1;
    }
    assert seqs[..] == old(seqs[..base]) + slot + old(seqs[base + MAX_SEQ_LENGTH..]);
  }
}
