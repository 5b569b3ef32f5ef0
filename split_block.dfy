/**
 * The host-side driver of a benchmark run (HW_split_block.cpp, split_block): the
 * DMA budget arithmetic, the choice of the number of queries per chunk, and the
 * sweep of chunks issued to the accelerator.
 *
 * The accelerator calls are recorded, in order, as a trace of `Call`s rather than
 * executed; their effects are those of the CSeqMatcher methods.  The outcomes of
 * the output allocation and of InitConfig, and the repetition count derived from
 * a timed calibration run, are parameters.
 */
module SplitBlock {
  import opened Common
  import opened AccelDriver
  import opened SeqMatcher
  import opened SequenceFile

  /** Upper bound of the DMA memory the program may use, in bytes. */
  const MAX_CMA_MALLOC: nat := 420000000
  /** Below this number of targets a calibration chunk is timed first. */
  const CALIBRATION_TARGETS: nat := 100000
  /** Value every output entry holds before the accelerator writes it. */
  const OUTPUT_SENTINEL: u32 := 27334
  /** The number of queries of the remainder chunk, as written in the source. */
  const REMAINDER_WIDTH: nat := 182

  /** An accelerator or DMA operation issued by split_block. */
  datatype Call =
    | AllocOutput(bytes: int)
    | InitConfig
    | DriverConfig(chunk: Chunk)
    | DriverStart
    | Config(chunk: Chunk)
    | Start
    | Wait
    | FreeOutput

  datatype Outcome =
    | MemoryExceeded      // the budget is already used up
    | TooManyTargets      // not even one query per target fits
    | OutputAllocFailed
    | InitFailed
    | Completed(repetitions: u32, qSize: nat)

  /**
   * `int64_t availableMemory = MAX_CMA_MALLOC - current_alloc`: an unsigned
   * 64-bit difference read back as a signed 64-bit value.
   */
  function AvailableMemory(currentAlloc: u64): (avail: int)
    ensures currentAlloc <= MAX_CMA_MALLOC ==> avail == MAX_CMA_MALLOC - currentAlloc
    ensures MAX_CMA_MALLOC < currentAlloc <= MAX_CMA_MALLOC + TWO_64 / 2 ==> avail < 0
  {
    var d := ToU64(MAX_CMA_MALLOC - currentAlloc);
    if d >= TWO_64 / 2 then d - TWO_64 else d
  }

  /** Queries per chunk: as many as the budget allows for `nt` targets, at most `nq`. */
  function QuerySize(maxComputations: nat, nt: nat, nq: nat): nat
    requires nt >= 1
  {
    if maxComputations / nt >= nq then nq else maxComputations / nt
  }

  lemma QuerySizeBounds(maxComputations: nat, nt: nat, nq: nat)
    requires 1 <= nt <= maxComputations && nq >= 1
    ensures 1 <= QuerySize(maxComputations, nt, nq) <= nq
    ensures nt * QuerySize(maxComputations, nt, nq) <= maxComputations
  {
    var q := maxComputations / nt;
    assert nt * q <= maxComputations;
    if q >= nq {
      assert nt * nq <= nt * q by {
        MulLeftMono(nt, nq, q);
      }
    }
  }

  lemma MulLeftMono(a: nat, b: nat, c: nat)
    requires b <= c
    ensures a * b <= a * c
  {
  }

  /** k full chunks of width qSize fit into nq queries exactly when k < nq / qSize. */
  lemma FullChunksFit(k: nat, qSize: nat, nq: nat)
    requires qSize >= 1
    ensures k * qSize + qSize <= nq <==> k + 1 <= nq / qSize
  {
    var d := nq / qSize;
    assert d * qSize <= nq < d * qSize + qSize;
    if k + 1 <= d {
      MulLeftMono(qSize, k + 1, d);
    } else {
      MulLeftMono(qSize, d + 1, k + 1);
    }
  }

  /** The chunk of queries [qid, qid + width) against all `nt` targets. */
  function QueryChunk(nt: i32, qid: i32, width: i32): Chunk {
    Chunk(0, nt, 0, qid, width, qid, 0)
  }

  /** The full chunks of a sweep: offsets 0, qSize, 2*qSize, ... */
  function FullChunks(nt: i32, nq: i32, qSize: i32): seq<Chunk>
    requires 1 <= qSize <= nq
  {
    seq(nq / qSize, k requires 0 <= k < nq / qSize => FullChunk(nt, nq, qSize, k))
  }

  /** The k-th full chunk. */
  function FullChunk(nt: i32, nq: i32, qSize: i32, k: nat): Chunk
    requires 1 <= qSize <= nq && k < nq / qSize
  {
    FullChunksFit(k, qSize, nq);
    QueryChunk(nt, k * qSize, qSize)
  }

  /** The remainder chunk of a sweep, if the chunks do not divide the queries, with the given width. */
  function RemainderChunk(nt: i32, nq: i32, qSize: i32, width: i32): (cs: seq<Chunk>)
    requires 1 <= qSize <= nq
  {
    if nq % qSize > 0 then [QueryChunk(nt, nq - nq % qSize, width)] else []
  }

  /** The chunks split_block issues per repetition. */
  function SweepChunks(nt: i32, nq: i32, qSize: i32): seq<Chunk>
    requires 1 <= qSize <= nq
  {
    FullChunks(nt, nq, qSize) + RemainderChunk(nt, nq, qSize, REMAINDER_WIDTH)
  }

  /** The calls that run one chunk, through the driver or through the registers. */
  function RunChunk(c: Chunk, useDriver: bool): seq<Call> {
    if useDriver then [DriverConfig(c), DriverStart] else [Config(c), Start, Wait]
  }

  function RunChunks(cs: seq<Chunk>, useDriver: bool): seq<Call> {
    if cs == [] then [] else RunChunks(cs[..|cs| - 1], useDriver) + RunChunk(cs[|cs| - 1], useDriver)
  }

  function Repeat(s: seq<Call>, n: nat): seq<Call> {
    if n == 0 then [] else Repeat(s, n - 1) + s
  }

  /**
   * The timed calibration chunk: through the driver it covers qSize queries,
   * through the registers all nq of them.
   */
  function Calibration(nt: i32, nq: i32, qSize: i32, useDriver: bool): seq<Call> {
    if useDriver then RunChunk(QueryChunk(nt, 0, qSize), true)
    else RunChunk(QueryChunk(nt, 0, nq), false)
  }

  /**
   * The reading part of read_file: the sequence and length buffers, starting
   * from `initial`, filled from the lines of the file.
   */
  method ParseFile(lines: seq<seq<u8>>, maxSequences: nat, initial: seq<u8>,
                   sequencesAddr: u64, lengthAddr: u64)
    returns (data: SequenceSet, fault: bool)
    requires |initial| == maxSequences * MAX_SEQ_LENGTH
    requires forall i | 0 <= i < |lines| :: IsLine(lines[i])
    ensures fresh(data) && fresh(data.sequences) && fresh(data.length)
    ensures data.sequencesAddr == sequencesAddr && data.lengthAddr == lengthAddr
    ensures var r := Run(lines, Init(initial, maxSequences), maxSequences);
      data.sequences[..] == r.seqs && data.length[..] == r.lens && fault == r.fault
  {
    var seqBuf := new u8[maxSequences * MAX_SEQ_LENGTH](j requires 0 <= j < |initial| => initial[j]);
    var lenBuf := new i32[maxSequences];
    assert seqBuf[..] == initial;
    var count;
    count, fault := ParseSequences(lines, seqBuf, lenBuf, maxSequences);
    data := new SequenceSet(sequencesAddr, lengthAddr, seqBuf, lenBuf);
  }

  /** read_file's three AllocDMACompatible calls; each answer is NULL when its allocation failed. */
  method AllocReadBuffers(shared: Shared, maxSequences: u32,
                          nameonly descVirt: u64, nameonly descPhys: u64,
                          nameonly seqVirt: u64, nameonly seqPhys: u64,
                          nameonly lenVirt: u64, nameonly lenPhys: u64)
    returns (descriptions: u64, sequences: u64, length: u64)
    requires shared.Valid()
    requires descVirt != CMA_FAILED ==> descVirt !in shared.cma.blocks
    requires seqVirt != CMA_FAILED ==> seqVirt !in shared.cma.blocks
    requires lenVirt != CMA_FAILED ==> lenVirt !in shared.cma.blocks
    requires Registers(descVirt, descPhys) ==> seqVirt != descVirt && lenVirt != descVirt
    requires Registers(seqVirt, seqPhys) ==> lenVirt != seqVirt
    modifies shared`dmaMappings, shared.cma
    ensures shared.Valid()
    ensures descriptions == if Registers(descVirt, descPhys) then descVirt else NULL
    ensures sequences == if Registers(seqVirt, seqPhys) then seqVirt else NULL
    ensures length == if Registers(lenVirt, lenPhys) then lenVirt else NULL
    ensures shared.dmaMappings == Register(Register(Register(old(shared.dmaMappings),
                                   descVirt, descPhys), seqVirt, seqPhys), lenVirt, lenPhys)
  {
    descriptions := shared.AllocDMACompatible(ToU32(maxSequences * MAX_DESCRIPTION_LENGTH),
                                              cmaVirt := descVirt, cmaPhys := descPhys);
    sequences := shared.AllocDMACompatible(ToU32(maxSequences * MAX_SEQ_LENGTH),
                                           cmaVirt := seqVirt, cmaPhys := seqPhys);
    length := shared.AllocDMACompatible(ToU32(maxSequences * 4),
                                        cmaVirt := lenVirt, cmaPhys := lenPhys);
  }

  /** Two wrapping 64-bit additions in a row are one wrapping addition. */
  lemma ToU64Add(x: nat, y: nat)
    ensures ToU64(ToU64(x) + y) == ToU64(x + y)
  {
    var q := x / TWO_64;
    assert x == q * TWO_64 + ToU64(x);
    assert x + y == q * TWO_64 + (ToU64(x) + y);
  }

  /** Freeing the descriptions buffer leaves the sequence and length buffers registered. */
  lemma DescriptionsDropped(m: map<u64, u64>, descVirt: u64, descPhys: u64, seqVirt: u64, seqPhys: u64,
                            lenVirt: u64, lenPhys: u64)
    requires descVirt !in m
    requires Registers(descVirt, descPhys) && Registers(seqVirt, seqPhys) && Registers(lenVirt, lenPhys)
    requires seqVirt != descVirt && lenVirt != descVirt
    ensures Register(Register(Register(m, descVirt, descPhys), seqVirt, seqPhys), lenVirt, lenPhys) - {descVirt}
            == m[seqVirt := seqPhys][lenVirt := lenPhys]
  {
  }

  /** Whether the allocator's answer (virt, phys) ends up in the registry. */
  predicate Registers(virt: u64, phys: u64) {
    virt != CMA_FAILED && phys != 0
  }

  /** The registry after AllocDMACompatible got the allocator's answer (virt, phys). */
  function Register(m: map<u64, u64>, virt: u64, phys: u64): (m': map<u64, u64>)
    ensures Registers(virt, phys) ==> m' == m[virt := phys]
    ensures !Registers(virt, phys) ==> m' == m
  {
    if Registers(virt, phys) then m[virt := phys] else m
  }

  /** The buffers read_file hands back: sequences and lengths, with their DMA addresses. */
  class SequenceSet {
    const sequencesAddr: u64
    const lengthAddr: u64
    const sequences: array<u8>
    const length: array<i32>

    constructor (sequencesAddr: u64, lengthAddr: u64, sequences: array<u8>, length: array<i32>)
      ensures this.sequencesAddr == sequencesAddr && this.lengthAddr == lengthAddr
      ensures this.sequences == sequences && this.length == length
    {
      this.sequencesAddr := sequencesAddr;
      this.lengthAddr := lengthAddr;
      this.sequences := sequences;
      this.length := length;
    }
  }

  /** The process-wide DMA accounting of the host program. */
  class Host {
    /** `current_alloc`: bytes of DMA memory accounted so far. */
    var currentAlloc: u64

    constructor ()
      ensures currentAlloc == 0
    {
      currentAlloc := 0;
    }

    /**
     * read_file with capacity `maxSequences` over the lines of the file.  The
     * three DMA buffers (descriptions, sequences, lengths) are requested one
     * after the other, with the allocator's answers as parameters; `initial` is
     * the content the sequence buffer has when it is handed out.  `fault` reports
     * a sequence line before any header.
     */
    method ReadFile(shared: Shared, lines: seq<seq<u8>>, maxSequences: u32,
                    nameonly descVirt: u64, nameonly descPhys: u64,
                    nameonly seqVirt: u64, nameonly seqPhys: u64,
                    nameonly lenVirt: u64, nameonly lenPhys: u64,
                    nameonly initial: seq<u8>)
      returns (data: SequenceSet?, fault: bool)
      requires shared.Valid()
      requires maxSequences * MAX_DESCRIPTION_LENGTH < TWO_32
      requires |initial| == maxSequences * MAX_SEQ_LENGTH
      requires forall i | 0 <= i < |lines| :: IsLine(lines[i])
      // the allocator hands out blocks that are not held, never at address 0
      requires descVirt != NULL && seqVirt != NULL && lenVirt != NULL
      requires descVirt != CMA_FAILED ==> descVirt !in shared.cma.blocks
      requires seqVirt != CMA_FAILED ==> seqVirt !in shared.cma.blocks
      requires lenVirt != CMA_FAILED ==> lenVirt !in shared.cma.blocks
      requires Registers(descVirt, descPhys) ==> seqVirt != descVirt && lenVirt != descVirt
      requires Registers(seqVirt, seqPhys) ==> lenVirt != seqVirt
      modifies this, shared`dmaMappings, shared.cma
      ensures shared.Valid()
      ensures !(Registers(descVirt, descPhys) && Registers(seqVirt, seqPhys) && Registers(lenVirt, lenPhys)) ==>
        && data == null && !fault && currentAlloc == old(currentAlloc)
        && shared.dmaMappings == Register(Register(Register(old(shared.dmaMappings),
                                   descVirt, descPhys), seqVirt, seqPhys), lenVirt, lenPhys)
      ensures Registers(descVirt, descPhys) && Registers(seqVirt, seqPhys) && Registers(lenVirt, lenPhys) ==>
        && data != null && fresh(data) && fresh(data.sequences) && fresh(data.length)
        && data.sequencesAddr == seqVirt && data.lengthAddr == lenVirt
        && shared.dmaMappings == old(shared.dmaMappings)[seqVirt := seqPhys][lenVirt := lenPhys]
        && currentAlloc == ToU64(old(currentAlloc) + maxSequences * MAX_SEQ_LENGTH + maxSequences * 4)
        && var r := Run(lines, Init(initial, maxSequences), maxSequences);
           data.sequences[..] == r.seqs && data.length[..] == r.lens && fault == r.fault
    {
      var descriptions, sequences, length := AllocReadBuffers(shared, maxSequences,
        descVirt := descVirt, descPhys := descPhys, seqVirt := seqVirt, seqPhys := seqPhys,
        lenVirt := lenVirt, lenPhys := lenPhys);
      if descriptions == NULL || sequences == NULL || length == NULL {
        return null, false;
      }
      DescriptionsDropped(old(shared.dmaMappings), descVirt, descPhys, seqVirt, seqPhys, lenVirt, lenPhys);
      AccountReadBuffers(maxSequences);
      data, fault := ParseFile(lines, maxSequences, initial, sequences, length);
      var _ := shared.FreeDMACompatible(descriptions);
    }

    /** read_file's two additions to current_alloc: the sequence and length buffers. */
    method AccountReadBuffers(maxSequences: u32)
      requires maxSequences * MAX_DESCRIPTION_LENGTH < TWO_32
      modifies this
      ensures currentAlloc == ToU64(old(currentAlloc) + maxSequences * MAX_SEQ_LENGTH + maxSequences * 4)
    {
      ghost var before := currentAlloc;
      var seqBytes := maxSequences * MAX_SEQ_LENGTH;
      assert seqBytes <= maxSequences * MAX_DESCRIPTION_LENGTH by {
        MulLeftMono(maxSequences as nat, MAX_SEQ_LENGTH, MAX_DESCRIPTION_LENGTH);
      }
      assert ToU32(seqBytes) == seqBytes;
      currentAlloc := ToU64(currentAlloc + ToU32(seqBytes));
      currentAlloc := ToU64(currentAlloc + maxSequences * 4);
      ToU64Add(before + maxSequences * MAX_SEQ_LENGTH, maxSequences * 4);
    }

    /**
     * split_block for `nt` targets and `nq` queries.  `outputAllocated` and
     * `initStatus` are the outcomes of the output allocation and of InitConfig;
     * `measuredRepetitions` is the repetition count the calibration run yields.
     * `outputInit` is the output buffer's content before the first run.
     */
    method SplitBlock(nt: i32, nq: i32, useDriver: bool, outputAllocated: bool,
                      initStatus: u32, measuredRepetitions: u32)
      returns (outcome: Outcome, calls: seq<Call>, outputInit: seq<u32>)
      requires nt >= 1 && nq >= 1
      requires currentAlloc < TWO_64 / 2
      ensures AvailableMemory(currentAlloc) < 0 ==> outcome == MemoryExceeded && calls == []
      ensures var avail := AvailableMemory(currentAlloc);
        avail >= 0 && nt > avail / 4 ==> outcome == TooManyTargets && calls == []
      ensures var avail := AvailableMemory(currentAlloc);
        avail >= 0 && nt <= avail / 4 ==>
          var qSize := QuerySize(avail / 4, nt, nq);
          && 1 <= qSize <= nq
          && |calls| >= 1 && calls[0] == AllocOutput(nt * qSize * 4)
          && (!outputAllocated ==> outcome == OutputAllocFailed && calls == [AllocOutput(nt * qSize * 4)])
          && (outputAllocated ==> |outputInit| == nt * qSize && forall i | 0 <= i < nt * qSize :: outputInit[i] == OUTPUT_SENTINEL)
      ensures var avail := AvailableMemory(currentAlloc);
        avail >= 0 && nt <= avail / 4 && outputAllocated && initStatus != OK ==>
          var qSize := QuerySize(avail / 4, nt, nq);
          outcome == InitFailed && calls == [AllocOutput(nt * qSize * 4), InitConfig, FreeOutput]
      ensures var avail := AvailableMemory(currentAlloc);
        avail >= 0 && nt <= avail / 4 && outputAllocated && initStatus == OK ==>
          var qSize := QuerySize(avail / 4, nt, nq);
          var reps := if nt < CALIBRATION_TARGETS then measuredRepetitions else 1;
          && outcome == Completed(reps, qSize)
          && calls == [AllocOutput(nt * qSize * 4), InitConfig]
                      + (if nt < CALIBRATION_TARGETS then Calibration(nt, nq, qSize, useDriver) else [])
                      + Repeat(RunChunks(SweepChunks(nt, nq, qSize), useDriver), reps)
                      + [FreeOutput]
    {
      calls, outputInit := [], [];
      var avail := AvailableMemory(currentAlloc);
      if avail < 0 {
        return MemoryExceeded, calls, outputInit;
      }
      var maxComputations := avail / 4;
      if nt > maxComputations {
        return TooManyTargets, calls, outputInit;
      }
      QuerySizeBounds(maxComputations, nt, nq);
      var qSize: i32 := maxComputations / nt;
      if qSize >= nq {
        qSize := nq;
      }
      assert qSize == QuerySize(avail / 4, nt, nq);
      outcome, calls, outputInit := RunWithQuerySize(nt, nq, qSize, useDriver, outputAllocated,
                                                     initStatus, measuredRepetitions);
    }
  }

  /** split_block once the chunk width is known: the output buffer, InitConfig and the runs. */
  method RunWithQuerySize(nt: i32, nq: i32, qSize: i32, useDriver: bool, outputAllocated: bool,
                          initStatus: u32, measuredRepetitions: u32)
    returns (outcome: Outcome, calls: seq<Call>, outputInit: seq<u32>)
    requires nt >= 1 && 1 <= qSize <= nq
    ensures |calls| >= 1 && calls[0] == AllocOutput(nt * qSize * 4)
    ensures !outputAllocated ==> outcome == OutputAllocFailed && calls == [AllocOutput(nt * qSize * 4)]
    ensures outputAllocated ==> |outputInit| == nt * qSize && forall i | 0 <= i < nt * qSize :: outputInit[i] == OUTPUT_SENTINEL
    ensures outputAllocated && initStatus != OK ==>
      outcome == InitFailed && calls == [AllocOutput(nt * qSize * 4), InitConfig, FreeOutput]
    ensures outputAllocated && initStatus == OK ==>
      var reps := if nt < CALIBRATION_TARGETS then measuredRepetitions else 1;
      && outcome == Completed(reps, qSize)
      && calls == [AllocOutput(nt * qSize * 4), InitConfig]
                  + (if nt < CALIBRATION_TARGETS then Calibration(nt, nq, qSize, useDriver) else [])
                  + Repeat(RunChunks(SweepChunks(nt, nq, qSize), useDriver), reps)
                  + [FreeOutput]
  {
    outputInit := [];
    calls := [AllocOutput(nt * qSize * 4)];
    if !outputAllocated {
      return OutputAllocFailed, calls, outputInit;
    }
    outputInit := FillOutput(nt * qSize);
    calls := calls + [InitConfig];
    if initStatus != OK {
      calls := calls + [FreeOutput];
      return InitFailed, calls, outputInit;
    }
    var repetitions, runs := CalibrateAndRun(nt, nq, qSize, useDriver, measuredRepetitions);
    calls := calls + runs + [FreeOutput];
    outcome := Completed(repetitions, qSize);
  }

  /**
   * The calibration run, when there are fewer than CALIBRATION_TARGETS targets,
   * followed by the repetitions of the sweep.
   */
  method CalibrateAndRun(nt: i32, nq: i32, qSize: i32, useDriver: bool, measuredRepetitions: u32)
    returns (repetitions: u32, calls: seq<Call>)
    requires 1 <= qSize <= nq
    ensures repetitions == if nt < CALIBRATION_TARGETS then measuredRepetitions else 1
    ensures calls == (if nt < CALIBRATION_TARGETS then Calibration(nt, nq, qSize, useDriver) else [])
                     + Repeat(RunChunks(SweepChunks(nt, nq, qSize), useDriver), repetitions)
  {
    calls := [];
    if nt < CALIBRATION_TARGETS as int {
      calls := Calibration(nt, nq, qSize, useDriver);
      repetitions := measuredRepetitions;
    } else {
      repetitions := 1;
    }
    var sweeps := IssueRepetitions(nt, nq, qSize, useDriver, repetitions);
    calls := calls + sweeps;
  }

  /** The repetition loop: `repetitions` sweeps, one after the other. */
  method IssueRepetitions(nt: i32, nq: i32, qSize: i32, useDriver: bool, repetitions: u32)
    returns (calls: seq<Call>)
    requires 1 <= qSize <= nq
    ensures calls == Repeat(RunChunks(SweepChunks(nt, nq, qSize), useDriver), repetitions)
  {
    calls := [];
    var r: u32 := 0;
    while r < repetitions
      invariant r <= repetitions
      invariant calls == Repeat(RunChunks(SweepChunks(nt, nq, qSize), useDriver), r)
    {
      var one := IssueSweep(nt, nq, qSize, useDriver);
      calls := calls + one;
      r := r + 1;
    }
  }

  /** The loop that sets every entry of the output buffer to the sentinel. */
  method FillOutput(n: nat) returns (output: seq<u32>)
    ensures |output| == n && forall i | 0 <= i < n :: output[i] == OUTPUT_SENTINEL
  {
    output := [];
    var i := 0;
    while i < n
      invariant i <= n && |output| == i && forall j | 0 <= j < i :: output[j] == OUTPUT_SENTINEL
    {
      output := output + [OUTPUT_SENTINEL];
      i := i + 1;
    }
  }

  /**
   * One repetition of the sweep: the full chunks at qid = 0, qSize, ... while
   * qid < nq - qSize + 1, then the remainder chunk when qSize does not divide nq.
   */
  method IssueSweep(nt: i32, nq: i32, qSize: i32, useDriver: bool) returns (calls: seq<Call>)
    requires 1 <= qSize <= nq
    ensures calls == RunChunks(SweepChunks(nt, nq, qSize), useDriver)
  {
    calls := [];
    ghost var full := FullChunks(nt, nq, qSize);
    var qid: i32 := 0;
    ghost var k := 0;
    while qid < nq - qSize + 1
      invariant 0 <= k <= |full| && qid == k * qSize
      invariant calls == RunChunks(full[..k], useDriver)
      decreases |full| - k
    {
      SweepStep(nt, nq, qSize, k, useDriver);
      calls := calls + RunChunk(QueryChunk(nt, qid, qSize), useDriver);
      qid := qid + qSize;
      k := k + 1;
    }
    FullChunksFit(k, qSize, nq);
    assert full[..k] == full;
    if nq % qSize > 0 {
      calls := calls + RunChunk(QueryChunk(nt, nq - nq % qSize, REMAINDER_WIDTH), useDriver);
    }
    RunChunksAppend(full, RemainderChunk(nt, nq, qSize, REMAINDER_WIDTH), useDriver);
  }

  /** The loop's step: while chunk k still fits, it is full chunk k and extends the calls by its run. */
  lemma SweepStep(nt: i32, nq: i32, qSize: i32, k: nat, useDriver: bool)
    requires 1 <= qSize <= nq && k * qSize < nq - qSize + 1
    ensures var full := FullChunks(nt, nq, qSize);
      && k < |full| && full[k] == QueryChunk(nt, k * qSize, qSize)
      && (k + 1) * qSize == k * qSize + qSize
      && RunChunks(full[..k + 1], useDriver) == RunChunks(full[..k], useDriver) + RunChunk(full[k], useDriver)
  {
    var full := FullChunks(nt, nq, qSize);
    FullChunksFit(k, qSize, nq);
    assert full[k] == FullChunk(nt, nq, qSize, k);
    assert full[..k + 1][..k] == full[..k];
  }

  lemma {:induction false} RunChunksAppend(a: seq<Chunk>, b: seq<Chunk>, useDriver: bool)
    ensures RunChunks(a + b, useDriver) == RunChunks(a, useDriver) + RunChunks(b, useDriver)
    decreases |b|
  {
    if b != [] {
      assert (a + b)[..|a + b| - 1] == a + b[..|b| - 1];
      RunChunksAppend(a, b[..|b| - 1], useDriver);
    } else {
      assert a + b == a;
    }
  }

  /** Query q belongs to chunk c. */
  predicate Covers(c: Chunk, q: int) {
    c.patternOff <= q < c.patternOff + c.nseqp
  }

  /**
   * Full chunk k sits at query offset k * qSize with width qSize, against the
   * `nt` targets from offset 0, writing from output offset 0.
   */
  lemma FullChunkShape(nt: i32, nq: i32, qSize: i32)
    requires 1 <= qSize <= nq
    ensures var full := FullChunks(nt, nq, qSize);
      && |full| == nq / qSize
      && |full| * qSize <= nq
      && forall k | 0 <= k < |full| ::
           && full[k].patternOff == full[k].lengthPatOff == k * qSize && full[k].nseqp == qSize
           && full[k].referenceOff == 0 && full[k].lengthRefOff == 0 && full[k].nseqt == nt
           && full[k].outputOff == 0
  {
    var full := FullChunks(nt, nq, qSize);
    assert forall k | 0 <= k < |full| :: full[k] == FullChunk(nt, nq, qSize, k);
  }

  /** Each full chunk ends where the next one starts. */
  lemma FullChunksContiguous(nt: i32, nq: i32, qSize: i32)
    requires 1 <= qSize <= nq
    ensures var full := FullChunks(nt, nq, qSize);
      forall k | 0 <= k < |full| - 1 :: full[k].patternOff + full[k].nseqp == full[k + 1].patternOff
  {
    var full := FullChunks(nt, nq, qSize);
    forall k | 0 <= k < |full| - 1
      ensures full[k].patternOff + full[k].nseqp == full[k + 1].patternOff
    {
      assert full[k] == FullChunk(nt, nq, qSize, k);
      assert full[k + 1] == FullChunk(nt, nq, qSize, k + 1);
      assert (k + 1) * qSize == k * qSize + qSize;
    }
  }

  lemma DivBelow(q: nat, d: nat, n: nat)
    requires d >= 1 && q < n * d
    ensures q / d < n && (q / d) * d <= q < (q / d) * d + d
  {
    if q / d >= n {
      MulLeftMono(d, n, q / d);
    }
  }

  /**
   * As written, the remainder chunk has 182 queries whatever the remainder is.
   * With 250 queries in chunks of 100 it reaches query 382, past the last query,
   * and it writes 182 results per target into an output buffer sized for 100.
   */
  lemma RemainderWidthOverruns()
    ensures var rem := RemainderChunk(1, 250, 100, REMAINDER_WIDTH);
      && |rem| == 1
      && rem[0].patternOff + rem[0].nseqp == 382 > 250
      && rem[0].nseqt * rem[0].nseqp > 1 * QuerySize(100, 1, 250)
  {
  }

  /** As written, with 399 queries in chunks of 200 the remainder chunk leaves the last 17 queries out. */
  lemma RemainderWidthMissesQueries()
    ensures var chunks := SweepChunks(1, 399, 200);
      forall i | 0 <= i < |chunks| :: !Covers(chunks[i], 398)
  {
    var chunks := SweepChunks(1, 399, 200);
    FullChunkShape(1, 399, 200);
    assert |chunks| == 2;
    assert chunks[1] == QueryChunk(1, 200, REMAINDER_WIDTH);
  }

  /** Some chunk of `chunks` covers query q. */
  predicate Covered(chunks: seq<Chunk>, q: int) {
    exists i :: 0 <= i < |chunks| && Covers(chunks[i], q)
  }

  /** The sweep with the remainder chunk as wide as the remainder. */
  function CorrectedSweepChunks(nt: i32, nq: i32, qSize: i32): seq<Chunk>
    requires 1 <= qSize <= nq
  {
    FullChunks(nt, nq, qSize) + RemainderChunk(nt, nq, qSize, nq % qSize)
  }

  /** The corrected sweep covers every query exactly once and no query beyond nq. */
  lemma CorrectedSweepPartitions(nt: i32, nq: i32, qSize: i32)
    requires 1 <= qSize <= nq
    ensures var chunks := CorrectedSweepChunks(nt, nq, qSize);
      && (forall i | 0 <= i < |chunks| :: 0 <= chunks[i].patternOff && chunks[i].patternOff + chunks[i].nseqp <= nq)
      && (forall q | 0 <= q < nq :: Covered(chunks, q))
      && (forall q, i, j | 0 <= i < |chunks| && 0 <= j < |chunks| && Covers(chunks[i], q) && Covers(chunks[j], q) :: i == j)
  {
    CorrectedSweepInBounds(nt, nq, qSize);
    CorrectedSweepCovers(nt, nq, qSize);
    CorrectedSweepDisjoint(nt, nq, qSize);
  }

  /** Chunk i of the corrected sweep starts at i * qSize and holds between 1 and qSize queries, all below nq. */
  lemma CorrectedChunkAt(nt: i32, nq: i32, qSize: i32, i: nat)
    requires 1 <= qSize <= nq && i < |CorrectedSweepChunks(nt, nq, qSize)|
    ensures var c := CorrectedSweepChunks(nt, nq, qSize)[i];
      && c.patternOff == i * qSize && 1 <= c.nseqp <= qSize && i * qSize + c.nseqp <= nq
      && c.nseqp == if i < nq / qSize then qSize else nq % qSize
  {
    var full := FullChunks(nt, nq, qSize);
    var chunks := CorrectedSweepChunks(nt, nq, qSize);
    var n := |full|;
    assert n == nq / qSize;
    if i < n {
      assert chunks[i] == full[i] == FullChunk(nt, nq, qSize, i);
      FullChunksFit(i, qSize, nq);
    } else {
      assert nq % qSize > 0 && i == n;
      assert chunks[i] == QueryChunk(nt, nq - nq % qSize, nq % qSize);
      assert nq - nq % qSize == n * qSize;
    }
  }

  lemma CorrectedSweepInBounds(nt: i32, nq: i32, qSize: i32)
    requires 1 <= qSize <= nq
    ensures var chunks := CorrectedSweepChunks(nt, nq, qSize);
      forall i | 0 <= i < |chunks| :: 0 <= chunks[i].patternOff && chunks[i].patternOff + chunks[i].nseqp <= nq
  {
    var chunks := CorrectedSweepChunks(nt, nq, qSize);
    forall i | 0 <= i < |chunks|
      ensures 0 <= chunks[i].patternOff && chunks[i].patternOff + chunks[i].nseqp <= nq
    {
      CorrectedChunkAt(nt, nq, qSize, i);
    }
  }

  lemma CorrectedSweepCovers(nt: i32, nq: i32, qSize: i32)
    requires 1 <= qSize <= nq
    ensures forall q | 0 <= q < nq :: Covered(CorrectedSweepChunks(nt, nq, qSize), q)
  {
    var chunks := CorrectedSweepChunks(nt, nq, qSize);
    forall q | 0 <= q < nq
      ensures Covered(chunks, q)
    {
      CorrectedChunkCovers(nt, nq, qSize, q);
    }
  }

  /** Query q lies in chunk q / qSize of the corrected sweep. */
  lemma CorrectedChunkCovers(nt: i32, nq: i32, qSize: i32, q: nat)
    requires 1 <= qSize <= nq && q < nq
    ensures var chunks := CorrectedSweepChunks(nt, nq, qSize);
      q / qSize < |chunks| && Covers(chunks[q / qSize], q)
  {
    var chunks := CorrectedSweepChunks(nt, nq, qSize);
    var n, r := nq / qSize, nq % qSize;
    assert |chunks| == n + (if r > 0 then 1 else 0);
    BlockOf(q, qSize, n, r);
    CorrectedChunkAt(nt, nq, qSize, q / qSize);
  }

  /** Below n blocks of d plus r, q falls in block q / d, and in the last, partial block only below r. */
  lemma BlockOf(q: nat, d: nat, n: nat, r: nat)
    requires d >= 1 && r < d && q < n * d + r
    ensures q / d <= n && (q / d) * d <= q < (q / d) * d + d
    ensures q / d == n ==> q - n * d < r
  {
    assert n * d + r < (n + 1) * d;
    DivBelow(q, d, n + 1);
  }

  lemma CorrectedSweepDisjoint(nt: i32, nq: i32, qSize: i32)
    requires 1 <= qSize <= nq
    ensures var chunks := CorrectedSweepChunks(nt, nq, qSize);
      forall q, i, j | 0 <= i < |chunks| && 0 <= j < |chunks| && Covers(chunks[i], q) && Covers(chunks[j], q) :: i == j
  {
    var chunks := CorrectedSweepChunks(nt, nq, qSize);
    forall q, i, j | 0 <= i < |chunks| && 0 <= j < |chunks| && Covers(chunks[i], q) && Covers(chunks[j], q)
      ensures i == j
    {
      if i < j {
        CorrectedChunksApart(nt, nq, qSize, i, j);
      } else if j < i {
        CorrectedChunksApart(nt, nq, qSize, j, i);
      }
    }
  }

  /** An earlier chunk of the corrected sweep ends before a later one starts. */
  lemma CorrectedChunksApart(nt: i32, nq: i32, qSize: i32, i: nat, j: nat)
    requires 1 <= qSize <= nq && i < j < |CorrectedSweepChunks(nt, nq, qSize)|
    ensures var chunks := CorrectedSweepChunks(nt, nq, qSize);
      chunks[i].patternOff + chunks[i].nseqp <= chunks[j].patternOff
  {
    CorrectedChunkAt(nt, nq, qSize, i);
    CorrectedChunkAt(nt, nq, qSize, j);
    BlocksApart(i, j, qSize);
  }

  /** Block i of width d ends no later than block j > i starts. */
  lemma BlocksApart(i: nat, j: nat, d: nat)
    requires i < j
    ensures i * d + d <= j * d
  {
    MulLeftMono(d, i + 1, j);
  }
}
