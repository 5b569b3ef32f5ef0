/**
 * The accelerator front end (CSeqMatcher): binding of the five job buffers to
 * physical addresses, chunk address arithmetic, and the two ways of programming
 * and starting a run -- directly through the mapped registers, or through the
 * kernel driver.
 *
 * The static job binding is one object of class `Binding` shared by all
 * instances.  CSeqMatcher derives from CAccelDriver; here it holds its
 * CAccelDriver part as `base`.  The hardware's answers when control is polled
 * are a parameter of AlignmentWait.
 */
module SeqMatcher {
  import opened Common
  import opened RegisterMap
  import opened AccelDriver
  import opened SeqDriver

  /** Polls of the done bit before AlignmentWait gives up. */
  const WAIT_LIMIT: nat := 500000
  /** Bytes per entry of the length and output arrays. */
  const ENTRY_SIZE: nat := 4
  /** Status of the corrected wait when the run did not finish (not a TErrors value). */
  const WAIT_TIMEOUT: u32 := 6

  /** The offsets and counts of one chunk, as AlignmentConfig receives them. */
  datatype Chunk = Chunk(referenceOff: i32, nseqt: i32, lengthRefOff: i32,
                         patternOff: i32, nseqp: i32, lengthPatOff: i32, outputOff: i32)

  /** A snapshot of the job binding. */
  datatype Job = Job(phyReferenceC: u64, phyLengthRef: u64, phyPatternC: u64,
                     phyLengthPat: u64, phyOutput: u64, maxSeqLength: u32)

  /**
   * `base + (uint64_t)off * stride` in uint64_t arithmetic: the signed offset is
   * sign-extended and everything wraps modulo 2^64.
   */
  function ChunkAddress(base: u64, off: i32, stride: u64): (a: u64)
    ensures 0 <= off && base + off * stride < TWO_64 ==> a == base + off * stride
  {
    var o := ToU64(off);
    var p := ToU64(o * stride);
    assert 0 <= off && base + off * stride < TWO_64 ==> o == off && p == off * stride;
    ToU64(base + p)
  }

  /** The command for one chunk of a bound job. */
  function JobMessage(job: Job, c: Chunk, waitType: u32): (m: WriteMessage)
    ensures m.seqT == ChunkAddress(job.phyReferenceC, c.referenceOff, job.maxSeqLength)
    ensures m.seqQ == ChunkAddress(job.phyPatternC, c.patternOff, job.maxSeqLength)
    ensures m.lengthSeqT == ChunkAddress(job.phyLengthRef, c.lengthRefOff, ENTRY_SIZE)
    ensures m.lengthSeqQ == ChunkAddress(job.phyLengthPat, c.lengthPatOff, ENTRY_SIZE)
    ensures m.minPos == ChunkAddress(job.phyOutput, c.outputOff, ENTRY_SIZE)
    ensures m.nSeqT == ToU32(c.nseqt) && m.nSeqQ == ToU32(c.nseqp) && m.waitType == waitType
  {
    WriteMessage(
      ChunkAddress(job.phyReferenceC, c.referenceOff, job.maxSeqLength),
      ChunkAddress(job.phyPatternC, c.patternOff, job.maxSeqLength),
      ToU32(c.nseqt), ToU32(c.nseqp),
      ChunkAddress(job.phyLengthRef, c.lengthRefOff, ENTRY_SIZE),
      ChunkAddress(job.phyLengthPat, c.lengthPatOff, ENTRY_SIZE),
      ChunkAddress(job.phyOutput, c.outputOff, ENTRY_SIZE),
      waitType)
  }

  /**
   * For in-range offsets the registers of a programmed chunk hold, as (low, high)
   * pairs, the buffer base plus the offset times the buffer's stride.
   */
  lemma ChunkRegisters(r: seq<u32>, job: Job, c: Chunk, waitType: u32)
    requires |r| == NUM_REGS
    requires 0 <= c.referenceOff && job.phyReferenceC + c.referenceOff * job.maxSeqLength < TWO_64
    requires 0 <= c.patternOff && job.phyPatternC + c.patternOff * job.maxSeqLength < TWO_64
    requires 0 <= c.lengthRefOff && job.phyLengthRef + c.lengthRefOff * 4 < TWO_64
    requires 0 <= c.lengthPatOff && job.phyLengthPat + c.lengthPatOff * 4 < TWO_64
    requires 0 <= c.outputOff && job.phyOutput + c.outputOff * 4 < TWO_64
    ensures var p := Programmed(r, JobMessage(job, c, waitType));
      && Pair(p, BIT_SET_REF_1) == job.phyReferenceC + c.referenceOff * job.maxSeqLength
      && Pair(p, BIT_SET_PAT_1) == job.phyPatternC + c.patternOff * job.maxSeqLength
      && Pair(p, LENGTH_REF_1) == job.phyLengthRef + c.lengthRefOff * 4
      && Pair(p, LENGTH_PAT_1) == job.phyLengthPat + c.lengthPatOff * 4
      && Pair(p, OUTPUT_1) == job.phyOutput + c.outputOff * 4
  {
    ProgrammedRegisters(r, JobMessage(job, c, waitType));
  }

  /** Index of the first unresolved address (physical address 0), or |phys|. */
  function FirstUnresolved(phys: seq<u64>): (k: nat)
    ensures k <= |phys|
    ensures forall i | 0 <= i < k :: phys[i] != 0
    ensures k < |phys| ==> phys[k] == 0
  {
    if phys == [] then 0
    else if phys[0] == 0 then 0
    else 1 + FirstUnresolved(phys[1..])
  }

  /** The first unresolved index is the one the in-order resolution stops at. */
  lemma {:induction false} FirstUnresolvedAt(phys: seq<u64>, k: nat)
    requires k <= |phys| && forall i | 0 <= i < k :: phys[i] != 0
    requires k < |phys| ==> phys[k] == 0
    ensures FirstUnresolved(phys) == k
  {
    if k > 0 {
      FirstUnresolvedAt(phys[1..], k - 1);
    }
  }

  /** The static members of CSeqMatcher. */
  class Binding {
    var phyReferenceC: u64
    var phyLengthRef: u64
    var phyPatternC: u64
    var phyLengthPat: u64
    var phyOutput: u64
    var maxSeqLengthInternal: u32
    var phyInitialized: bool

    constructor ()
      ensures Snapshot() == Job(0, 0, 0, 0, 0, 0) && !phyInitialized
    {
      phyReferenceC, phyLengthRef, phyPatternC, phyLengthPat, phyOutput := 0, 0, 0, 0, 0;
      maxSeqLengthInternal := 0;
      phyInitialized := false;
    }

    function Snapshot(): Job
      reads this
    {
      Job(phyReferenceC, phyLengthRef, phyPatternC, phyLengthPat, phyOutput, maxSeqLengthInternal)
    }
  }

  class CSeqMatcher {
    const base: CAccelDriver
    const binding: Binding

    constructor (shared: Shared, binding: Binding, logging: bool := false)
      modifies shared`logging, shared`numModules
      ensures fresh(base) && base.shared == shared && this.binding == binding
      ensures base.accelRegs == null && base.baseAddr == 0 && base.mappingSize == 0
      ensures shared.logging == logging
      ensures shared.numModules == ToU32(old(shared.numModules) + 1)
    {
      base := new CAccelDriver(shared, logging);
      this.binding := binding;
    }

    /** GetPhyAddress: the registered physical address of `virt`, 0 meaning "not found". */
    method GetPhyAddress(virt: u64) returns (status: u32, phy: u64)
      ensures phy == base.shared.Lookup(virt)
      ensures status == (if phy == 0 then VIRT_ADDR_NOT_FOUND else OK)
      ensures base.shared.Valid() ==> (status == OK <==> virt in base.shared.dmaMappings)
    {
      phy := base.shared.GetDMAPhysicalAddr(virt);
      if phy == 0 {
        return VIRT_ADDR_NOT_FOUND, phy;
      }
      status := OK;
    }

    /**
     * InitConfig: records the maximum sequence length, then resolves the target
     * sequences, target lengths, query sequences, query lengths and output buffers
     * in that order, storing each result (0 for the one that fails) and stopping
     * at the first failure.  The binding is marked complete only when all five
     * resolve; it is never marked incomplete.
     */
    method InitConfig(referenceC: u64, lengthRef: u64, patternC: u64, lengthPat: u64,
                      output: u64, maxSeqLength: i32) returns (status: u32)
      modifies binding
      ensures binding.maxSeqLengthInternal == ToU32(maxSeqLength)
      ensures var phys := [base.shared.Lookup(referenceC), base.shared.Lookup(lengthRef), base.shared.Lookup(patternC),
                          base.shared.Lookup(lengthPat), base.shared.Lookup(output)];
              var f := FirstUnresolved(phys);
              && status == (if f < 5 then VIRT_ADDR_NOT_FOUND else OK)
              && binding.phyInitialized == (old(binding.phyInitialized) || f == 5)
              && binding.phyReferenceC == phys[0]
              && binding.phyLengthRef == (if 1 <= f then phys[1] else old(binding.phyLengthRef))
              && binding.phyPatternC == (if 2 <= f then phys[2] else old(binding.phyPatternC))
              && binding.phyLengthPat == (if 3 <= f then phys[3] else old(binding.phyLengthPat))
              && binding.phyOutput == (if 4 <= f then phys[4] else old(binding.phyOutput))
    {
      ghost var phys := [base.shared.Lookup(referenceC), base.shared.Lookup(lengthRef), base.shared.Lookup(patternC),
                          base.shared.Lookup(lengthPat), base.shared.Lookup(output)];
      binding.maxSeqLengthInternal := ToU32(maxSeqLength);
      ghost var k := 0;
      status, binding.phyReferenceC := GetPhyAddress(referenceC);
      if status == OK {
        k := 1;
        status, binding.phyLengthRef := GetPhyAddress(lengthRef);
        if status == OK {
          k := 2;
          status, binding.phyPatternC := GetPhyAddress(patternC);
          if status == OK {
            k := 3;
            status, binding.phyLengthPat := GetPhyAddress(lengthPat);
            if status == OK {
              k := 4;
              status, binding.phyOutput := GetPhyAddress(output);
              if status == OK {
                k := 5;
                binding.phyInitialized := true;
              }
            }
          }
        }
      }
      FirstUnresolvedAt(phys, k);
    }

    /** AlignmentConfig: programs one chunk directly through the mapped registers. */
    method AlignmentConfig(c: Chunk) returns (status: u32)
      requires base.accelRegs != null ==> base.accelRegs.Length == NUM_REGS
      modifies base.accelRegs
      ensures base.accelRegs == null || !binding.phyInitialized ==>
                status == DEVICE_NOT_INITIALIZED
                && (base.accelRegs != null ==> base.accelRegs[..] == old(base.accelRegs[..]))
      ensures base.accelRegs != null && binding.phyInitialized ==>
                status == OK
                && base.accelRegs[..] == Programmed(old(base.accelRegs[..]),
                                                    JobMessage(binding.Snapshot(), c, INTERRUPT))
    {
      var regs := base.accelRegs;
      if regs == null {
        return DEVICE_NOT_INITIALIZED;
      }
      if !binding.phyInitialized {
        return DEVICE_NOT_INITIALIZED;
      }
      var m := JobMessage(binding.Snapshot(), c, INTERRUPT);
      regs[BIT_SET_REF_1] := Lo(m.seqT);
      regs[BIT_SET_REF_2] := Hi(m.seqT);
      regs[NSEQT] := m.nSeqT;
      regs[LENGTH_REF_1] := Lo(m.lengthSeqT);
      regs[LENGTH_REF_2] := Hi(m.lengthSeqT);
      regs[BIT_SET_PAT_1] := Lo(m.seqQ);
      regs[BIT_SET_PAT_2] := Hi(m.seqQ);
      regs[NSEQP] := m.nSeqQ;
      regs[LENGTH_PAT_1] := Lo(m.lengthSeqQ);
      regs[LENGTH_PAT_2] := Hi(m.lengthSeqQ);
      regs[OUTPUT_1] := Lo(m.minPos);
      regs[OUTPUT_2] := Hi(m.minPos);
      status := OK;
    }

    /** AlignmentStart: raises ap_start by read-modify-write of control. */
    method AlignmentStart() returns (status: u32)
      requires base.accelRegs != null ==> base.accelRegs.Length == NUM_REGS
      modifies base.accelRegs
      ensures base.accelRegs == null ==> status == DEVICE_NOT_INITIALIZED
      ensures base.accelRegs != null ==>
                status == OK
                && base.accelRegs[..] == old(base.accelRegs[..])[CONTROL := SetBit0(old(base.accelRegs[CONTROL]))]
    {
      var regs := base.accelRegs;
      if regs == null {
        return DEVICE_NOT_INITIALIZED;
      }
      var s := regs[CONTROL];
      s := SetBit0(s);
      regs[CONTROL] := s;
      status := OK;
    }

    /**
     * AlignmentWait: polls control until ap_done, giving up after WAIT_LIMIT polls.
     * `controlReads(k)` is the value read at the k-th poll; `polls` is the number
     * of polls and `timedOut` whether the timeout message was printed.  The status
     * is OK whether or not the run finished.
     */
    method AlignmentWait(controlReads: nat -> u32) returns (status: u32, timedOut: bool, polls: nat)
      ensures base.accelRegs == null ==> status == DEVICE_NOT_INITIALIZED && polls == 0 && !timedOut
      ensures base.accelRegs != null ==> status == OK && 1 <= polls <= WAIT_LIMIT + 1
      ensures base.accelRegs != null ==>
                (timedOut <==> forall k | 0 <= k < WAIT_LIMIT :: !Done(controlReads(k)))
      ensures base.accelRegs != null && !timedOut ==>
                Done(controlReads(polls - 1)) && forall k | 0 <= k < polls - 1 :: !Done(controlReads(k))
      ensures timedOut ==> polls == WAIT_LIMIT + 1
    {
      timedOut := false;
      polls := 0;
      if base.accelRegs == null {
        return DEVICE_NOT_INITIALIZED, timedOut, polls;
      }
      var count := 0;
      while true
        invariant count <= WAIT_LIMIT
        invariant forall k | 0 <= k < count :: !Done(controlReads(k))
        decreases WAIT_LIMIT - count
      {
        var s := controlReads(count);
        count := count + 1;
        if count > WAIT_LIMIT {
          timedOut := true;
          break;
        }
        if Done(s) {
          break;
        }
      }
      polls := count;
      status := OK;
    }

    /** The wait with the timeout reported: OK only when the run was seen to finish. */
    method AlignmentWaitReportingTimeout(controlReads: nat -> u32) returns (status: u32, polls: nat)
      ensures base.accelRegs == null ==> status == DEVICE_NOT_INITIALIZED
      ensures base.accelRegs != null ==>
                (status == OK <==> exists k | 0 <= k < WAIT_LIMIT :: Done(controlReads(k)))
      ensures base.accelRegs != null ==> status == OK || status == WAIT_TIMEOUT
      ensures status == OK ==> 1 <= polls && Done(controlReads(polls - 1))
    {
      var timedOut;
      status, timedOut, polls := AlignmentWait(controlReads);
      if timedOut {
        status := WAIT_TIMEOUT;
      }
    }

    /**
     * AlignmentDriverConfig: sends the chunk's command to the driver with the
     * interrupt wait type.  On a descriptor that is not open (a failed open, or
     * one closed by CloseDriver) `write` fails before reaching the driver; the
     * failure is only reported by `warned`.
     */
    method AlignmentDriverConfig(c: Chunk, dev: SeqDevice) returns (status: u32, warned: bool)
      requires dev.Valid()
      modifies dev.regs, dev`waitType, dev`mmioLog
      ensures base.shared.driver == 0 || !binding.phyInitialized ==>
                status == DEVICE_NOT_INITIALIZED && !warned
                && dev.regs[..] == old(dev.regs[..]) && dev.waitType == old(dev.waitType)
                && dev.mmioLog == old(dev.mmioLog)
      ensures base.shared.driver != 0 && !base.shared.driverOpen && binding.phyInitialized ==>
                status == OK && warned
                && dev.regs[..] == old(dev.regs[..]) && dev.waitType == old(dev.waitType)
                && dev.mmioLog == old(dev.mmioLog)
      ensures base.shared.driver != 0 && base.shared.driverOpen && binding.phyInitialized ==>
                status == OK && !warned
                && dev.regs[..] == Programmed(old(dev.regs[..]), JobMessage(binding.Snapshot(), c, INTERRUPT))
                && dev.mmioLog == old(dev.mmioLog) + ProgramWrites(JobMessage(binding.Snapshot(), c, INTERRUPT))
                && dev.waitType == INTERRUPT
    {
      warned := false;
      if base.shared.driver == 0 {
        return DEVICE_NOT_INITIALIZED, warned;
      }
      if !binding.phyInitialized {
        return DEVICE_NOT_INITIALIZED, warned;
      }
      var message := JobMessage(binding.Snapshot(), c, INTERRUPT);
      var bytes := Encode(message);
      var written: int;
      if !base.shared.driverOpen {
        written := -1;
      } else {
        DecodeEncode(message);
        assert bytes[..MESSAGE_SIZE] == bytes;
        written := dev.Write(bytes, MESSAGE_SIZE);
      }
      warned := written != 0;
      status := OK;
    }

    /**
     * AlignmentDriverStart: asks the driver to start the run and wait for it;
     * `controlReads` is what the driver's polling loop reads, if it polls.  A
     * `read` on a descriptor that is not open fails and its result is ignored.
     */
    method AlignmentDriverStart(dev: SeqDevice, controlReads: seq<u32>) returns (status: u32)
      requires dev.Valid()
      requires dev.waitType == POLLING ==> exists k :: 0 <= k < |controlReads| && Done(controlReads[k])
      modifies dev.regs, dev`flag, dev`mmioLog
      ensures base.shared.driver == 0 ==> status == DEVICE_NOT_INITIALIZED
      ensures base.shared.driver != 0 ==> status == OK
      ensures base.shared.driver == 0 || !base.shared.driverOpen ==>
                dev.regs[..] == old(dev.regs[..]) && dev.flag == old(dev.flag) && dev.mmioLog == old(dev.mmioLog)
      ensures base.shared.driver != 0 && base.shared.driverOpen ==>
                && dev.regs[CONTROL] == SetBit0(old(dev.regs[CONTROL]))
                && dev.regs[GIER] == 0 && dev.regs[IER] == 0
                && (forall i | 0 <= i < NUM_REGS && i !in {CONTROL, GIER, IER, ISR} :: dev.regs[i] == old(dev.regs[i]))
                && (Waits(dev.waitType) ==> dev.flag == 1 && dev.regs[ISR] == old(dev.regs[ISR]) / 2 * 2)
                && (!Waits(dev.waitType) ==> dev.flag == 0 && dev.regs[ISR] == old(dev.regs[ISR]))
                && dev.mmioLog == old(dev.mmioLog) + ReadWrites(old(dev.regs[CONTROL]), dev.waitType)
    {
      if base.shared.driver == 0 {
        return DEVICE_NOT_INITIALIZED;
      }
      if base.shared.driverOpen {
        var _, _ := dev.Read(controlReads);
      }
      status := OK;
    }
  }
}
