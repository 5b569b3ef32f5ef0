/**
 * The kernel character driver of the accelerator (seqdriver.c): the write handler
 * that decodes a command message and programs the registers, the read handler that
 * starts a run and waits for it, and the interrupt handler.
 *
 * The register block is the array `regs` (one element per 32-bit word); `mmioLog`
 * records every `iowrite32` in program order.  What the hardware does on its own
 * is given to the handlers as parameters: the successive values the polling loop
 * reads from control, and the completion interrupt, which the model delivers by
 * raising the done bit of isr and calling the interrupt handler: before the wait in
 * interrupt mode, and once the loop has seen ap_done in polling mode (the read
 * handler keeps the done interrupt enabled while it polls).
 */
module SeqDriver {
  import opened Common
  import opened RegisterMap

  const IRQ_HANDLED: int := 1

  /** The wait types for which seq_read waits for the run, and so sees its done interrupt. */
  predicate Waits(waitType: u32) {
    waitType == INTERRUPT || waitType == POLLING
  }

  /**
   * The iowrite32 calls of seq_read when control held `control`: enable the done
   * interrupt, raise ap_start, the handler's isr write if the run is waited for,
   * and disable the interrupt again.
   */
  ghost function ReadWrites(control: u32, waitType: u32): seq<MmioWrite> {
    [MmioWrite(GIER, 1), MmioWrite(IER, 1), MmioWrite(CONTROL, SetBit0(control))]
    + (if Waits(waitType) then [MmioWrite(ISR, 1)] else [])
    + [MmioWrite(GIER, 0), MmioWrite(IER, 0)]
  }

  class SeqDevice {
    /** The ioremapped register file. */
    const regs: array<u32>
    /** The driver's static `wait_type`, set by the last accepted write. */
    var waitType: u32
    /** The global `flag` that the interrupt handler raises. */
    var flag: int
    ghost var mmioLog: seq<MmioWrite>

    ghost predicate Valid()
      reads this
    {
      regs.Length == NUM_REGS
    }

    /** The driver's state after module initialisation mapped the registers. */
    constructor (regs: array<u32>)
      requires regs.Length == NUM_REGS
      ensures Valid() && this.regs == regs
      ensures waitType == INTERRUPT && flag == 0 && mmioLog == []
    {
      this.regs := regs;
      waitType := INTERRUPT;
      flag := 0;
      mmioLog := [];
    }

    /** iowrite32 to a register that stores what is written. */
    method IoWrite(reg: nat, value: u32)
      requires Valid() && reg < NUM_REGS
      modifies regs, this`mmioLog
      ensures regs[..] == old(regs[..])[reg := value]
      ensures mmioLog == old(mmioLog) + [MmioWrite(reg, value)]
    {
      regs[reg] := value;
      mmioLog := mmioLog + [MmioWrite(reg, value)];
    }

    /**
     * seq_write: `userBytes` are the bytes readable at the caller's buffer (the copy
     * from user space fails when fewer than a whole message are readable) and
     * `count` is the length the caller passed.
     */
    method Write(userBytes: seq<u8>, count: nat) returns (r: int)
      requires Valid()
      modifies regs, this`waitType, this`mmioLog
      ensures count < MESSAGE_SIZE || |userBytes| < MESSAGE_SIZE ==>
                r == -1 && regs[..] == old(regs[..]) && waitType == old(waitType) && mmioLog == old(mmioLog)
      ensures count >= MESSAGE_SIZE && |userBytes| >= MESSAGE_SIZE ==>
                && r == 0
                && regs[..] == Programmed(old(regs[..]), Decode(userBytes[..MESSAGE_SIZE]))
                && mmioLog == old(mmioLog) + ProgramWrites(Decode(userBytes[..MESSAGE_SIZE]))
                && waitType == Decode(userBytes[..MESSAGE_SIZE]).waitType
    {
      if count < MESSAGE_SIZE {
        return -1;
      }
      if |userBytes| < MESSAGE_SIZE {
        return -1;
      }
      var message := Decode(userBytes[..MESSAGE_SIZE]);
      ProgramTarget(message);
      ProgramQuery(message);
      assert mmioLog == old(mmioLog) + ProgramWrites(message);
      waitType := message.waitType;
      r := 0;
    }

    /** The writes of the target half of a message. */
    method ProgramTarget(message: WriteMessage)
      requires Valid()
      modifies regs, this`mmioLog
      ensures regs[..] == ProgrammedTarget(old(regs[..]), message)
      ensures mmioLog == old(mmioLog) + TargetWrites(message)
    {
      IoWrite(BIT_SET_REF_1, Lo(message.seqT));
      IoWrite(BIT_SET_REF_2, Hi(message.seqT));
      IoWrite(NSEQT, message.nSeqT);
      IoWrite(LENGTH_REF_1, Lo(message.lengthSeqT));
      IoWrite(LENGTH_REF_2, Hi(message.lengthSeqT));
    }

    /** The writes of the query half of a message. */
    method ProgramQuery(message: WriteMessage)
      requires Valid()
      modifies regs, this`mmioLog
      ensures regs[..] == ProgrammedQuery(old(regs[..]), message)
      ensures mmioLog == old(mmioLog) + QueryWrites(message)
    {
      IoWrite(BIT_SET_PAT_1, Lo(message.seqQ));
      IoWrite(BIT_SET_PAT_2, Hi(message.seqQ));
      IoWrite(NSEQP, message.nSeqQ);
      IoWrite(LENGTH_PAT_1, Lo(message.lengthSeqQ));
      IoWrite(LENGTH_PAT_2, Hi(message.lengthSeqQ));
      IoWrite(OUTPUT_1, Lo(message.minPos));
      IoWrite(OUTPUT_2, Hi(message.minPos));
    }

    /**
     * seqIRQHandler: writes 1 to the toggle-on-write isr, which disarms the done
     * interrupt, and raises `flag` for the waiting reader.
     */
    method IrqHandler() returns (handled: int)
      requires Valid()
      modifies regs, this`flag, this`mmioLog
      ensures handled == IRQ_HANDLED && flag == 1
      ensures regs[..] == old(regs[..])[ISR := ToggleBit0(old(regs[ISR]))]
      ensures mmioLog == old(mmioLog) + [MmioWrite(ISR, 1)]
    {
      regs[ISR] := ToggleBit0(regs[ISR]);
      mmioLog := mmioLog + [MmioWrite(ISR, 1)];
      flag := 1;
      handled := IRQ_HANDLED;
    }

    /**
     * seq_read: enables the done interrupt, clears `flag`, starts the run, waits
     * as the stored wait type says and disables the interrupt again.  `controlReads`
     * are the values the polling loop reads from control; in polling mode the
     * accelerator finishes at some point of it.  `polls` is the number of reads.
     */
    method Read(controlReads: seq<u32>) returns (r: int, polls: nat)
      requires Valid()
      requires waitType == POLLING ==> exists k :: 0 <= k < |controlReads| && Done(controlReads[k])
      modifies regs, this`flag, this`mmioLog
      ensures r == 0
      ensures regs[GIER] == 0 && regs[IER] == 0
      ensures regs[CONTROL] == SetBit0(old(regs[CONTROL]))
      ensures forall i | 0 <= i < NUM_REGS && i !in {CONTROL, GIER, IER, ISR} :: regs[i] == old(regs[i])
      ensures Waits(waitType) ==> flag == 1 && regs[ISR] == old(regs[ISR]) / 2 * 2
      ensures !Waits(waitType) ==> flag == 0 && regs[ISR] == old(regs[ISR])
      ensures waitType == POLLING ==>
                && 0 < polls <= |controlReads| && Done(controlReads[polls - 1])
                && forall k | 0 <= k < polls - 1 :: !Done(controlReads[k])
      ensures waitType != POLLING ==> polls == 0
      ensures mmioLog == old(mmioLog) + ReadWrites(old(regs[CONTROL]), waitType)
    {
      IoWrite(GIER, 1);
      IoWrite(IER, 1);
      flag := 0;
      var status := regs[CONTROL];
      status := SetBit0(status);
      IoWrite(CONTROL, status);
      polls := 0;
      if waitType == INTERRUPT {
        // the run completes: the hardware raises the done bit of isr and the
        // interrupt handler runs
        regs[ISR] := SetBit0(regs[ISR]);
        var _ := IrqHandler();
        assert flag != 0;
      } else if waitType == POLLING {
        status := controlReads[0];
        polls := 1;
        while !Done(status)
          invariant 0 < polls <= |controlReads| && status == controlReads[polls - 1]
          invariant forall k | 0 <= k < polls - 1 :: !Done(controlReads[k])
          decreases |controlReads| - polls
        {
          status := controlReads[polls];
          polls := polls + 1;
        }
        // ap_done rose with the done interrupt enabled: the handler runs
        regs[ISR] := SetBit0(regs[ISR]);
        var _ := IrqHandler();
      }
      IoWrite(GIER, 0);
      IoWrite(IER, 0);
      r := 0;
    }
  }
}
