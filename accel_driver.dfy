/**
 * The user-space accelerator base class (CAccelDriver): mapping of the register
 * window, the process-wide registry of DMA-compatible buffers, the shared device
 * file descriptor and the live-instance counter.
 *
 * The C++ static members are gathered in one object of class `Shared` that every
 * instance points to; the kernel's contiguous-memory allocator (libxlnk_cma) is the
 * class `Cma`, whose `blocks` are the buffers the process currently holds.  What the
 * allocator, `cma_get_phy_addr`, `cma_mmap` and `open` return is given to the
 * methods as parameters.
 */
module AccelDriver {
  import opened Common

  // TErrors
  const OK: u32 := 0
  const DEVICE_ALREADY_INITIALIZED: u32 := 1
  const DEVICE_NOT_INITIALIZED: u32 := 2
  const ERROR_MAPPING_BASE_ADDR: u32 := 3
  const VIRT_ADDR_NOT_FOUND: u32 := 4
  const ERROR_OPENING_DRIVER: u32 := 5

  /** A null pointer. */
  const NULL: u64 := 0
  /** `(void*)-1`, what `cma_alloc` returns when it fails. */
  const CMA_FAILED: u64 := 0xFFFF_FFFF_FFFF_FFFF
  /** Default size of the register window mapped by `Open`. */
  const DEFAULT_MAPPING_SIZE: u32 := 65536
  /** Default cacheability of a DMA buffer (non-cacheable). */
  const DEFAULT_CACHEABLE: u32 := 0

  /** A DMA-compatible block as the allocator handed it out. */
  datatype DmaBlock = DmaBlock(size: u32, cacheable: u32)

  /** The kernel's contiguous-memory allocator, as seen from this process. */
  class Cma {
    var blocks: map<u64, DmaBlock>

    constructor ()
      ensures blocks == map[]
    {
      blocks := map[];
    }

    /** `cma_free`: the block at `virt` goes back to the kernel. */
    method Free(virt: u64)
      modifies this
      ensures blocks == old(blocks) - {virt}
    {
      blocks := blocks - {virt};
    }
  }

  /** The static members of CAccelDriver. */
  class Shared {
    /** Virtual address of each registered DMA buffer -> its physical address. */
    var dmaMappings: map<u64, u64>
    /** Number of live CAccelDriver instances (uint32_t, wraps). */
    var numModules: u32
    var logging: bool
    /** File descriptor of the kernel device; 0 means "not opened". */
    var driver: i32
    /**
     * Whether `driver` still refers to the open device.  `close` ends that without
     * changing the number, and `write` and `read` on a closed or failed descriptor
     * fail (EBADF) instead of reaching the device.
     */
    var driverOpen: bool
    const cma: Cma

    /**
     * What the registry operations keep: a registered buffer never has the
     * physical address 0 (so 0 can stand for "unknown"), and every registered
     * buffer is still held from the allocator.
     */
    ghost predicate Valid()
      reads this, cma
    {
      && (forall v | v in dmaMappings :: dmaMappings[v] != 0)
      && dmaMappings.Keys <= cma.blocks.Keys
    }

    /** The statics as they stand at program start. */
    constructor (cma: Cma)
      ensures this.cma == cma && Valid()
      ensures dmaMappings == map[] && numModules == 0 && !logging && driver == 0 && !driverOpen
    {
      this.cma := cma;
      dmaMappings := map[];
      numModules := 0;
      logging := false;
      driver := 0;
      driverOpen := false;
    }

    /**
     * AllocDMACompatible: `cmaVirt` is what `cma_alloc` returned and `cmaPhys`
     * what `cma_get_phy_addr` returned for it.
     */
    method AllocDMACompatible(size: u32, cacheable: u32 := DEFAULT_CACHEABLE,
                              nameonly cmaVirt: u64, nameonly cmaPhys: u64)
      returns (virt: u64)
      requires Valid()
      // the allocator never hands out a block that is still held
      requires cmaVirt != CMA_FAILED ==> cmaVirt !in cma.blocks
      modifies this`dmaMappings, cma
      ensures Valid()
      ensures cmaVirt == CMA_FAILED || cmaPhys == 0 ==>
                virt == NULL && dmaMappings == old(dmaMappings) && cma.blocks == old(cma.blocks)
      ensures cmaVirt != CMA_FAILED && cmaPhys != 0 ==>
                && virt == cmaVirt
                && dmaMappings == old(dmaMappings)[cmaVirt := cmaPhys]
                && cma.blocks == old(cma.blocks)[cmaVirt := DmaBlock(size, cacheable)]
    {
      if cmaVirt == CMA_FAILED {
        return NULL;
      }
      cma.blocks := cma.blocks[cmaVirt := DmaBlock(size, cacheable)];
      if cmaPhys == 0 {
        cma.Free(cmaVirt);
        return NULL;
      }
      dmaMappings := dmaMappings[cmaVirt := cmaPhys];
      virt := cmaVirt;
    }

    /** FreeDMACompatible: unregisters the buffer and releases it; always reports true. */
    method FreeDMACompatible(virt: u64) returns (ok: bool)
      requires Valid()
      modifies this`dmaMappings, cma
      ensures Valid() && ok
      ensures dmaMappings == old(dmaMappings) - {virt}
      ensures cma.blocks == old(cma.blocks) - {virt}
    {
      dmaMappings := dmaMappings - {virt};
      cma.Free(virt);
      ok := true;
    }

    /** The registry's answer for `virt`: its physical address, 0 when it is not registered. */
    function Lookup(virt: u64): u64
      reads this
    {
      if virt in dmaMappings then dmaMappings[virt] else 0
    }

    /** GetDMAPhysicalAddr: looks `virt` up without inserting it. */
    method GetDMAPhysicalAddr(virt: u64) returns (phys: u64)
      ensures virt in dmaMappings ==> phys == dmaMappings[virt]
      ensures virt !in dmaMappings ==> phys == 0
      ensures phys == Lookup(virt)
      ensures Valid() ==> (phys == 0 <==> virt !in dmaMappings)
    {
      if virt !in dmaMappings {
        return 0;
      }
      phys := dmaMappings[virt];
    }

    /**
     * InternalEmptyDMAAllocs: when no instance is left, every registered buffer is
     * released to the kernel; in every case the registry is emptied.
     */
    method InternalEmptyDMAAllocs()
      requires Valid()
      modifies this`dmaMappings, cma
      ensures Valid() && dmaMappings == map[]
      ensures numModules == 0 ==> cma.blocks == old(cma.blocks) - old(dmaMappings).Keys
      ensures numModules != 0 ==> cma.blocks == old(cma.blocks)
    {
      if numModules == 0 {
        var pending := dmaMappings.Keys;
        while pending != {}
          invariant pending <= old(dmaMappings).Keys
          invariant cma.blocks == old(cma.blocks) - (old(dmaMappings).Keys - pending)
          decreases pending
        {
          var v :| v in pending;
          cma.Free(v);
          pending := pending - {v};
        }
      }
      dmaMappings := map[];
    }

    /**
     * The registry emptying that the destructor's comment describes: buffers are
     * forgotten (and released) only once the last instance is gone.
     */
    method EmptyDMAAllocsWhenLast()
      requires Valid()
      modifies this`dmaMappings, cma
      ensures Valid()
      ensures numModules == 0 ==> dmaMappings == map[] && cma.blocks == old(cma.blocks) - old(dmaMappings).Keys
      ensures numModules != 0 ==> dmaMappings == old(dmaMappings) && cma.blocks == old(cma.blocks)
    {
      if numModules == 0 {
        InternalEmptyDMAAllocs();
      }
    }
  }

  /** One accelerator instance. */
  class CAccelDriver {
    /** The mapped register window; null when not mapped. */
    var accelRegs: array?<u32>
    var baseAddr: u64
    var mappingSize: u64
    const shared: Shared

    constructor (shared: Shared, logging: bool := false)
      modifies shared`logging, shared`numModules
      ensures this.shared == shared
      ensures accelRegs == null && baseAddr == 0 && mappingSize == 0
      ensures shared.logging == logging
      ensures shared.numModules == ToU32(old(shared.numModules) + 1)
    {
      this.shared := shared;
      accelRegs := null;
      baseAddr := 0;
      mappingSize := 0;
      new;
      shared.logging := logging;
      shared.numModules := ToU32(shared.numModules + 1);
    }

    /**
     * The destructor: drops the register mapping, decrements the instance count
     * and empties the DMA registry.
     */
    method Destroy()
      requires shared.Valid()
      modifies this, shared`numModules, shared`dmaMappings, shared.cma
      ensures shared.Valid()
      ensures accelRegs == null && baseAddr == old(baseAddr) && mappingSize == old(mappingSize)
      ensures shared.numModules == ToU32(old(shared.numModules) - 1)
      ensures shared.dmaMappings == map[]
      ensures shared.numModules == 0 ==>
                shared.cma.blocks == old(shared.cma.blocks) - old(shared.dmaMappings).Keys
      ensures shared.numModules != 0 ==> shared.cma.blocks == old(shared.cma.blocks)
    {
      accelRegs := null;
      shared.numModules := ToU32(shared.numModules - 1);
      shared.InternalEmptyDMAAllocs();
    }

    /** The destructor with the registry emptied only by the last instance. */
    method DestroyKeepingSharedBuffers()
      requires shared.Valid()
      modifies this, shared`numModules, shared`dmaMappings, shared.cma
      ensures shared.Valid()
      ensures accelRegs == null && baseAddr == old(baseAddr) && mappingSize == old(mappingSize)
      ensures shared.numModules == ToU32(old(shared.numModules) - 1)
      ensures shared.numModules == 0 ==>
                && shared.dmaMappings == map[]
                && shared.cma.blocks == old(shared.cma.blocks) - old(shared.dmaMappings).Keys
      ensures shared.numModules != 0 ==>
                shared.dmaMappings == old(shared.dmaMappings) && shared.cma.blocks == old(shared.cma.blocks)
    {
      accelRegs := null;
      shared.numModules := ToU32(shared.numModules - 1);
      shared.EmptyDMAAllocsWhenLast();
    }

    /**
     * Open: maps the register window at `baseAddr`.  `mapped` is what `cma_mmap`
     * gave (null for its -1 failure); `regsOut` is what is stored through the
     * optional out-pointer (None when nothing is stored).
     */
    method Open(baseAddr: u64, mappingSize: u32 := DEFAULT_MAPPING_SIZE, nameonly mapped: array?<u32>)
      returns (status: u32, regsOut: Option<array<u32>>)
      modifies this
      ensures old(accelRegs) != null ==>
                status == DEVICE_ALREADY_INITIALIZED && regsOut == None
                && accelRegs == old(accelRegs) && this.baseAddr == old(this.baseAddr)
                && this.mappingSize == old(this.mappingSize)
      ensures old(accelRegs) == null ==>
                && this.baseAddr == baseAddr && this.mappingSize == mappingSize
                && accelRegs == mapped
                && (mapped == null ==> status == ERROR_MAPPING_BASE_ADDR && regsOut == None)
                && (mapped != null ==> status == OK && regsOut.Some? && regsOut.value == mapped)
    {
      if accelRegs != null {
        return DEVICE_ALREADY_INITIALIZED, None;
      }
      this.mappingSize := mappingSize;
      this.baseAddr := baseAddr;
      accelRegs := mapped;
      if accelRegs == null {
        return ERROR_MAPPING_BASE_ADDR, None;
      }
      status, regsOut := OK, Some(mapped);
    }

    /**
     * OpenDriver: opens the kernel device once per process.  `fd` is what
     * `open` returned (-1 on failure).
     */
    method OpenDriver(driverName: string, nameonly fd: i32) returns (status: u32)
      requires fd >= -1
      modifies shared`driver, shared`driverOpen
      ensures old(shared.driver) != 0 ==>
                && status == DEVICE_ALREADY_INITIALIZED
                && shared.driver == old(shared.driver) && shared.driverOpen == old(shared.driverOpen)
      ensures old(shared.driver) == 0 ==>
                && shared.driver == fd && (shared.driverOpen <==> fd != -1)
                && status == (if fd == -1 then ERROR_OPENING_DRIVER else OK)
    {
      if shared.driver != 0 {
        return DEVICE_ALREADY_INITIALIZED;
      }
      shared.driver := fd;
      if shared.driver == -1 {
        shared.driverOpen := false;
        return ERROR_OPENING_DRIVER;
      }
      shared.driverOpen := true;
      status := OK;
    }

    /**
     * CloseDriver: issues `close` on the descriptor when it is not 0 (`closed`
     * says whether it did).  The descriptor is no longer open, but its number
     * stays stored.
     */
    method CloseDriver() returns (closed: bool)
      modifies shared`driverOpen
      ensures closed <==> shared.driver != 0
      ensures shared.driverOpen == (old(shared.driverOpen) && shared.driver == 0)
    {
      closed := shared.driver != 0;
      if closed {
        shared.driverOpen := false;
      }
    }

    /** CloseDriver that also forgets the descriptor, so that the device can be reopened. */
    method CloseDriverAndForget() returns (closed: bool)
      modifies shared`driver, shared`driverOpen
      ensures closed <==> old(shared.driver) != 0
      ensures shared.driver == 0
      ensures shared.driverOpen == (old(shared.driverOpen) && old(shared.driver) == 0)
    {
      closed := shared.driver != 0;
      if closed {
        shared.driverOpen := false;
      }
      shared.driver := 0;
    }
  }
}
