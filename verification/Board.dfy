/**
 The memory layout that `board_init_f` sets up before relocation, and the parts of
 `board_init_r` that use it afterwards.
 */
module Board {
  import opened Basics
  import opened Arithmetic
  import opened MemoryLayout

  const TLB_SIZE := 4096 * 4
  const LOGBUFF_LEN := 16384
  const LOGBUFF_OVERHEAD := 4096
  const LOGBUFF_RESERVE := LOGBUFF_LEN + LOGBUFF_OVERHEAD
  const PAGE_SIZE := 4096

  datatype Arch = Generic | Arm(irqStacks: Option<nat>)

  datatype LcdMemory = NoLcd | FixedAt(address: nat) | Reserved(bytes: nat)

  /** The configuration options and sizes that decide the layout. */
  datatype Config = Config(
    sdramBase: nat,
    memTopHide: nat,
    maxMemMapped: Option<nat>,
    usableTop: Option<nat>,
    mpBootPage: Option<nat>,
    logBuffer: bool,
    pram: Option<nat>,
    mmu: bool,
    lcd: LcdMemory,
    trace: Option<nat>,
    video: Option<nat>,
    monLen: nat,
    e500: bool,
    mallocLen: nat,
    bdSize: nat,
    gdSize: nat,
    fdt: Option<nat>,
    arch: Arch,
    textBase: nat)

  /** `lcd_setmem` rounds the frame buffer up to full pages and one more. */
  function LcdSize(bytes: nat): nat
  {
    RoundDown(bytes + PAGE_SIZE + (PAGE_SIZE - 1), PAGE_SIZE)
  }

  /** `ALIGN(totalsize + 0x1000, 32)` */
  function FdtSize(total: nat): nat
  {
    RoundDown(total + 0x1000 + 31, 32)
  }

  function LogStep(): Step { Step(LogBuffer, LOGBUFF_RESERVE, 1) }
  function PramStep(kb: nat): Step { Step(Pram, kb * 1024, 1) }
  function TlbStep(): Step { Step(Tlb, TLB_SIZE, 0x10000) }
  function MonitorStep(cfg: Config): Step { Step(Monitor, cfg.monLen, if cfg.e500 then 0x10000 else 4096) }

  /** The alignments that the hardware relies on. */
  predicate WellBuilt(steps: seq<Step>)
  {
    forall i :: 0 <= i < |steps| ==> StepAligned(steps[i])
  }

  predicate StepAligned(step: Step)
  {
    && (step.what == Tlb ==> step.align == 0x10000)
    && (step.what == Monitor ==> step.align == 4096 || step.align == 0x10000)
    && (step.what == ExceptionStack ==> step.align == 16)
  }

  predicate Good(steps: seq<Step>)
  {
    ValidSteps(steps) && WellBuilt(steps)
  }

  function Then(a: seq<Step>, b: seq<Step>): (r: seq<Step>)
    requires Good(a) && Good(b)
    ensures Good(r) && r == a + b
  {
    a + b
  }

  function If(c: bool, step: Step): (r: seq<Step>)
    requires Good([step])
    ensures Good(r) && r == if c then [step] else []
  {
    if c then [step] else []
  }

  /** What is kept from the operating system. */
  function ProtectedSteps(cfg: Config): (steps: seq<Step>)
    ensures Good(steps)
  {
    If(cfg.logBuffer, LogStep())
    + (if cfg.pram.Some? then [PramStep(cfg.pram.value)] else [])
  }

  function LcdSteps(lcd: LcdMemory): (steps: seq<Step>)
    ensures Good(steps)
  {
    if lcd.Reserved? then [Step(Lcd, LcdSize(lcd.bytes), 1)] else []
  }

  function DisplaySteps(cfg: Config): (steps: seq<Step>)
    ensures Good(steps)
  {
    LcdSteps(cfg.lcd)
    + (if cfg.trace.Some? then [Step(Trace, cfg.trace.value, 1)] else [])
    + (if cfg.video.Some? then [Step(Video, cfg.video.value, 1)] else [])
  }

  /** The steps that move `relocaddr`, in the order of `init_sequence_f`. */
  function UpperSteps(cfg: Config): (steps: seq<Step>)
    ensures Good(steps)
  {
    var rounded := Then(ProtectedSteps(cfg), [Step(Rounding, 0, 4096)]);
    Then(Then(Then(rounded, If(cfg.mmu, TlbStep())), DisplaySteps(cfg)), [MonitorStep(cfg)])
  }

  function StackSteps(cfg: Config): (steps: seq<Step>)
    ensures Good(steps) && steps != []
  {
    match cfg.arch
    case Generic => [Step(ExceptionStack, 16, 16)]
    case Arm(None) => [Step(ExceptionStack, 16, 16), Step(AbortStack, 16, 1)]
    case Arm(Some(n)) => [Step(ExceptionStack, 16, 16), Step(IrqStacks, n, 8), Step(AbortStack, 16, 1)]
  }

  /** The steps that move `start_addr_sp`. */
  function LowerSteps(cfg: Config): (steps: seq<Step>)
    ensures Good(steps) && steps != []
  {
    [Step(Malloc, cfg.mallocLen, 1)]
    + [Step(BoardInfo, cfg.bdSize, 1)]
    + [Step(GlobalData, cfg.gdSize, 1)]
    + (if cfg.fdt.Some? then [Step(Fdt, FdtSize(cfg.fdt.value), 1)] else [])
    + StackSteps(cfg)
  }

  function Steps(cfg: Config): (steps: seq<Step>)
    ensures Good(steps) && steps != []
  {
    UpperSteps(cfg) + LowerSteps(cfg)
  }

  function EffectiveMemsize(cfg: Config, ramSize: nat): nat
  {
    if cfg.maxMemMapped.Some? && ramSize > cfg.maxMemMapped.value then cfg.maxMemMapped.value else ramSize
  }

  /** The top of RAM: what the board says is usable, or else all that is mapped. */
  function RamTop(cfg: Config, ramSize: nat): nat
  {
    match cfg.usableTop
    case Some(top) => top
    case None => (cfg.sdramBase + EffectiveMemsize(cfg, ramSize)) % WORD_LIMIT
  }

  /** Where carving starts: the top of usable RAM, or the boot page of the secondary cores. */
  function StartAddress(cfg: Config, ramTop: nat): nat
  {
    if cfg.mpBootPage.Some? && ramTop > cfg.mpBootPage.value then cfg.mpBootPage.value else ramTop
  }

  /** The fields of global data that `setup_reloc` copies to the new location. */
  datatype GdCopy = GdCopy(
    ramSize: nat, ramTop: nat, relocaddr: nat, startAddrSp: nat, relocOff: nat,
    traceBuff: Option<nat>, fdtBlob: Option<nat>)

  class Gd {
    const cfg: Config
    var ramSize: nat
    var ramTop: nat
    var relocaddr: nat
    var startAddrSp: nat
    var relocOff: nat
    var tlbAddr: Option<nat>
    var fbBase: Option<nat>
    var traceBuff: Option<nat>
    var bd: nat
    var newGd: nat
    var fdtBlob: Option<nat>
    var newFdt: Option<nat>
    var irqSp: nat
    var copied: Option<GdCopy>

    /** The address that carving started from and the steps done since. */
    ghost var start: nat
    ghost var done: seq<Step>

    constructor (cfg: Config, ramSize: nat, fdtBlob: Option<nat>)
      ensures this.cfg == cfg && this.ramSize == ramSize && this.fdtBlob == fdtBlob
      ensures tlbAddr == fbBase == traceBuff == newFdt == None && copied == None
      ensures done == []
    {
      this.cfg, this.ramSize, this.fdtBlob := cfg, ramSize, fdtBlob;
      ramTop, relocaddr, startAddrSp, relocOff := 0, 0, 0, 0;
      tlbAddr, fbBase, traceBuff, newFdt, copied := None, None, None, None, None;
      bd, newGd, irqSp := 0, 0, 0;
      start, done := 0, [];
    }

    ghost function Regions(): seq<Region>
      requires ValidSteps(done)
      reads this
    {
      Layout(start, done)
    }

    /** While `relocaddr` is being moved. */
    ghost predicate Carving()
      reads this
    {
      ValidSteps(done) && relocaddr == End(start, done)
    }

    /** While `start_addr_sp` is being moved. */
    ghost predicate Stacking()
      reads this
    {
      ValidSteps(done) && startAddrSp == End(start, done)
    }

    /** Records a step of the layout. */
    ghost method Note(step: Step)
      requires ValidSteps(done) && step.align > 0
      modifies this`done
      ensures done == old(done) + [step] && ValidSteps(done)
      ensures End(start, done) == Place(End(start, old(done)), step)
      ensures Regions() == old(Regions()) + [RegionFor(End(start, old(done)), step)]
    {
      LayoutNext(start, done, step);
      done := done + [step];
    }

    /** `setup_dest_addr` */
    method SetupDestAddr()
      requires done == []
      modifies this`ramSize, this`ramTop, this`relocaddr, this`start
      ensures ramSize == Sub(old(ramSize), cfg.memTopHide)
      ensures ramTop == RamTop(cfg, ramSize)
      ensures start == StartAddress(cfg, ramTop)
      ensures Carving()
    {
      ramSize := Sub(ramSize, cfg.memTopHide);
      ramTop := (cfg.sdramBase + EffectiveMemsize(cfg, ramSize)) % WORD_LIMIT;
      if cfg.usableTop.Some? {
        ramTop := cfg.usableTop.value;
      }
      relocaddr := ramTop;
      if cfg.mpBootPage.Some? && relocaddr > cfg.mpBootPage.value {
        relocaddr := cfg.mpBootPage.value;
      }
      start := relocaddr;
    }

    /** `reserve_logbuffer` */
    method ReserveLogbuffer()
      requires Carving()
      modifies this`relocaddr, this`done
      ensures Carving() && old(Regions()) <= Regions() && done == old(done) + [LogStep()]
    {
      Note(LogStep());
      relocaddr := Sub(relocaddr, LOGBUFF_RESERVE);
    }

    /** `reserve_pram`; `kb` is the value of the environment variable, or its default. */
    method ReservePram(kb: nat)
      requires Carving()
      modifies this`relocaddr, this`done
      ensures Carving() && old(Regions()) <= Regions() && done == old(done) + [PramStep(kb)]
    {
      Note(PramStep(kb));
      relocaddr := Sub(relocaddr, kb * 1024);
    }

    /** `reserve_round_4k` */
    method ReserveRound4k()
      requires Carving() && relocaddr < WORD_LIMIT
      modifies this`relocaddr, this`done
      ensures Carving() && old(Regions()) <= Regions() && done == old(done) + [Step(Rounding, 0, 4096)]
    {
      Note(Step(Rounding, 0, 4096));
      relocaddr := RoundDown(relocaddr, 4096);
    }

    /** `reserve_mmu` */
    method ReserveMmu()
      requires Carving()
      modifies this`relocaddr, this`done, this`tlbAddr
      ensures Carving() && old(Regions()) <= Regions() && done == old(done) + [TlbStep()]
      ensures tlbAddr.Some? && Region(Tlb, tlbAddr.value, TLB_SIZE) in Regions()
    {
      hide Layout, End, Sub, RoundDown;
      Note(TlbStep());
      relocaddr := Sub(relocaddr, TLB_SIZE);
      relocaddr := RoundDown(relocaddr, 0x10000);
      tlbAddr := Some(relocaddr);
      assert Regions()[|done| - 1] == Region(Tlb, relocaddr, TLB_SIZE);
    }

    /** `reserve_lcd`, on a board that has a display */
    method ReserveLcd()
      requires Carving() && cfg.lcd != NoLcd
      modifies this`relocaddr, this`done, this`fbBase
      ensures Carving() && old(Regions()) <= Regions() && done == old(done) + LcdSteps(cfg.lcd)
      ensures cfg.lcd.FixedAt? ==> fbBase == Some(cfg.lcd.address)
      ensures cfg.lcd.Reserved? ==> fbBase.Some? && Region(Lcd, fbBase.value, LcdSize(cfg.lcd.bytes)) in Regions()
    {
      hide Layout, End, LcdSize;
      match cfg.lcd {
        case FixedAt(address) =>
          fbBase := Some(address);
        case Reserved(bytes) =>
          Note(Step(Lcd, LcdSize(bytes), 1));
          relocaddr := Sub(relocaddr, LcdSize(bytes));
          RoundDownToByte(relocaddr);
          fbBase := Some(relocaddr);
          assert Regions()[|done| - 1] == Region(Lcd, relocaddr, LcdSize(bytes));
      }
    }

    /** `reserve_trace` */
    method ReserveTrace(size: nat)
      requires Carving()
      modifies this`relocaddr, this`done, this`traceBuff
      ensures Carving() && old(Regions()) <= Regions() && done == old(done) + [Step(Trace, size, 1)]
      ensures traceBuff.Some? && Region(Trace, traceBuff.value, size) in Regions()
    {
      Note(Step(Trace, size, 1));
      relocaddr := Sub(relocaddr, size);
      traceBuff := Some(relocaddr);
      assert Regions()[|done| - 1] == Region(Trace, relocaddr, size);
    }

    /** `reserve_video` */
    method ReserveVideo(size: nat)
      requires Carving()
      modifies this`relocaddr, this`done, this`fbBase
      ensures Carving() && old(Regions()) <= Regions() && done == old(done) + [Step(Video, size, 1)]
      ensures fbBase.Some? && Region(Video, fbBase.value, size) in Regions()
    {
      Note(Step(Video, size, 1));
      relocaddr := Sub(relocaddr, size);
      fbBase := Some(relocaddr);
      assert Regions()[|done| - 1] == Region(Video, relocaddr, size);
    }

    /** `reserve_uboot` */
    method ReserveUboot()
      requires Carving()
      modifies this`relocaddr, this`startAddrSp, this`done
      ensures Carving() && Stacking() && old(Regions()) <= Regions() && done == old(done) + [MonitorStep(cfg)]
    {
      Note(MonitorStep(cfg));
      relocaddr := Sub(relocaddr, cfg.monLen);
      RoundDownTwice(relocaddr);
      relocaddr := RoundDown(relocaddr, 4096);
      if cfg.e500 {
        relocaddr := RoundDown(relocaddr, 0x10000);
      }
      startAddrSp := relocaddr;
    }

    /** `reserve_malloc` */
    method ReserveMalloc()
      requires Stacking()
      modifies this`startAddrSp, this`done
      ensures Stacking() && old(Regions()) <= Regions() && done == old(done) + [Step(Malloc, cfg.mallocLen, 1)]
    {
      Note(Step(Malloc, cfg.mallocLen, 1));
      startAddrSp := Sub(startAddrSp, cfg.mallocLen);
    }

    /** `reserve_board` */
    method ReserveBoard()
      requires Stacking()
      modifies this`startAddrSp, this`done, this`bd
      ensures Stacking() && old(Regions()) <= Regions() && done == old(done) + [Step(BoardInfo, cfg.bdSize, 1)]
      ensures Region(BoardInfo, bd, cfg.bdSize) in Regions()
    {
      Note(Step(BoardInfo, cfg.bdSize, 1));
      startAddrSp := Sub(startAddrSp, cfg.bdSize);
      bd := startAddrSp;
      assert Regions()[|done| - 1] == Region(BoardInfo, bd, cfg.bdSize);
    }

    /** `reserve_global_data` */
    method ReserveGlobalData()
      requires Stacking()
      modifies this`startAddrSp, this`done, this`newGd
      ensures Stacking() && old(Regions()) <= Regions() && done == old(done) + [Step(GlobalData, cfg.gdSize, 1)]
      ensures Region(GlobalData, newGd, cfg.gdSize) in Regions()
    {
      Note(Step(GlobalData, cfg.gdSize, 1));
      startAddrSp := Sub(startAddrSp, cfg.gdSize);
      newGd := startAddrSp;
      assert Regions()[|done| - 1] == Region(GlobalData, newGd, cfg.gdSize);
    }

    /** `reserve_fdt`, when there is a device tree */
    method ReserveFdt(total: nat)
      requires Stacking()
      modifies this`startAddrSp, this`done, this`newFdt
      ensures Stacking() && old(Regions()) <= Regions() && done == old(done) + [Step(Fdt, FdtSize(total), 1)]
      ensures newFdt.Some? && Region(Fdt, newFdt.value, FdtSize(total)) in Regions()
    {
      Note(Step(Fdt, FdtSize(total), 1));
      startAddrSp := Sub(startAddrSp, FdtSize(total));
      newFdt := Some(startAddrSp);
      assert Regions()[|done| - 1] == Region(Fdt, startAddrSp, FdtSize(total));
    }

    method ReserveExceptionStack()
      requires Stacking()
      modifies this`startAddrSp, this`done, this`irqSp
      ensures Stacking() && old(Regions()) <= Regions() && done == old(done) + [Step(ExceptionStack, 16, 16)]
      ensures Region(ExceptionStack, irqSp, 16) in Regions()
    {
      hide Layout, End, Sub, RoundDown;
      Note(Step(ExceptionStack, 16, 16));
      startAddrSp := Sub(startAddrSp, 16);
      startAddrSp := RoundDown(startAddrSp, 16);
      irqSp := startAddrSp;
      assert Regions()[|done| - 1] == Region(ExceptionStack, irqSp, 16);
    }

    method ReserveArmStacks(irq: Option<nat>)
      requires Stacking()
      modifies this`startAddrSp, this`done
      ensures Stacking() && old(Regions()) <= Regions()
      ensures done == old(done) + (if irq.Some? then [Step(IrqStacks, irq.value, 8)] else []) + [Step(AbortStack, 16, 1)]
    {
      hide Layout, End;
      if irq.Some? {
        Note(Step(IrqStacks, irq.value, 8));
        startAddrSp := Sub(startAddrSp, irq.value);
        startAddrSp := RoundDown(startAddrSp, 8);
      }
      Note(Step(AbortStack, 16, 1));
      startAddrSp := Sub(startAddrSp, 16);
      RoundDownToByte(startAddrSp);
    }

    /** `reserve_stacks` outside SPL */
    method ReserveStacks()
      requires Stacking()
      modifies this`startAddrSp, this`done, this`irqSp
      ensures Stacking() && old(Regions()) <= Regions() && done == old(done) + StackSteps(cfg)
      ensures Region(ExceptionStack, irqSp, 16) in Regions()
    {
      hide Layout, End, Place;
      ReserveExceptionStack();
      match cfg.arch {
        case Generic =>
        case Arm(irq) =>
          ReserveArmStacks(irq);
      }
    }

    /** `reloc_fdt`: from now on the relocated device tree is the one in use. */
    method RelocFdt()
      modifies this`fdtBlob
      ensures fdtBlob == if newFdt.Some? then newFdt else old(fdtBlob)
    {
      if newFdt.Some? {
        fdtBlob := newFdt;
      }
    }

    /** `setup_reloc`: global data as it stands is copied to its new place. */
    method SetupReloc()
      modifies this`relocOff, this`copied
      ensures relocOff == Sub(relocaddr, cfg.textBase)
      ensures copied == Some(GdCopy(ramSize, ramTop, relocaddr, startAddrSp, relocOff, traceBuff, fdtBlob))
    {
      relocOff := Sub(relocaddr, cfg.textBase);
      copied := Some(GdCopy(ramSize, ramTop, relocaddr, startAddrSp, relocOff, traceBuff, fdtBlob));
    }

    /** The pointers that the upper steps leave in global data name the regions reserved for them. */
    ghost predicate UpperRecorded()
      requires ValidSteps(done)
      reads this
    {
      && (cfg.mmu ==> tlbAddr.Some? && Region(Tlb, tlbAddr.value, TLB_SIZE) in Regions())
      && (cfg.lcd.Reserved? && cfg.video.None? ==>
            fbBase.Some? && Region(Lcd, fbBase.value, LcdSize(cfg.lcd.bytes)) in Regions())
      && (cfg.trace.Some? ==> traceBuff.Some? && Region(Trace, traceBuff.value, cfg.trace.value) in Regions())
      && (cfg.video.Some? ==> fbBase.Some? && Region(Video, fbBase.value, cfg.video.value) in Regions())
    }

    ghost predicate LowerRecorded()
      requires ValidSteps(done)
      reads this
    {
      && Region(BoardInfo, bd, cfg.bdSize) in Regions()
      && Region(GlobalData, newGd, cfg.gdSize) in Regions()
      && (cfg.fdt.Some? ==> newFdt.Some? && Region(Fdt, newFdt.value, FdtSize(cfg.fdt.value)) in Regions())
      && Region(ExceptionStack, irqSp, 16) in Regions()
    }

    method ReserveProtected()
      requires Carving() && done == []
      modifies this`relocaddr, this`done
      ensures Carving() && done == ProtectedSteps(cfg)
    {
      if cfg.logBuffer {
        ReserveLogbuffer();
      }
      if cfg.pram.Some? {
        ReservePram(cfg.pram.value);
      }
    }

    method ReserveDisplay()
      requires Carving() && (cfg.mmu ==> tlbAddr.Some? && Region(Tlb, tlbAddr.value, TLB_SIZE) in Regions())
      modifies this`relocaddr, this`done, this`fbBase, this`traceBuff
      ensures Carving() && done == old(done) + DisplaySteps(cfg)
      ensures UpperRecorded()
    {
      hide Layout, End, LcdSize, Place, RoundDown, Sub, Gd.Regions;
      if cfg.lcd != NoLcd {
        ReserveLcd();
      }
      if cfg.trace.Some? {
        ReserveTrace(cfg.trace.value);
      }
      if cfg.video.Some? {
        ReserveVideo(cfg.video.value);
      }
    }

    /** The part of `init_sequence_f` that moves `relocaddr`. */
    method ReserveUpper()
      requires Carving() && done == [] && start < WORD_LIMIT
      modifies this`relocaddr, this`startAddrSp, this`done, this`tlbAddr, this`fbBase, this`traceBuff
      ensures Carving() && Stacking() && done == UpperSteps(cfg)
      ensures UpperRecorded()
    {
      hide Layout, End, ProtectedSteps, DisplaySteps, LcdSize, Place, RoundDown, Sub;
      ReserveProtected();
      EndInRange(start, done);
      ReserveRound4k();
      if cfg.mmu {
        ReserveMmu();
      }
      ReserveDisplay();
      ReserveUboot();
    }

    /** The part of `init_sequence_f` that moves `start_addr_sp`. */
    method ReserveLower()
      requires Stacking() && done == UpperSteps(cfg) && UpperRecorded()
      modifies this`startAddrSp, this`done, this`bd, this`newGd, this`newFdt, this`irqSp
      ensures Stacking() && done == Steps(cfg)
      ensures cfg.fdt.None? ==> newFdt == old(newFdt)
      ensures UpperRecorded() && LowerRecorded()
    {
      hide Layout, End, UpperSteps, StackSteps, LcdSize, FdtSize, Gd.Regions;
      ghost var upper := done;
      ReserveMalloc();
      ReserveBoard();
      ReserveGlobalData();
      if cfg.fdt.Some? {
        ReserveFdt(cfg.fdt.value);
      }
      ReserveStacks();
      assert done == upper + LowerSteps(cfg);
    }

    /**
     The layout part of `init_sequence_f`.  The regions recorded are those of the configuration,
     the pointers left in global data name them, and the copy of global data that the second
     stage runs on holds the final values.
     */
    method BoardInitF()
      requires done == [] && newFdt == None && (fdtBlob.Some? <==> cfg.fdt.Some?)
      requires cfg.mpBootPage.Some? ==> cfg.mpBootPage.value < WORD_LIMIT
      requires cfg.usableTop.Some? ==> cfg.usableTop.value < WORD_LIMIT
      modifies this
      ensures start == StartAddress(cfg, ramTop) && done == Steps(cfg)
      ensures ramTop == RamTop(cfg, ramSize)
      ensures ramSize == Sub(old(ramSize), cfg.memTopHide)
      ensures relocaddr == End(start, UpperSteps(cfg)) && startAddrSp == End(start, Steps(cfg))
      ensures UpperRecorded() && LowerRecorded()
      ensures copied == Some(GdCopy(ramSize, ramTop, relocaddr, startAddrSp, relocOff, traceBuff, newFdt))
    {
      hide Layout, End, UpperSteps, LowerSteps, LcdSize, FdtSize, Sub;
      SetupDestAddr();
      ReserveUpper();
      ReserveLower();
      RelocFdt();
      SetupReloc();
    }
  }

  lemma RoundDownToByte(a: nat)
    ensures RoundDown(a, 1) == a
  {
  }

  lemma EndInRange(cur: nat, steps: seq<Step>)
    requires ValidSteps(steps) && cur < WORD_LIMIT
    ensures End(cur, steps) < WORD_LIMIT
  {
  }

  lemma RoundDownTwice(a: nat)
    ensures RoundDown(RoundDown(a, 4096), 0x10000) == RoundDown(a, 0x10000)
  {
    var q, r := a / 0x10000, a % 0x10000;
    var s, rest := r / 4096, r % 4096;
    Remainder(a, 4096, 16 * q + s, rest);
    Remainder(a - rest, 0x10000, q, 4096 * s);
  }

  // ---------------------------------------------------------------------------------
  // Safety of the layout

  predicate RegionAlignedFor(r: Region)
  {
    && (r.what == Tlb ==> r.start % 0x10000 == 0)
    && (r.what == Monitor ==> r.start % 4096 == 0)
    && (r.what == ExceptionStack ==> r.start % 16 == 0)
  }

  /**
   For every choice of options and all sizes: with RAM for the sizes and the rounding slack, the
   regions are pairwise disjoint and inside RAM, and no address wraps.
   */
  lemma LayoutIsSafe(cfg: Config, start: nat)
    requires start < WORD_LIMIT && cfg.sdramBase + Demand(Steps(cfg)) <= start
    ensures Safe(Layout(start, Steps(cfg)), cfg.sdramBase, start)
    ensures End(start, Steps(cfg)) == IdealEnd(start, Steps(cfg)) >= cfg.sdramBase
    ensures End(start, UpperSteps(cfg)) == IdealEnd(start, UpperSteps(cfg)) >= End(start, Steps(cfg))
  {
    hide UpperSteps, LowerSteps;
    EnoughIsSafe(start, Steps(cfg), cfg.sdramBase);
    NoWrap(start, Steps(cfg));
    IdealEndOfPrefix(start, UpperSteps(cfg), LowerSteps(cfg));
    NoWrap(start, UpperSteps(cfg));
  }

  lemma {:induction false} IdealEndOfPrefix(cur: int, a: seq<Step>, b: seq<Step>)
    requires ValidSteps(a) && ValidSteps(b)
    ensures ValidSteps(a + b) && IdealEnd(cur, a + b) <= IdealEnd(cur, a)
    decreases |b|
  {
    if b == [] {
      assert a + b == a;
    } else {
      var n := |b| - 1;
      assert (a + b)[..|a + b| - 1] == a + b[..n];
      IdealEndOfPrefix(cur, a, b[..n]);
    }
  }

  /** Short of wrapping, the layout is safe exactly when the last address is still in RAM. */
  lemma LayoutSafeIff(cfg: Config, start: nat)
    requires start < WORD_LIMIT && IdealEnd(start, Steps(cfg)) >= 0
    ensures Safe(Layout(start, Steps(cfg)), cfg.sdramBase, start) <==> cfg.sdramBase <= IdealEnd(start, Steps(cfg))
  {
    hide Steps;
    LayoutSafety(start, Steps(cfg), cfg.sdramBase);
  }

  /** The page table, the monitor and the exception stack are aligned, whatever the sizes. */
  lemma LayoutIsAligned(cfg: Config, start: nat, i: nat)
    requires i < |Steps(cfg)|
    ensures RegionAlignedFor(Layout(start, Steps(cfg))[i])
  {
    hide Steps, RoundDown;
    var steps := Steps(cfg);
    LayoutAt(start, steps, i);
    RegionAligned(start, steps, i);
    assert StepAligned(steps[i]);
    if steps[i].what == Monitor && steps[i].align == 0x10000 {
      CoarserAligned(Layout(start, steps)[i].start);
    }
  }

  lemma CoarserAligned(a: nat)
    requires a % 0x10000 == 0
    ensures a % 4096 == 0
  {
    MultipleMod(16 * (a / 0x10000), 4096);
  }

  // ---------------------------------------------------------------------------------
  // The second stage

  /** `initr_malloc`: the arena that it hands to the allocator. */
  function MallocArena(gd: GdCopy, cfg: Config): Region
  {
    Region(Malloc, Sub(gd.relocaddr, cfg.mallocLen), cfg.mallocLen)
  }

  /** `initr_trace`: the buffer that it hands to the tracer. */
  function TraceBuffer(gd: GdCopy, cfg: Config): Option<Region>
  {
    if cfg.trace.Some? && gd.traceBuff.Some?
    then Some(Region(Trace, gd.traceBuff.value, cfg.trace.value))
    else None
  }

  /** The second stage recomputes the malloc arena; it is the region that the first one reserved. */
  lemma MallocArenaWasReserved(cfg: Config, start: nat, gd: GdCopy)
    requires gd.relocaddr == End(start, UpperSteps(cfg))
    ensures MallocArena(gd, cfg) in Layout(start, Steps(cfg))
  {
    hide UpperSteps, Layout, End;
    var steps, i := Steps(cfg), |UpperSteps(cfg)|;
    assert steps[..i] == UpperSteps(cfg);
    assert steps[i] == Step(Malloc, cfg.mallocLen, 1);
    LayoutAt(start, steps, i);
    RoundDownToByte(Sub(gd.relocaddr, cfg.mallocLen));
  }

  /** A whole boot: the second stage uses exactly what the first stage reserved. */
  method HandOff(cfg: Config, ramSize: nat, fdtBlob: Option<nat>) returns (gd: GdCopy, arena: Region, trace: Option<Region>)
    requires fdtBlob.Some? <==> cfg.fdt.Some?
    requires cfg.mpBootPage.Some? ==> cfg.mpBootPage.value < WORD_LIMIT
    requires cfg.usableTop.Some? ==> cfg.usableTop.value < WORD_LIMIT
    ensures var regions := Layout(StartAddress(cfg, gd.ramTop), Steps(cfg));
            && arena == MallocArena(gd, cfg) && arena in regions
            && (cfg.trace.Some? ==> trace.Some? && trace.value in regions && trace.value.what == Trace)
            && (cfg.fdt.Some? ==> gd.fdtBlob.Some? && Region(Fdt, gd.fdtBlob.value, FdtSize(cfg.fdt.value)) in regions)
            && gd.relocaddr == End(StartAddress(cfg, gd.ramTop), UpperSteps(cfg))
            && gd.startAddrSp == End(StartAddress(cfg, gd.ramTop), Steps(cfg))
  {
    hide Layout, End, UpperSteps, LowerSteps, FdtSize, LcdSize, Sub;
    var first := new Gd(cfg, ramSize, fdtBlob);
    first.BoardInitF();
    gd := first.copied.value;
    MallocArenaWasReserved(cfg, first.start, gd);
    arena := MallocArena(gd, cfg);
    trace := TraceBuffer(gd, cfg);
  }

  // ---------------------------------------------------------------------------------
  // Memory that is exported to the operating system

  function PramTotal(cfg: Config): nat
  {
    (if cfg.pram.Some? then cfg.pram.value else 0)
    + (if cfg.logBuffer then (LOGBUFF_LEN + LOGBUFF_OVERHEAD) / 1024 else 0)
  }

  /** `initr_mem`: the value of "mem", in kB, when "pram" has not changed since the first stage. */
  function ExportedKb(gd: GdCopy, cfg: Config): nat
  {
    Sub(gd.ramSize / 1024, PramTotal(cfg))
  }

  lemma IdealEndOne(cur: int, step: Step)
    requires step.align == 1
    ensures IdealEnd(cur, [step]) == cur - step.size
  {
    assert [step][..0] == [];
    assert IdealEnd(cur, []) == cur;
  }

  lemma IdealEndTwo(cur: int, a: Step, b: Step)
    requires a.align == 1 && b.align == 1
    ensures IdealEnd(cur, [a, b]) == cur - a.size - b.size
  {
    hide IdealEnd;
    IdealEndOne(cur, a);
    assert [a, b][..1] == [a];
    IdealEndLast(cur, [a, b]);
  }

  lemma IdealEndLast(cur: int, steps: seq<Step>)
    requires ValidSteps(steps) && steps != [] && steps[|steps| - 1].align == 1
    ensures IdealEnd(cur, steps) == IdealEnd(cur, steps[..|steps| - 1]) - steps[|steps| - 1].size
  {
  }

  lemma ProtectedEnd(cfg: Config, cur: int)
    ensures IdealEnd(cur, ProtectedSteps(cfg)) == cur - 1024 * PramTotal(cfg)
  {
    hide IdealEnd;
    var steps := ProtectedSteps(cfg);
    if cfg.logBuffer && cfg.pram.Some? {
      assert steps == [LogStep(), PramStep(cfg.pram.value)];
      IdealEndTwo(cur, LogStep(), PramStep(cfg.pram.value));
    } else if cfg.logBuffer {
      assert steps == [LogStep()];
      IdealEndOne(cur, LogStep());
    } else if cfg.pram.Some? {
      assert steps == [PramStep(cfg.pram.value)];
      IdealEndOne(cur, PramStep(cfg.pram.value));
    } else {
      assert steps == [];
      IdealEndNone(cur);
    }
  }

  lemma IdealEndNone(cur: int)
    ensures IdealEnd(cur, []) == cur
  {
  }

  /**
   The exported memory stays below the protected RAM and the log buffer exactly when carving
   started no lower than the end of the last whole kilobyte of RAM: not with a boot page for
   secondary cores below it, and not with RAM beyond what is mapped.
   */
  lemma ExportedMemoryIsSafe(cfg: Config, gd: GdCopy, start: nat)
    requires start < WORD_LIMIT && gd.ramSize < WORD_LIMIT
    requires 1024 * PramTotal(cfg) <= start && PramTotal(cfg) <= gd.ramSize / 1024
    ensures cfg.sdramBase + 1024 * ExportedKb(gd, cfg) <= End(start, ProtectedSteps(cfg))
       <==> cfg.sdramBase + gd.ramSize / 1024 * 1024 <= start
  {
    ProtectedEnd(cfg, start);
    NoWrap(start, ProtectedSteps(cfg));
  }

  /** `logbuffer_base` */
  function LogbufferBase(gd: GdCopy): nat
  {
    Sub(gd.ramTop, LOGBUFF_LEN)
  }

  lemma LogbufferAtStart(cfg: Config, start: nat)
    requires cfg.logBuffer && LOGBUFF_RESERVE <= start < WORD_LIMIT
    ensures Layout(start, Steps(cfg))[0] == Region(LogBuffer, start - LOGBUFF_RESERVE, LOGBUFF_RESERVE)
  {
    hide LowerSteps, DisplaySteps, MonitorStep;
    var steps := Steps(cfg);
    assert steps[0] == LogStep();
    assert steps[..0] == [];
    LayoutAt(start, steps, 0);
    RoundDownToByte(Sub(start, LOGBUFF_RESERVE));
  }

  /** The log buffer is inside the region reserved for it exactly when no boot page lies above it. */
  lemma LogbufferIsReserved(cfg: Config, gd: GdCopy)
    requires cfg.logBuffer && gd.ramTop < WORD_LIMIT
    requires LOGBUFF_RESERVE <= StartAddress(cfg, gd.ramTop)
    ensures var log := Layout(StartAddress(cfg, gd.ramTop), Steps(cfg))[0];
            && log.what == LogBuffer
            && (log.start <= LogbufferBase(gd) && LogbufferBase(gd) + LOGBUFF_LEN <= log.start + log.size
                <==> StartAddress(cfg, gd.ramTop) == gd.ramTop)
  {
    hide Layout, Steps;
    LogbufferAtStart(cfg, StartAddress(cfg, gd.ramTop));
  }

  /** A board with 256 MB of RAM, a log buffer, and a boot page for secondary cores in its last page. */
  const BOOT_PAGE_BOARD := Config(
    0, 0, None, None, Some(0x0fff_f000), true, None, false, NoLcd, None, None, 0x8_0000, false, 0x10_0000, 64, 128, None,
    Generic, 0)

  const BOOT_PAGE_GD := GdCopy(0x1000_0000, 0x1000_0000, 0, 0, 0, None, None)

  /** There the log buffer lies partly outside its region, and the exported memory reaches into it. */
  lemma BootPageMovesReservation()
    ensures BOOT_PAGE_GD.ramTop == RamTop(BOOT_PAGE_BOARD, BOOT_PAGE_GD.ramSize)
    ensures var start := StartAddress(BOOT_PAGE_BOARD, BOOT_PAGE_GD.ramTop);
            var log := Layout(start, Steps(BOOT_PAGE_BOARD))[0];
            && log.what == LogBuffer
            && log.start + log.size < LogbufferBase(BOOT_PAGE_GD) + LOGBUFF_LEN
            && End(start, ProtectedSteps(BOOT_PAGE_BOARD)) < 1024 * ExportedKb(BOOT_PAGE_GD, BOOT_PAGE_BOARD)
  {
    var cfg, gd := BOOT_PAGE_BOARD, BOOT_PAGE_GD;
    hide Steps, Layout, End, ProtectedSteps;
    ExportedMemoryIsSafe(cfg, gd, 0x0fff_f000);
    LogbufferAtStart(cfg, 0x0fff_f000);
  }
}
