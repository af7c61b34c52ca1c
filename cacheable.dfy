/**
 * The cacheability policy of the RISC-V register cache: whether a value just
 * read from (or written to) a register may be trusted without touching the
 * hardware again.
 */
module Cacheable {
  import opened GdbRegs

  /**
   * riscv_reg_impl_gdb_regno_cacheable. For a write: true iff the register is
   * guaranteed to read back exactly the value just written. For a read: true iff
   * it is guaranteed to keep reading the value just read.
   */
  function GdbRegnoCacheable(g: Layout, regno: nat, isWrite: bool): (r: bool)
    // A written value is trusted exactly for the data registers other than x0.
    ensures isWrite ==> (r <==> regno != Zero && g.IsDataReg(regno))
    // A read value is trusted for every data register and for the stable CSRs.
    ensures !isWrite ==> (r <==> g.IsDataReg(regno) || regno in g.StableCsrs())
  {
    if regno == Zero then
      !isWrite
    // general-purpose, floating-point and vector registers are plain data stores
    else if regno <= g.xpr31 || g.IsFpr(regno) || g.IsVector(regno) then
      true
    // so are the matrix tile and accumulator registers
    else if g.IsTile(regno) || g.IsAcc(regno) then
      true
    // WARL CSRs may not hold what was written, but do not change on their own
    else if regno in g.StableCsrs() then
      !isWrite
    // tselect, tdata1, tdata2 and every other register
    else
      false
  }

  /** The zero register is trusted for reads only. */
  lemma ZeroIsReadOnlyCacheable(g: Layout, isWrite: bool)
    ensures GdbRegnoCacheable(g, Zero, isWrite) == !isWrite
  {
  }

  /** Every data register other than x0 is trusted in both directions. */
  lemma DataRegistersCacheable(g: Layout, regno: nat, isWrite: bool)
    requires g.WellFormed()
    requires regno != Zero
    requires regno <= g.xpr31 || g.IsFpr(regno) || g.IsVector(regno) || g.IsTile(regno) || g.IsAcc(regno)
    ensures GdbRegnoCacheable(g, regno, isWrite)
  {
  }

  /** Each listed CSR is trusted after a read and never after a write. */
  lemma StableCsrsReadOnlyCacheable(g: Layout, regno: nat, isWrite: bool)
    requires g.WellFormed()
    requires regno in g.StableCsrs()
    ensures GdbRegnoCacheable(g, regno, isWrite) == !isWrite
  {
  }

  /** tselect, tdata1 and tdata2 are never trusted. */
  lemma TriggerCsrsNeverCacheable(g: Layout, regno: nat, isWrite: bool)
    requires g.WellFormed()
    requires regno in g.TriggerCsrs()
    ensures !GdbRegnoCacheable(g, regno, isWrite)
  {
  }

  /** Neither is any register that the table does not list. */
  lemma UnlistedNeverCacheable(g: Layout, regno: nat, isWrite: bool)
    requires !g.IsDataReg(regno) && regno !in g.StableCsrs()
    ensures !GdbRegnoCacheable(g, regno, isWrite)
  {
  }

  /** Trust after a write implies trust after a read: no register is write-only cacheable. */
  lemma WriteCacheableImpliesReadCacheable(g: Layout, regno: nat)
    ensures GdbRegnoCacheable(g, regno, true) ==> GdbRegnoCacheable(g, regno, false)
  {
  }

  /**
   * The four register classes of the policy and what each trusts. A register's
   * class is decided in the same priority order as the policy.
   */
  datatype RegClass = ZeroReg | PlainData | StableCsr | Untrackable

  function ClassOf(g: Layout, regno: nat): RegClass {
    if regno == Zero then ZeroReg
    else if g.IsDataReg(regno) then PlainData
    else if regno in g.StableCsrs() then StableCsr
    else Untrackable
  }

  function Trusts(c: RegClass, isWrite: bool): bool {
    match c
    case ZeroReg => !isWrite
    case PlainData => true
    case StableCsr => !isWrite
    case Untrackable => false
  }

  /** The policy is exactly the class table. */
  lemma PolicyIsClassTable(g: Layout, regno: nat, isWrite: bool)
    ensures GdbRegnoCacheable(g, regno, isWrite) == Trusts(ClassOf(g, regno), isWrite)
  {
  }

  /** Examples on the concrete numbering: x5, mstatus and tdata1. */
  lemma UpstreamExamples()
    ensures GdbRegnoCacheable(Upstream, 5, true) && GdbRegnoCacheable(Upstream, 5, false)
    ensures !GdbRegnoCacheable(Upstream, Upstream.mstatus, true)
    ensures GdbRegnoCacheable(Upstream, Upstream.mstatus, false)
    ensures !GdbRegnoCacheable(Upstream, Upstream.tdata1, true)
    ensures !GdbRegnoCacheable(Upstream, Upstream.tdata1, false)
  {
    UpstreamWellFormed();
    StableCsrsReadOnlyCacheable(Upstream, Upstream.mstatus, true);
    StableCsrsReadOnlyCacheable(Upstream, Upstream.mstatus, false);
    TriggerCsrsNeverCacheable(Upstream, Upstream.tdata1, true);
    TriggerCsrsNeverCacheable(Upstream, Upstream.tdata1, false);
  }
}
