/**
 * Register numbering of the RISC-V target layer (the GDB_REGNO_* enumeration).
 *
 * The concrete numbers are defined by gdb_regs.h, which is not part of this
 * model. The policy and the backend depend only on the orderings that their
 * range tests rely on, so the numbering is a value of type `Layout` and every
 * property is proved for each layout that is `WellFormed`.
 */
module GdbRegs {

  /** GDB_REGNO_ZERO, the hard-wired zero register (also GDB_REGNO_XPR0). */
  const Zero: nat := 0

  datatype Layout = Layout(
    // general-purpose registers x0..x31; x16..x31 are the ones the E extension drops
    xpr15: nat, xpr31: nat,
    // floating-point, vector, matrix tile and matrix accumulator data registers
    fpr0: nat, fpr31: nat,
    v0: nat, v31: nat,
    tr0: nat, tr7: nat,
    acc0: nat, acc7: nat,
    // control-and-status registers named by the cacheability policy
    dpc: nat, vstart: nat, vxsat: nat, vxrm: nat, vlenb: nat, vl: nat, vtype: nat,
    mstart: nat, mcsr: nat, mtype: nat, mtilem: nat, mtilen: nat, mtilek: nat,
    mlenb: nat, mrlenb: nat, mamul: nat,
    misa: nat, dcsr: nat, dscratch0: nat, mstatus: nat, mepc: nat, mcause: nat, satp: nat,
    tselect: nat, tdata1: nat, tdata2: nat)
  {
    /** The CSRs whose value does not change behind the debugger's back, in switch order. */
    function StableCsrs(): seq<nat> {
      [dpc, vstart, vxsat, vxrm, vlenb, vl, vtype,
       mstart, mcsr, mtype, mtilem, mtilen, mtilek, mlenb, mrlenb, mamul,
       misa, dcsr, dscratch0, mstatus, mepc, mcause, satp]
    }

    /** The trigger CSRs, whose value depends on the hidden trigger selection. */
    function TriggerCsrs(): seq<nat> {
      [tselect, tdata1, tdata2]
    }

    predicate IsFpr(n: nat) { fpr0 <= n <= fpr31 }
    predicate IsVector(n: nat) { v0 <= n <= v31 }
    predicate IsTile(n: nat) { tr0 <= n <= tr7 }
    predicate IsAcc(n: nat) { acc0 <= n <= acc7 }

    /** x16..x31: the registers an RV32E/RV64E hart does not implement. */
    predicate IsUpperXpr(n: nat) { xpr15 < n <= xpr31 }

    /** The registers the policy treats as plain data stores (the zero register included). */
    predicate IsDataReg(n: nat) {
      n <= xpr31 || IsFpr(n) || IsVector(n) || IsTile(n) || IsAcc(n)
    }

    /** The registers that the backend moves as whole buffers rather than as 64-bit values. */
    predicate IsBufferReg(n: nat) { IsVector(n) || IsTile(n) }

    /** A CSR number that none of the data-register range tests catches. */
    predicate OutsideDataRanges(c: nat) { !IsDataReg(c) }

    /**
     * The orderings the range tests rely on: ZERO <= XPR15 < XPR31, the other data
     * ranges lie above XPR31 and are non-empty, and every CSR the policy names lies
     * outside all data ranges. The trigger CSRs are distinct from the stable ones
     * (the C switch would not compile otherwise).
     */
    predicate WellFormed() {
      && Zero <= xpr15 < xpr31
      && xpr31 < fpr0 <= fpr31
      && xpr31 < v0 <= v31
      && xpr31 < tr0 <= tr7
      && xpr31 < acc0 <= acc7
      && OutsideDataRanges(dpc) && OutsideDataRanges(vstart) && OutsideDataRanges(vxsat)
      && OutsideDataRanges(vxrm) && OutsideDataRanges(vlenb) && OutsideDataRanges(vl)
      && OutsideDataRanges(vtype) && OutsideDataRanges(mstart) && OutsideDataRanges(mcsr)
      && OutsideDataRanges(mtype) && OutsideDataRanges(mtilem) && OutsideDataRanges(mtilen)
      && OutsideDataRanges(mtilek) && OutsideDataRanges(mlenb) && OutsideDataRanges(mrlenb)
      && OutsideDataRanges(mamul) && OutsideDataRanges(misa) && OutsideDataRanges(dcsr)
      && OutsideDataRanges(dscratch0) && OutsideDataRanges(mstatus) && OutsideDataRanges(mepc)
      && OutsideDataRanges(mcause) && OutsideDataRanges(satp)
      && OutsideDataRanges(tselect) && OutsideDataRanges(tdata1) && OutsideDataRanges(tdata2)
      && tselect !in StableCsrs() && tdata1 !in StableCsrs() && tdata2 !in StableCsrs()
    }
  }

  /**
   * One concrete numbering. x0..x31 = 0..31, pc = 32, f0..f31 = 33..64, CSR c is
   * register 65 + c (GDB_REGNO_CSR0 = 65), priv = 4161, v0..v31 = 4162..4193. The
   * standard CSR addresses are those of the RISC-V privileged, debug and vector
   * specifications; the matrix CSR addresses and the tile and accumulator numbers
   * are illustrative.
   */
  const Upstream: Layout := Layout(
    15, 31,
    33, 64,
    4162, 4193,
    4194, 4201,
    4202, 4209,
    // dpc 0x7b1, vstart 0x008, vxsat 0x009, vxrm 0x00a, vlenb 0xc22, vl 0xc20, vtype 0xc21
    2034, 73, 74, 75, 3171, 3169, 3170,
    // mstart, mcsr, mtype, mtilem, mtilen, mtilek, mlenb, mrlenb, mamul
    2113, 2114, 2115, 2116, 2117, 2118, 3201, 3202, 3203,
    // misa 0x301, dcsr 0x7b0, dscratch0 0x7b2, mstatus 0x300, mepc 0x341, mcause 0x342, satp 0x180
    834, 2033, 2035, 833, 898, 899, 449,
    // tselect 0x7a0, tdata1 0x7a1, tdata2 0x7a2
    2017, 2018, 2019)

  /** The assumptions are consistent: the concrete numbering meets them. */
  lemma UpstreamWellFormed()
    ensures Upstream.WellFormed()
  {
    var g := Upstream;
    assert g.StableCsrs() == [2034, 73, 74, 75, 3171, 3169, 3170, 2113, 2114, 2115, 2116, 2117,
                              2118, 3201, 3202, 3203, 834, 2033, 2035, 833, 898, 899, 449];
    assert g.tselect !in g.StableCsrs();
    assert g.tdata1 !in g.StableCsrs();
    assert g.tdata2 !in g.StableCsrs();
  }
}
