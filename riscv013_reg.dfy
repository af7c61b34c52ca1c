/**
 * The register accessors of the debug-spec 0.13 backend: how a register read,
 * a register write and a "save before clobbering" change a cache entry around
 * the hardware accesses, and the order in which the register cache is set up.
 *
 * The hardware transport and the other collaborators of the backend are not
 * part of this model. Each call gets the answer recorded for it in a `Replies`
 * value, and the accessors return the list of collaborator calls they made, so
 * that "no transport access" and "before any register write" are statements
 * about that list.
 */
module Riscv013Reg {
  import opened Wrappers
  import opened GdbRegs
  import opened Cacheable
  import opened BinaryBuffer
  import opened RegEntry
  import opened RegTypes
  import opened RegImpl

  /** OpenOCD status codes. */
  const ErrorOk: int := 0
  const ErrorFail: int := -4

  /** A call into a collaborator of the backend. */
  datatype Call =
    | SupportsExtension(ext: char)                      // riscv_supports_extension
    | GetRegisterBuf(regno: nat)                        // riscv013_get_register_buf
    | SetRegisterBuf(regno: nat, bytes: seq<Byte>)      // riscv013_set_register_buf
    | RegGetScalar(regno: nat)                          // riscv_reg_get
    | RegSetScalar(regno: nat, value: nat)              // riscv_reg_set
    | EnumerateTriggers                                 // riscv_enumerate_triggers

  /** What each collaborator answers. */
  datatype Replies = Replies(
    hasE: bool,
    getBufStatus: int, getBufBytes: seq<Byte>,
    setBufStatus: int,
    regGetStatus: int, regGetValue: nat,
    regSetStatus: int,
    enumerateStatus: int)
  {
    /** The buffer read fills a register of `bits` bits, and a scalar read is a uint64_t. */
    predicate FitsRegister(bits: nat) {
      |getBufBytes| == BytesFor(bits) && regGetValue < U64Limit
    }
  }

  /** The extension probe the E hack makes: only for x16..x31 (`&&` short-circuits). */
  function ExtensionProbe(g: Layout, n: nat): seq<Call>
  {
    if g.IsUpperXpr(n) then [SupportsExtension('E')] else []
  }

  /** Whether a write to `n` goes through the trigger enumeration first. */
  predicate IsTriggerData(g: Layout, n: nat) {
    n == g.tdata1 || n == g.tdata2
  }

  /**
   * The effect of the generic riscv_reg_get on the cache entry of the register
   * it reads, as far as this model tracks it: the status is passed on, and on
   * success the entry is trusted if it already was or if the policy trusts a
   * value just read from that register.
   */
  method GenericRegGet(reg: Reg, g: Layout, replies: Replies) returns (status: int)
    modifies reg`valid
    ensures old(reg.Valid()) ==> reg.Valid()
    ensures replies.regGetStatus != ErrorOk ==> status == replies.regGetStatus && reg.valid == old(reg.valid)
    ensures replies.regGetStatus == ErrorOk ==>
      status == ErrorOk && reg.valid == (old(reg.valid) || GdbRegnoCacheable(g, reg.number, false))
  {
    status := replies.regGetStatus;
    if status == ErrorOk {
      reg.valid := reg.valid || GdbRegnoCacheable(g, reg.number, false);
    }
  }

  /**
   * riscv013_reg_get. With the E extension, x16..x31 read as zero without any
   * transport access. Vector and tile registers are read as a whole buffer and
   * then trusted as the cacheability policy says; every other register is read
   * as a 64-bit value, and a failure status is passed on as it is.
   */
  method RegGet(reg: Reg, g: Layout, replies: Replies) returns (status: int, calls: seq<Call>)
    requires g.WellFormed()
    requires reg.Valid() && reg.exist && BytesFor(reg.size) <= reg.value.Length
    requires replies.FitsRegister(reg.size)
    modifies reg`valid, reg.value
    ensures reg.Valid()
    ensures reg.value[BytesFor(reg.size)..] == old(reg.value[BytesFor(reg.size)..])
    // the E hack
    ensures g.IsUpperXpr(reg.number) && replies.hasE ==>
      && status == ErrorOk && calls == [SupportsExtension('E')]
      && reg.value[..BytesFor(reg.size)] == LeBytes(0, BytesFor(reg.size))
      && reg.valid == old(reg.valid)
    // a vector or tile register
    ensures g.IsBufferReg(reg.number) ==>
      && calls == [GetRegisterBuf(reg.number)]
      && (replies.getBufStatus != ErrorOk ==>
            status == ErrorFail && reg.value[..] == old(reg.value[..]) && reg.valid == old(reg.valid))
      && (replies.getBufStatus == ErrorOk ==>
            && status == ErrorOk
            && reg.value[..BytesFor(reg.size)] == replies.getBufBytes
            && reg.valid == GdbRegnoCacheable(g, reg.number, false)
            && reg.valid)
    // every other register
    ensures !(g.IsUpperXpr(reg.number) && replies.hasE) && !g.IsBufferReg(reg.number) ==>
      && calls == ExtensionProbe(g, reg.number) + [RegGetScalar(reg.number)]
      && (replies.regGetStatus != ErrorOk ==>
            status == replies.regGetStatus && reg.value[..] == old(reg.value[..]) && reg.valid == old(reg.valid))
      && (replies.regGetStatus == ErrorOk ==>
            && status == ErrorOk
            && reg.valid == (old(reg.valid) || GdbRegnoCacheable(g, reg.number, false))
            && reg.value[..BytesFor(reg.size)] == LeBytes(replies.regGetValue, BytesFor(reg.size)))
  {
    var n := reg.number;
    calls := [];
    if g.IsUpperXpr(n) {
      calls := calls + [SupportsExtension('E')];
      if replies.hasE {
        SetU64(reg.value, reg.size, 0);
        return ErrorOk, calls;
      }
    }
    if g.IsBufferReg(n) {
      calls := calls + [GetRegisterBuf(n)];
      if replies.getBufStatus != ErrorOk {
        return ErrorFail, calls;
      }
      CopyBytes(reg.value, replies.getBufBytes);
      reg.valid := GdbRegnoCacheable(g, n, false);
    } else {
      calls := calls + [RegGetScalar(n)];
      var result := GenericRegGet(reg, g, replies);
      if result != ErrorOk {
        return result, calls;
      }
      SetU64(reg.value, reg.size, replies.regGetValue);
    }
    return ErrorOk, calls;
  }

  /**
   * riscv013_reg_set. With the E extension, writing zero to x16..x31 does
   * nothing. A write to tdata1 or tdata2 records that the user manages
   * triggers and first lets the trigger enumeration clear stale ones; if that
   * fails, nothing is written. Vector and tile registers are written as a
   * whole buffer, which then becomes the cached value; every other register is
   * written as the 64-bit value of the buffer.
   */
  method RegSet(reg: Reg, info: RiscvInfo, g: Layout, buf: seq<Byte>, replies: Replies)
    returns (status: int, calls: seq<Call>)
    requires g.WellFormed()
    requires reg.Valid() && reg.exist && BytesFor(reg.size) <= reg.value.Length
    requires BytesFor(reg.size) <= |buf|
    modifies reg`valid, reg.value, info`manualHwbpSet
    ensures reg.Valid()
    ensures reg.value[BytesFor(reg.size)..] == old(reg.value[BytesFor(reg.size)..])
    // the E hack: a zero write is dropped
    ensures g.IsUpperXpr(reg.number) && replies.hasE && GetU64(buf, reg.size) == 0 ==>
      && status == ErrorOk && calls == [SupportsExtension('E')]
      && reg.value[..] == old(reg.value[..]) && reg.valid == old(reg.valid)
      && info.manualHwbpSet == old(info.manualHwbpSet)
    // a trigger data register
    ensures IsTriggerData(g, reg.number) ==> info.manualHwbpSet
    ensures !IsTriggerData(g, reg.number) ==> info.manualHwbpSet == old(info.manualHwbpSet)
    ensures IsTriggerData(g, reg.number) && replies.enumerateStatus != ErrorOk ==>
      && status == ErrorFail && calls == [EnumerateTriggers]
      && reg.value[..] == old(reg.value[..]) && reg.valid == old(reg.valid)
    // a vector or tile register
    ensures g.IsBufferReg(reg.number) ==>
      && calls == [SetRegisterBuf(reg.number, buf)]
      && (replies.setBufStatus != ErrorOk ==>
            status == ErrorFail && reg.value[..] == old(reg.value[..]) && reg.valid == old(reg.valid))
      && (replies.setBufStatus == ErrorOk ==>
            && status == ErrorOk
            && reg.value[..BytesFor(reg.size)] == buf[..BytesFor(reg.size)]
            && reg.valid == GdbRegnoCacheable(g, reg.number, true)
            && reg.valid)
    // every other register: what happens to the entry is up to riscv_reg_set
    ensures !(g.IsUpperXpr(reg.number) && replies.hasE && GetU64(buf, reg.size) == 0)
            && !g.IsBufferReg(reg.number)
            && !(IsTriggerData(g, reg.number) && replies.enumerateStatus != ErrorOk) ==>
      && calls == ExtensionProbe(g, reg.number)
                  + (if IsTriggerData(g, reg.number) then [EnumerateTriggers] else [])
                  + [RegSetScalar(reg.number, GetU64(buf, reg.size))]
      && status == (if replies.regSetStatus == ErrorOk then ErrorOk else ErrorFail)
  {
    var n, bytes := reg.number, BytesFor(reg.size);
    calls := [];
    if g.IsUpperXpr(n) {
      calls := calls + [SupportsExtension('E')];
      if replies.hasE && GetU64(buf, reg.size) == 0 {
        return ErrorOk, calls;
      }
    }
    if n == g.tdata1 || n == g.tdata2 {
      info.manualHwbpSet := true;
      calls := calls + [EnumerateTriggers];
      if replies.enumerateStatus != ErrorOk {
        return ErrorFail, calls;
      }
    }
    if g.IsBufferReg(n) {
      calls := calls + [SetRegisterBuf(n, buf)];
      if replies.setBufStatus != ErrorOk {
        return ErrorFail, calls;
      }
      CopyBytes(reg.value, buf[..bytes]);
      reg.valid := GdbRegnoCacheable(g, n, true);
    } else {
      var value := GetU64(buf, reg.size);
      calls := calls + [RegSetScalar(n, value)];
      if replies.regSetStatus != ErrorOk {
        return ErrorFail, calls;
      }
    }
    return ErrorOk, calls;
  }

  /** The part of `struct target` the backend reads here. */
  class Target {
    const id: TargetRef
    /** target->state == TARGET_HALTED */
    var halted: bool
    /** target_was_examined(target) */
    var examined: bool
    /** target->reg_cache, indexed by register number; None before it is created. */
    var regCache: Option<seq<Reg>>
    const info: RiscvInfo

    constructor (id: TargetRef, info: RiscvInfo)
      ensures this.id == id && this.info == info
      ensures !halted && !examined && regCache == None
    {
      this.id, this.info := id, info;
      halted, examined, regCache := false, false, None;
    }

    /** riscv_reg_impl_cache_entry(target, regno), as a frame: the entry if there is one. */
    function EntryAt(regno: nat): set<Reg>
      reads this
    {
      if regCache.Some? && regno < |regCache.value| then {regCache.value[regno]} else {}
    }
  }

  /**
   * riscv013_reg_save: before the caller clobbers a register, make sure its
   * value is in the cache and mark the entry dirty, so that the value is
   * written back on resume. Only a halted target can be saved; before the
   * cache exists (during examine) there is nothing to do.
   */
  method RegSave(t: Target, g: Layout, regid: nat, replies: Replies) returns (status: int, calls: seq<Call>)
    // the assertions of the source: only cacheable registers are saved, and the
    // cache is missing only before the target is examined
    requires t.halted ==> GdbRegnoCacheable(g, regid, false)
    requires t.halted && t.regCache.None? ==> !t.examined
    // riscv_reg_impl_cache_entry(target, regid) is the entry of register regid
    requires t.regCache.Some? ==> regid < |t.regCache.value| && t.regCache.value[regid].number == regid
    modifies t.EntryAt(regid)`valid, t.EntryAt(regid)`dirty
    ensures !t.halted ==> status == ErrorFail && calls == [] && unchanged(t.EntryAt(regid))
    ensures t.halted && t.regCache.None? ==> status == ErrorOk && calls == []
    ensures t.halted && t.regCache.Some? ==>
      && calls == [RegGetScalar(regid)]
      && (replies.regGetStatus != ErrorOk ==>
            status == ErrorFail && unchanged(t.EntryAt(regid)))
      && (replies.regGetStatus == ErrorOk ==>
            status == ErrorOk && t.regCache.value[regid].valid && t.regCache.value[regid].dirty)
    // an entry only becomes dirty on a halted target, and then it is valid
    ensures forall e :: e in t.EntryAt(regid) && e.dirty && !old(e.dirty) ==> t.halted && e.valid
    // the entry invariant is kept
    ensures forall e :: e in t.EntryAt(regid) && old(e.Valid()) ==> e.Valid()
  {
    if !t.halted {
      return ErrorFail, [];
    }
    if t.regCache.None? {
      return ErrorOk, [];
    }
    var reg := t.regCache.value[regid];
    calls := [RegGetScalar(regid)];
    var result := GenericRegGet(reg, g, replies);
    if result != ErrorOk {
      return ErrorFail, calls;
    }
    // the register is cacheable, so the entry is valid now
    assert reg.valid;
    reg.dirty := true;
    status := ErrorOk;
  }

  /** The steps of riscv013_reg_init_all. */
  datatype InitStep =
    | InitCache                 // riscv_reg_impl_init_cache
    | InitShared                // init_shared_reg_info
    | InitVectorType            // riscv_reg_impl_init_vector_reg_type
    | InitMatrixType            // riscv_reg_impl_init_matrix_reg_type
    | InitReg(regno: nat)       // riscv013_init_reg
    | ExposeCsrs                // riscv_reg_impl_expose_csrs
    | HideCsrs                  // riscv_reg_impl_hide_csrs

  /** What the collaborators of init_all answer: the cache size and each fallible step's status. */
  datatype InitReplies = InitReplies(cacheStatus: int, numRegs: nat, regStatus: seq<int>, exposeStatus: int)

  /** The per-register steps for registers 0 .. n-1, in ascending order. */
  function RegSteps(n: nat): seq<InitStep>
  {
    seq(n, i requires 0 <= i < n => InitReg(i))
  }

  /** The steps of init_all in program order, for a cache of numRegs entries. */
  function InitOrder(numRegs: nat): (r: seq<InitStep>)
    ensures |r| == numRegs + 6
    ensures r[0] == InitCache && r[|r| - 2] == ExposeCsrs && r[|r| - 1] == HideCsrs
    ensures forall i :: 0 <= i < numRegs ==> r[4 + i] == InitReg(i)
  {
    [InitCache, InitShared, InitVectorType, InitMatrixType] + RegSteps(numRegs) + [ExposeCsrs, HideCsrs]
  }

  /** Whether a step succeeds: only the cache, the per-register set-up and the CSR exposure can fail. */
  predicate StepOk(r: InitReplies, s: InitStep) {
    match s
    case InitCache => r.cacheStatus == ErrorOk
    case InitReg(regno) => regno < |r.regStatus| && r.regStatus[regno] == ErrorOk
    case ExposeCsrs => r.exposeStatus == ErrorOk
    case _ => true
  }

  predicate AllOk(r: InitReplies, steps: seq<InitStep>) {
    forall i :: 0 <= i < |steps| ==> StepOk(r, steps[i])
  }

  /** The steps carried out: all of them, up to and including the first that fails. */
  function RunUntilFailure(r: InitReplies, steps: seq<InitStep>): (run: seq<InitStep>)
    decreases |steps|
  {
    if steps == [] then []
    else if !StepOk(r, steps[0]) then [steps[0]]
    else [steps[0]] + RunUntilFailure(r, steps[1..])
  }

  /**
   * The run is a prefix of the steps; every step in it succeeds except,
   * possibly, the last; when all steps succeed it is all of them, and
   * otherwise it ends with a step that fails.
   */
  lemma {:induction false} RunUntilFailureShape(r: InitReplies, steps: seq<InitStep>)
    ensures RunUntilFailure(r, steps) <= steps
    ensures forall i :: 0 <= i < |RunUntilFailure(r, steps)| - 1 ==> StepOk(r, RunUntilFailure(r, steps)[i])
    ensures AllOk(r, steps) ==> RunUntilFailure(r, steps) == steps
    ensures !AllOk(r, steps) ==>
      && RunUntilFailure(r, steps) != []
      && !StepOk(r, RunUntilFailure(r, steps)[|RunUntilFailure(r, steps)| - 1])
    decreases |steps|
  {
    if steps != [] && StepOk(r, steps[0]) {
      var rest := steps[1..];
      RunUntilFailureShape(r, rest);
      assert AllOk(r, steps) <==> AllOk(r, rest) by {
        assert forall i :: 1 <= i < |steps| ==> steps[i] == rest[i - 1];
      }
    }
  }

  /** A sequence of steps all succeeds exactly when both its parts do. */
  lemma AllOkConcat(r: InitReplies, a: seq<InitStep>, b: seq<InitStep>)
    ensures AllOk(r, a + b) <==> AllOk(r, a) && AllOk(r, b)
  {
    assert forall i :: 0 <= i < |a| ==> (a + b)[i] == a[i];
    assert forall i :: 0 <= i < |b| ==> (a + b)[|a| + i] == b[i];
  }

  /** Steps that all succeed are followed by the run of what comes after them. */
  lemma {:induction false} RunAfterSuccesses(r: InitReplies, done: seq<InitStep>, rest: seq<InitStep>)
    requires AllOk(r, done)
    ensures RunUntilFailure(r, done + rest) == done + RunUntilFailure(r, rest)
    decreases |done|
  {
    if done != [] {
      var all := done + rest;
      assert all[0] == done[0] && StepOk(r, done[0]);
      assert all[1..] == done[1..] + rest;
      assert AllOk(r, done[1..]) by {
        assert forall i :: 0 <= i < |done| - 1 ==> done[1..][i] == done[i + 1];
      }
      calc {
        RunUntilFailure(r, all);
        [done[0]] + RunUntilFailure(r, all[1..]);
        { RunAfterSuccesses(r, done[1..], rest); }
        [done[0]] + (done[1..] + RunUntilFailure(r, rest));
        { assert [done[0]] + done[1..] == done; }
        done + RunUntilFailure(r, rest);
      }
    } else {
      assert done + rest == rest;
    }
  }

  /** Once a step has failed, nothing after it runs. */
  lemma {:induction false} RunBeforeFailure(r: InitReplies, a: seq<InitStep>, b: seq<InitStep>)
    requires !AllOk(r, a)
    ensures RunUntilFailure(r, a + b) == RunUntilFailure(r, a)
    decreases |a|
  {
    assert a != [];
    assert (a + b)[0] == a[0];
    if StepOk(r, a[0]) {
      assert (a + b)[1..] == a[1..] + b;
      assert !AllOk(r, a[1..]) by {
        assert forall i :: 1 <= i < |a| ==> a[i] == a[1..][i - 1];
      }
      RunBeforeFailure(r, a[1..], b);
    }
  }

  /** A failing cache set-up stops init_all before anything else is done. */
  lemma CacheFailureStopsAll(r: InitReplies)
    requires r.cacheStatus != ErrorOk
    ensures RunUntilFailure(r, InitOrder(r.numRegs)) == [InitCache]
  {
  }

  /**
   * The per-register loop of riscv013_reg_init_all: sets up registers 0, 1, ...
   * in turn and stops at the first whose set-up fails.
   */
  method InitRegisters(r: InitReplies) returns (ok: bool, steps: seq<InitStep>)
    requires |r.regStatus| == r.numRegs
    ensures ok <==> AllOk(r, RegSteps(r.numRegs))
    ensures steps == RunUntilFailure(r, RegSteps(r.numRegs))
  {
    var all := RegSteps(r.numRegs);
    steps := [];
    var regno := 0;
    while regno < r.numRegs
      invariant 0 <= regno <= r.numRegs
      invariant steps == all[..regno]
      invariant AllOk(r, steps)
    {
      steps := steps + [InitReg(regno)];
      if r.regStatus[regno] != ErrorOk {
        assert all == steps + all[regno + 1..];
        assert all == all[..regno] + all[regno..];
        RunAfterSuccesses(r, all[..regno], all[regno..]);
        return false, steps;
      }
      regno := regno + 1;
    }
    assert steps == all;
    RunUntilFailureShape(r, all);
    ok := true;
  }

  /**
   * riscv013_reg_init_all: performs the steps of InitOrder in turn and stops
   * with ERROR_FAIL at the first that fails. The shared register info and the
   * vector and matrix types are built as soon as the cache exists.
   */
  method RegInitAll(t: Target, r: InitReplies) returns (status: int, steps: seq<InitStep>)
    requires t.info.Valid()
    requires |r.regStatus| == r.numRegs
    modifies t.info`sharedRegTarget, t.info`sharedCustomNumber
    modifies t.info`vectorElementTypes, t.info`vectorUnionFields, t.info`typeVector, t.info.vectorFields
    modifies t.info.typeMTile, t.info.typeMTile.fields, t.info.typeMAcc, t.info.typeMAcc.fields
    ensures t.info.Valid()
    ensures steps == RunUntilFailure(r, InitOrder(r.numRegs))
    ensures status == (if AllOk(r, InitOrder(r.numRegs)) then ErrorOk else ErrorFail)
    ensures r.cacheStatus != ErrorOk ==>
      unchanged(t.info, t.info.vectorFields, t.info.typeMTile, t.info.typeMTile.fields,
                t.info.typeMAcc, t.info.typeMAcc.fields)
    ensures r.cacheStatus == ErrorOk ==>
      && t.info.sharedRegTarget == Some(t.id) && t.info.sharedCustomNumber == 0
      && t.info.vectorElementTypes == VectorElementTypes(t.info.vlenb)
      && t.info.vectorFields[..] == LinkedFields(old(t.info.vectorFields[..]), t.info.vlenb, t.info.vectorElementTypes)
      && t.info.vectorUnionFields == t.info.vectorFields
      && t.info.typeVector == ArchUnion("riscv_vector")
      && (t.info.mrlenb == 0 ==>
            && unchanged(t.info.typeMTile, t.info.typeMTile.fields)
            && unchanged(t.info.typeMAcc, t.info.typeMAcc.fields))
      && (t.info.mrlenb > 0 ==>
            && MatrixBuilt(t.info.typeMTile, old(t.info.typeMTile.fields[..]), t.info.mlenb, t.info.mrlenb, 1)
            && MatrixBuilt(t.info.typeMAcc, old(t.info.typeMAcc.fields[..]), t.info.mlenb, t.info.mrlenb,
                           t.info.mamul))
  {
    if r.cacheStatus != ErrorOk {
      return ErrorFail, [InitCache];
    }
    var info := t.info;
    InitSharedRegInfo(info, t.id);
    InitVectorRegType(info);
    InitMatrixRegType(info);
    status, steps := InitSteps(r);
  }

  /** The steps of init_all after the type builders, given that the cache set-up succeeded. */
  method InitSteps(r: InitReplies) returns (status: int, steps: seq<InitStep>)
    requires |r.regStatus| == r.numRegs && r.cacheStatus == ErrorOk
    ensures steps == RunUntilFailure(r, InitOrder(r.numRegs))
    ensures status == (if AllOk(r, InitOrder(r.numRegs)) then ErrorOk else ErrorFail)
  {
    var head: seq<InitStep> := [InitCache, InitShared, InitVectorType, InitMatrixType];
    var regs := RegSteps(r.numRegs);
    var tail: seq<InitStep> := [ExposeCsrs, HideCsrs];
    assert AllOk(r, head);
    assert InitOrder(r.numRegs) == head + (regs + tail);
    AllOkConcat(r, head, regs + tail);
    AllOkConcat(r, regs, tail);
    RunAfterSuccesses(r, head, regs + tail);
    var ok, regSteps := InitRegisters(r);
    if !ok {
      RunBeforeFailure(r, regs, tail);
      return ErrorFail, head + regSteps;
    }
    RunAfterSuccesses(r, regs, tail);
    if r.exposeStatus != ErrorOk {
      assert !AllOk(r, tail);
      return ErrorFail, head + regs + [ExposeCsrs];
    }
    assert AllOk(r, tail);
    RunUntilFailureShape(r, tail);
    return ErrorOk, head + regs + tail;
  }

  /** A vector or tile register is trusted after a read and after a write, so the accessors make it valid. */
  lemma BufferRegistersCacheable(g: Layout, n: nat, isWrite: bool)
    requires g.WellFormed() && g.IsBufferReg(n)
    ensures GdbRegnoCacheable(g, n, isWrite)
  {
  }

  /** The E-hack registers are neither buffer registers nor trigger registers. */
  lemma UpperXprPaths(g: Layout, n: nat)
    requires g.WellFormed() && g.IsUpperXpr(n)
    ensures !g.IsBufferReg(n) && !IsTriggerData(g, n)
  {
  }
}
