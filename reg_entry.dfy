/**
 * A register cache entry (`struct reg`) and the check that tells an entry that
 * has not been set up yet from one that has. Each entry goes through three
 * stages: not allocated, allocated but not initialized (every field zero), and
 * initialized (owner recorded, buffer present exactly when the register
 * exists, never dirty without being valid).
 */
module RegEntry {
  import opened Wrappers
  import opened BinaryBuffer

  /** The identity of a target object; pointer identity is all the entry keeps of it. */
  type TargetRef = nat

  /** riscv_reg_info_t: the architecture-specific part of an entry. */
  datatype RegInfo = RegInfo(target: Option<TargetRef>)

  /** The outcome of code that may stop on a failed `assert`. */
  datatype Checked<T> = Returned(value: T) | AssertionFailed

  class Reg {
    var number: nat
    /** The register width in bits. */
    var size: nat
    /** Whether `reg->feature` is set: the entry has been initialized. */
    var hasFeature: bool
    var archInfo: Option<RegInfo>
    var exist: bool
    /** The cached value; null when the register does not exist. */
    var value: array?<Byte>
    var valid: bool
    var dirty: bool

    /** The entry as the cache allocates it: every field zero. */
    predicate IsDefault()
      reads this
    {
      && number == 0 && size == 0 && !hasFeature && archInfo == None
      && !exist && value == null && !valid && !dirty
    }

    /** What an initialized entry must satisfy. */
    predicate Valid()
      reads this
    {
      && hasFeature
      && archInfo.Some? && archInfo.value.target.Some?
      && (exist <==> value != null)
      && (dirty ==> valid)
    }

    constructor ()
      ensures IsDefault()
    {
      number, size := 0, 0;
      hasFeature, archInfo := false, None;
      exist, value := false, null;
      valid, dirty := false, false;
    }

    /**
     * riscv_reg_impl_is_initialized. An entry without a feature must be the
     * all-zero default entry; an entry with one must be fully set up. Anything
     * else fails one of the function's assertions.
     */
    function IsInitialized(): (r: Checked<bool>)
      reads this
      ensures r == Returned(false) <==> !hasFeature && IsDefault()
      ensures r == Returned(true) <==> hasFeature && Valid()
      ensures r == AssertionFailed <==> (!hasFeature && !IsDefault()) || (hasFeature && !Valid())
    {
      if !hasFeature then
        if IsDefault() then Returned(false) else AssertionFailed
      else if archInfo.None? || archInfo.value.target.None? then
        AssertionFailed
      else if !((!exist && value == null) || (exist && value != null)) then
        AssertionFailed
      else if !(valid || !dirty) then
        AssertionFailed
      else
        Returned(true)
    }
  }

  /** A freshly allocated entry reads as not initialized. */
  method NewEntryIsUninitialized() returns (reg: Reg, r: Checked<bool>)
    ensures r == Returned(false)
  {
    reg := new Reg();
    r := reg.IsInitialized();
  }

  /** Whenever the check returns, its answer is whether the entry has a feature. */
  lemma InitializedIffFeature(reg: Reg)
    requires reg.IsInitialized().Returned?
    ensures reg.IsInitialized().value <==> reg.hasFeature
  {
  }

  /** An entry that passes the check as initialized keeps the invariants. */
  lemma InitializedEntryInvariants(reg: Reg)
    requires reg.IsInitialized() == Returned(true)
    ensures reg.archInfo.Some? && reg.archInfo.value.target.Some?
    ensures reg.exist <==> reg.value != null
    ensures reg.dirty ==> reg.valid
  {
  }
}
