# RISC-V register cache: a Dafny model

This project models the register-cache core of OpenOCD's RISC-V target layer. The model has four parts:

- the cacheability policy that says when a value just read from, or written to, a register may be trusted without going back to the hardware;
- the consistency check on a cache entry (`struct reg`);
- the builders of the GDB type descriptors for the vector registers and for the matrix tile and accumulator registers;
- the 0.13-debug-spec backend's register accessors: `riscv013_reg_get`, `riscv013_reg_set`, `riscv013_reg_save`, and the step order of `riscv013_reg_init_all`.

Modules:

- `GdbRegs` (`gdb_regs.dfy`): the `GDB_REGNO_*` numbering, as a `Layout` of named numbers.
  - `WellFormed()` states the orderings that the range tests rely on.
  - Every property about register numbers is proved for every well-formed layout, apart from the examples on `Upstream`.
  - `Upstream` is one concrete layout that meets the assumptions.
- `Cacheable` (`cacheable.dfy`): `riscv_reg_impl_gdb_regno_cacheable` and its case table.
- `BinaryBuffer` (`binary_buffer.dfy`): register value buffers as byte arrays.
  - Also `buf_set_u64`, `buf_get_u64` and `memcpy` at bit offset 0, with little-endian round-trip lemmas.
- `RegEntry` (`reg_entry.dfy`): the cache entry as a class, and `riscv_reg_impl_is_initialized`.
- `RegTypes` (`reg_types.dfy`): type descriptors.
  - A union's five fields are linked through `next` indices into the fixed field array.
  - `Members` is what a consumer walking the chain from field 0 sees.
- `RegImpl` (`reg_impl.dfy`): the per-target type information (`riscv_info_t`) and the part of it the builders write.
  - `init_shared_reg_info` and the vector and matrix type builders are methods that update it in place.
- `Riscv013Reg` (`riscv013_reg.dfy`): the 0.13 backend. Its collaborators get the treatment below.
  - The transport, the trigger enumeration, the extension probe, and the generic `riscv_reg_get`/`riscv_reg_set` answer from a `Replies` value.
  - Every accessor returns the list of collaborator calls it made.
  - So "without any transport access" and "before any register write" are statements about that list.
  - `init_all`'s collaborators are opaque steps whose status comes from an `InitReplies` value.

## Model

| member | source | states |
|---|---|---|
| `GdbRegs.UpstreamWellFormed` | src/target/riscv/riscv_reg_impl.h:304-354 | The ordering assumptions the range tests rest on are consistent: one concrete numbering meets all of them. |
| `Cacheable.GdbRegnoCacheable` | src/target/riscv/riscv_reg_impl.h:301-356 | A write is trusted exactly for the data registers other than x0. A read is trusted exactly for the data registers and the listed stable CSRs. |
| `Cacheable.ZeroIsReadOnlyCacheable` | src/target/riscv/riscv_reg_impl.h:304-305 | `cacheable(ZERO, w) == !w`. |
| `Cacheable.DataRegistersCacheable` | src/target/riscv/riscv_reg_impl.h:307-316 | Every GPR other than x0, and every FPR, V, TR and ACC register, is cacheable for both reads and writes. |
| `Cacheable.StableCsrsReadOnlyCacheable` | src/target/riscv/riscv_reg_impl.h:320-348 | Each listed CSR (DPC, VSTART … MAMUL, MISA, DCSR, DSCRATCH0, MSTATUS, MEPC, MCAUSE, SATP) is cacheable exactly for reads. |
| `Cacheable.TriggerCsrsNeverCacheable` | src/target/riscv/riscv_reg_impl.h:350-354 | TSELECT, TDATA1 and TDATA2 are cacheable in neither direction. |
| `Cacheable.UnlistedNeverCacheable` | src/target/riscv/riscv_reg_impl.h:353-354 | A register in no data range and not in the list is cacheable in neither direction. |
| `Cacheable.WriteCacheableImpliesReadCacheable` | src/target/riscv/riscv_reg_impl.h:301-356 | Monotonicity: `cacheable(r, true) ⇒ cacheable(r, false)` for every register. |
| `Cacheable.PolicyIsClassTable` | src/target/riscv/riscv_reg_impl.h:301-356 | The policy equals a four-row class table (zero, plain data, stable CSR, untrackable), checked in the source's priority order. |
| `Cacheable.UpstreamExamples` | src/target/riscv/riscv_reg_impl.h:307-354 | On the concrete numbering: x5 is trusted both ways, mstatus for reads only, tdata1 never. |
| `BinaryBuffer.SetU64` | src/target/riscv/riscv-013_reg.c:21 | `buf_set_u64`: the register's DIV_ROUND_UP(size, 8) bytes become the little-endian encoding of the value; later bytes are untouched. |
| `BinaryBuffer.CopyBytes` | src/target/riscv/riscv-013_reg.c:77 | `memcpy`: the copied prefix equals the source bytes; the rest of the destination is untouched. |
| `BinaryBuffer.GetU64` | src/target/riscv/riscv-013_reg.c:58 | `buf_get_u64` yields a value below 2^64, the little-endian value of the register's first min(DIV_ROUND_UP(size, 8), 8) bytes. |
| `BinaryBuffer.GetAfterSet` | src/target/riscv/riscv-013_reg.c:36 | What `buf_set_u64` stored reads back as the value truncated to the register's width (at most 64 bits). |
| `BinaryBuffer.GetAfterSetWide` | src/target/riscv/riscv-013_reg.c:36 | For a register of at least 64 bits, a 64-bit value reads back unchanged. |
| `BinaryBuffer.GetAfterSetZero` | src/target/riscv/riscv-013_reg.c:21 | A register whose bytes were set to the encoding of zero reads as zero. |
| `BinaryBuffer.GetZeroIff` | src/target/riscv/riscv-013_reg.c:58 | `buf_get_u64(buf, 0, size) == 0` exactly when every byte it reads is zero. |
| `RegEntry.Reg.constructor` | src/target/riscv/riscv_reg_impl.h:23 | A new entry is the all-zero default entry. |
| `RegEntry.Reg.IsInitialized` | src/target/riscv/riscv_reg_impl.h:19-32 | Returns false exactly when `feature` is null and the entry is the all-zero default. Returns true exactly when `feature` is set and all of these hold: owner and owner target present, `exist` ⇔ buffer present, `dirty` ⇒ `valid`. Every other entry fails an assertion. |
| `RegEntry.NewEntryIsUninitialized` | src/target/riscv/riscv_reg_impl.h:22-25 | A freshly allocated entry reads as not initialized. |
| `RegEntry.InitializedIffFeature` | src/target/riscv/riscv_reg_impl.h:22-31 | Whenever the check returns, its answer is whether `feature` is set. |
| `RegEntry.InitializedEntryInvariants` | src/target/riscv/riscv_reg_impl.h:27-31 | An entry reported initialized has owner and target, `exist` ⇔ buffer present, and `dirty` ⇒ `valid`. |
| `RegTypes.FitsIffBelowNumFields` | src/target/riscv/riscv_reg_impl.h:120-147 | Field k is set and linked in exactly when k is below 1 + #{t ∈ {2,4,8,16} : len ≥ t}. |
| `RegTypes.ChainOfLinkedFrom` | src/target/riscv/riscv_reg_impl.h:120-148 | Walking the patched links from field k visits k, k+1, … up to the last field that fits. |
| `RegTypes.LinkedFieldsChain` | src/target/riscv/riscv_reg_impl.h:118-148 | The chain from field 0 is 0, 1, …, NumFields(len)-1. Field 4's `next` is always null, and so is the last visited field's. |
| `RegTypes.LinkedFieldsMembers` | src/target/riscv/riscv_reg_impl.h:118-148 | A consumer sees exactly one member per width that fits, named b, s, w, l, q in that order, each with its width's type. Stale unlinked fields never show. |
| `RegTypes.NoMemberTooWide` | src/target/riscv/riscv_reg_impl.h:120-147 | No member other than b is wider than the register. |
| `RegImpl.InitSharedRegInfo` | src/target/riscv/riscv_reg_impl.h:50-55 | The shared register info belongs to the target and has custom number 0. |
| `RegImpl.PatchFieldChain` | src/target/riscv/riscv_reg_impl.h:118-148 | The field array becomes `LinkedFields` of its old contents: b always set; each wider field set and linked in only when its width fits. |
| `RegImpl.VectorTypesFor` | src/target/riscv/riscv_reg_impl.h:83-116 | The five vector descriptors bytes/shorts/words/longs/quads have counts vlenb, vlenb/2, /4, /8, /16. |
| `RegImpl.InitVectorRegType` | src/target/riscv/riscv_reg_impl.h:59-156 | The element types are the per-width vectors of vlenb, the field array is the patched chain, and the union field list is `vector_fields`. The result is the union "riscv_vector". |
| `RegImpl.MatrixElementTypes` | src/target/riscv/riscv_reg_impl.h:168-231 | Row descriptors have (mrlenb·mamul mod 2^32)/w elements. Stack descriptors vector8 … vector128 have mlenb/mrlenb rows. |
| `RegImpl.InitMatrixRegTypeInner` | src/target/riscv/riscv_reg_impl.h:158-271 | The matrix type holds those row and stack types, its chain is gated on mrlenb, its union field list is `matrix_fields`, and the result is the union "riscv_matrix". |
| `RegImpl.InitMatrixRegType` | src/target/riscv/riscv_reg_impl.h:273-285 | When mrlenb == 0 nothing is touched, so nothing is divided by zero. Otherwise the tile type is built with mamul 1 and the accumulator type with the probed mamul. |
| `RegImpl.VectorUnionMembers` | src/target/riscv/riscv_reg_impl.h:83-155 | The vector union's members are b (vlenb bytes), then s, w, l, q with vlenb/2, /4, /8, /16 elements, each present exactly when its width fits. |
| `RegImpl.VectorUnionOf16Bytes` | src/target/riscv/riscv_reg_impl.h:68-81 | A 16-byte vector register gets b16, s8, w4, l2 and q1. |
| `RegImpl.VectorUnionOf1Byte` | src/target/riscv/riscv_reg_impl.h:118-126 | A 1-byte vector register gets the byte member alone. |
| `RegImpl.MatrixUnionMembers` | src/target/riscv/riscv_reg_impl.h:168-263 | Per width that fits in a row, the matrix union has a stack of mlenb/mrlenb rows of (mrlenb·mamul mod 2^32)/w elements, in ascending width. |
| `RegImpl.TileRowCounts` | src/target/riscv/riscv_reg_impl.h:283 | A tile row (mamul 1) of width w holds mrlenb/w elements; nothing wraps. |
| `RegImpl.AccRowCounts` | src/target/riscv/riscv_reg_impl.h:284 | While mrlenb·mamul fits in 32 bits, an accumulator row holds mrlenb·mamul/w elements. |
| `Riscv013Reg.GenericRegGet` | src/target/riscv/riscv-013_reg.c:33-35 | The status of `riscv_reg_get` is passed on. On failure the entry is unchanged; on success the entry is valid if it was or if the policy trusts a value just read. The entry invariant is kept. |
| `Riscv013Reg.RegGet` | src/target/riscv/riscv-013_reg.c:14-43 | The call trace starts with the probe for 'E' exactly when the register is one of x16..x31 (the `&&` at lines 19-20, defined by `ExtensionProbe`; `UpperXprPaths` rules out the other paths for those registers). With E, x16..x31 become zero and OK is returned after the probe alone. For V/TR: a failed buffer read returns FAIL with value and `valid` unchanged; on success the value is the bytes read and `valid` is `cacheable(n, false)`, which is true. Any other register: a failed `riscv_reg_get` passes its status on with the entry unchanged; on success the value is the 64-bit value read and the entry is valid if it was or if the policy trusts the read (the modelled effect of `riscv_reg_get`). Entry invariants are kept. |
| `Riscv013Reg.RegSet` | src/target/riscv/riscv-013_reg.c:45-86 | The call trace starts with the probe for 'E' exactly when the register is one of x16..x31 (the `&&` at lines 56-57, defined by `ExtensionProbe`; `UpperXprPaths` rules out the other paths for those registers). With E, a zero write to x16..x31 returns OK and changes nothing; a non-zero write falls through. TDATA1/TDATA2 set `manual_hwbp_set`, and a failed enumeration returns FAIL before any register write. For V/TR: a failed write leaves the value unchanged; on success the value holds DIV_ROUND_UP(size, 8) bytes of the buffer and `valid` is `cacheable(n, true)`. Any other register is written through `riscv_reg_set` as `buf_get_u64` of the buffer, and its status decides the result. Entry invariants are kept. |
| `Riscv013Reg.RegSave` | src/target/riscv/riscv-013_reg.c:128-165 | A non-halted target: FAIL, nothing changed, no calls. No cache: OK, no calls. Otherwise a failed read gives FAIL with the entry unchanged, and a successful one leaves the entry valid (the register is cacheable) and dirty. An entry becomes dirty only on a halted target, and the entry invariant is kept. |
| `Riscv013Reg.InitOrder` | src/target/riscv/riscv-013_reg.c:104-121 | The order is: cache, shared info, vector type, matrix type, each register in ascending order (InitReg(0) … InitReg(num_regs-1), defined by `RegSteps` after the loop at line 112), expose CSRs, hide CSRs. |
| `Riscv013Reg.RunUntilFailureShape` | src/target/riscv/riscv-013_reg.c:104-121 | The steps carried out are a prefix of the order, and all but possibly the last succeed. On full success they are the whole order; otherwise they end with the failing step. |
| `Riscv013Reg.CacheFailureStopsAll` | src/target/riscv/riscv-013_reg.c:104-105 | A failed cache set-up stops init_all before any other step. |
| `Riscv013Reg.InitRegisters` | src/target/riscv/riscv-013_reg.c:112-114 | The register loop sets up registers 0, 1, … and stops at the first failure; it succeeds exactly when every register's set-up does. |
| `Riscv013Reg.InitSteps` | src/target/riscv/riscv-013_reg.c:107-121 | After a successful cache set-up, the steps performed and the status are those of running the order until the first failure. |
| `Riscv013Reg.RegInitAll` | src/target/riscv/riscv-013_reg.c:102-122 | The steps performed are the order up to the first failure, and the status is OK exactly when no step fails. When the cache set-up fails, the target information and all field arrays are unchanged. Otherwise the shared info belongs to the target; the vector element types, patched field chain, union field list and "riscv_vector" union are built; and the matrix types are built when mrlenb > 0 and untouched when it is 0. |
| `Riscv013Reg.BufferRegistersCacheable` | src/target/riscv/riscv-013_reg.c:25-30 | V and TR registers are cacheable in both directions, so a successful buffer access always makes the entry valid (lines 72-78 too). |
| `Riscv013Reg.UpperXprPaths` | src/target/riscv/riscv-013_reg.c:19-26 | x16..x31 are neither buffer registers nor trigger data registers, so the E path excludes the other special paths. |

## Left out

- The hardware transport and the other collaborators are not modelled: `riscv013_get_register_buf`, `riscv013_set_register_buf`, `riscv_reg_get`, `riscv_reg_set`, `riscv_enumerate_triggers` and `riscv_supports_extension`. Their bodies are outside this model. Each answers from a `Replies` value, and the accessors record the calls they make.
- RegGet: a failed `riscv013_get_register_buf` is taken to leave the value buffer as it was. The collaborator's effect on the buffer after a failure cannot be seen.
- RegGet, RegSave: the generic `riscv_reg_get` is outside this model (only its status comes from the replies). Its effect on the cache entry is modelled once, as `GenericRegGet`, and used on both paths that call it (riscv-013_reg.c:33, 152): on success the entry becomes valid if it was or if the policy trusts a value just read. That is what the assertion at riscv-013_reg.c:155-156 relies on. The value it may store in the entry is not modelled; `riscv013_reg_get` then stores the value itself (riscv-013_reg.c:36).
- RegSave: the source's assertions (the register is cacheable; no cache means not examined) are preconditions, and so is the entry that `riscv_reg_impl_cache_entry` returns being the entry of register `regid`. The assertion that the entry is valid after the read is proved from the modelled effect of `riscv_reg_get`.
- The register cache's own operations are only declared in src/target/riscv/riscv_reg_impl.h:37-48 and 288-291; their definitions are not part of this model.
  - `riscv_reg_impl_init_cache`, `riscv_reg_impl_init_one`, `riscv_reg_impl_expose_csrs` and `riscv_reg_impl_hide_csrs` are opaque steps of `RegInitAll`, whose statuses come from an `InitReplies` value. The size of the cache they create is an input.
  - `riscv_reg_impl_cache_entry`, used by `RegSave`, is `Target.EntryAt`; `RegSave` requires that the entry it gives for `regid` has number `regid`.
  - `riscv_reg_impl_get_target` is not modelled: the target an entry belongs to is implicit in the `Replies` its operations are given.
- Logging (`LOG_TARGET_DEBUG`, `buf_to_hex_str`) and the `last_activity = timeval_ms()` timestamp are I/O and clock side effects.
- SetU64, GetU64, CopyBytes: bit-level packing is not modelled. Buffers are byte-granular: a register of `size` bits occupies DIV_ROUND_UP(size, 8) whole bytes. For sizes that are not a multiple of 8, the partial top byte is not masked.
- RegSet: the generic `riscv_reg_set` (riscv-013_reg.c:81) is outside this model. On the scalar path the contract records the value passed to it and its status. It says nothing about what that call does to the cache entry, beyond keeping the entry invariant.
- The static scalar descriptors (`type_uint8` …) are constructors of `ScalarKind`. Their pointer identity and sharing are not modelled, and neither is the split between `reg_data_type` and `reg_data_type_vector` objects.
- The concrete `GDB_REGNO_*` values come from `gdb_regs.h`, which is not part of this model. The model states only the orderings as assumptions. In `Upstream`, the matrix CSR numbers and the TR/ACC register numbers are illustrative.
- ACC0..ACC7 are cacheable data registers under the policy, but the backend reads and writes them through the scalar path. Only V and TR use the buffer path. The model does this as written.
- Three behaviours of the source that a reader might not expect; the model keeps each as written:
  - On a failed buffer read the source leaves `valid` as it was (riscv-013_reg.c:27-28).
  - The byte-vector count is `vlenb` even when `vlenb` is 0 (riscv_reg_impl.h:84).
  - Only a failed scalar read passes the collaborator's status on (riscv-013_reg.c:34-35); every other failure returns ERROR_FAIL.
