/**
 * The per-target register-type information of a RISC-V target and the
 * builders that fill it in from the probed register lengths: the union type of
 * the vector registers, and the two-level union types of the matrix tile and
 * accumulator registers.
 */
module RegImpl {
  import opened Wrappers
  import opened RegTypes
  import opened RegEntry

  /** Counts are stored as uint32: products wrap modulo 2^32. */
  const U32Limit: nat := 0x1_0000_0000

  predicate IsU32(x: nat) { x < U32Limit }

  /** `struct matrix_reg_type`: the type of one kind of matrix register. */
  class MatrixRegType {
    /** matrix_n_uintN / type_uintN_matrix_n: one row of elements, per width. */
    var rowTypes: seq<DataType>
    /** matrix_m_uintN / type_uintN_matrix_m: the stack of rows, per width. */
    var stackTypes: seq<DataType>
    /** matrix_fields */
    const fields: array<UnionField>
    /** matrix_union.fields */
    var unionFields: array?<UnionField>
    /** type */
    var unionType: DataType

    constructor ()
      ensures fresh(fields) && fields.Length == Widths
      ensures unionFields == null && unionType == Unset
    {
      rowTypes, stackTypes := [], [];
      fields := new UnionField[Widths](_ => UnionField("", Unset, None));
      unionFields, unionType := null, Unset;
    }
  }

  /** The part of `riscv_info_t` that the register layer reads and writes. */
  class RiscvInfo {
    /** Register lengths in bytes, probed from the hardware. */
    var vlenb: nat
    var mlenb: nat
    var mrlenb: nat
    var mamul: nat

    /** vector_uintN / type_uintN_vector: the per-width vector descriptors. */
    var vectorElementTypes: seq<DataType>
    /** vector_fields */
    const vectorFields: array<UnionField>
    /** vector_union.fields */
    var vectorUnionFields: array?<UnionField>
    /** type_vector */
    var typeVector: DataType

    const typeMTile: MatrixRegType
    const typeMAcc: MatrixRegType

    /** shared_reg_info */
    var sharedRegTarget: Option<TargetRef>
    var sharedCustomNumber: nat

    /** Whether the user has written a trigger register directly. */
    var manualHwbpSet: bool

    /** The fixed field arrays have five entries and are distinct objects. */
    ghost predicate Valid()
      reads this, typeMTile, typeMAcc
    {
      && IsU32(vlenb) && IsU32(mlenb) && IsU32(mrlenb) && IsU32(mamul)
      && vectorFields.Length == Widths
      && typeMTile.fields.Length == Widths && typeMAcc.fields.Length == Widths
      && typeMTile != typeMAcc
      && typeMTile.fields != typeMAcc.fields
      && vectorFields != typeMTile.fields && vectorFields != typeMAcc.fields
    }

    constructor (vlenb: nat, mlenb: nat, mrlenb: nat, mamul: nat)
      requires IsU32(vlenb) && IsU32(mlenb) && IsU32(mrlenb) && IsU32(mamul)
      ensures Valid()
      ensures this.vlenb == vlenb && this.mlenb == mlenb && this.mrlenb == mrlenb && this.mamul == mamul
      ensures fresh(vectorFields) && fresh(typeMTile) && fresh(typeMAcc)
      ensures fresh(typeMTile.fields) && fresh(typeMAcc.fields)
      ensures !manualHwbpSet && sharedRegTarget == None
    {
      this.vlenb, this.mlenb, this.mrlenb, this.mamul := vlenb, mlenb, mrlenb, mamul;
      vectorElementTypes := [];
      vectorFields := new UnionField[Widths](_ => UnionField("", Unset, None));
      vectorUnionFields, typeVector := null, Unset;
      typeMTile := new MatrixRegType();
      typeMAcc := new MatrixRegType();
      sharedRegTarget, sharedCustomNumber := None, 0;
      manualHwbpSet := false;
    }
  }

  /** init_shared_reg_info: the shared register info belongs to `target` and has no custom number. */
  method InitSharedRegInfo(info: RiscvInfo, target: TargetRef)
    modifies info`sharedRegTarget, info`sharedCustomNumber
    ensures info.sharedRegTarget == Some(target) && info.sharedCustomNumber == 0
  {
    info.sharedRegTarget := Some(target);
    info.sharedCustomNumber := 0;
  }

  /**
   * Patches the links of a five-field union for a register of `len` bytes:
   * field 0 is b; each wider field is set and linked in only when its width
   * fits, and the chain is cut after the last one that does.
   */
  method PatchFieldChain(fields: array<UnionField>, len: nat, types: seq<DataType>)
    requires fields.Length == Widths && |types| == Widths
    modifies fields
    ensures fields[..] == LinkedFields(old(fields[..]), len, types)
  {
    fields[0] := fields[0].(name := "b", fieldType := types[0]);
    if len >= 2 {
      fields[0] := fields[0].(next := Some(1));
      fields[1] := fields[1].(name := "s", fieldType := types[1]);
    } else {
      fields[0] := fields[0].(next := None);
    }
    if len >= 4 {
      fields[1] := fields[1].(next := Some(2));
      fields[2] := fields[2].(name := "w", fieldType := types[2]);
    } else {
      fields[1] := fields[1].(next := None);
    }
    if len >= 8 {
      fields[2] := fields[2].(next := Some(3));
      fields[3] := fields[3].(name := "l", fieldType := types[3]);
    } else {
      fields[2] := fields[2].(next := None);
    }
    if len >= 16 {
      fields[3] := fields[3].(next := Some(4));
      fields[4] := fields[4].(name := "q", fieldType := types[4]);
    } else {
      fields[3] := fields[3].(next := None);
    }
    fields[4] := fields[4].(next := None);
  }

  /** The vector descriptor of width k for a register of `len` bytes: len / width elements. */
  function VectorElementType(len: nat, k: nat): DataType
    requires k < Widths
  {
    ArchVector(ElementVectorId(k), Builtin(ElementKind(k)), len / ElementBytes(k))
  }

  function VectorElementTypes(vlenb: nat): (r: seq<DataType>)
    ensures |r| == Widths
  {
    seq(Widths, k requires 0 <= k < Widths => VectorElementType(vlenb, k))
  }

  /** The per-width descriptors of riscv_reg_impl_init_vector_reg_type: vlenb / width elements each. */
  method VectorTypesFor(vlenb: nat) returns (types: seq<DataType>)
    ensures types == VectorElementTypes(vlenb)
  {
    types := [
      ArchVector("bytes", Builtin(Uint8), vlenb),
      ArchVector("shorts", Builtin(Uint16), vlenb / 2),
      ArchVector("words", Builtin(Uint32), vlenb / 4),
      ArchVector("longs", Builtin(Uint64), vlenb / 8),
      ArchVector("quads", Builtin(Uint128), vlenb / 16)];
  }

  /**
   * riscv_reg_impl_init_vector_reg_type: builds the union "riscv_vector" whose
   * fields view a vector register of vlenb bytes as bytes, shorts, words,
   * longs and quads.
   */
  method InitVectorRegType(info: RiscvInfo)
    requires info.Valid()
    modifies info`vectorElementTypes, info`vectorUnionFields, info`typeVector, info.vectorFields
    ensures info.Valid()
    ensures info.vectorElementTypes == VectorElementTypes(info.vlenb)
    ensures info.vectorFields[..] == LinkedFields(old(info.vectorFields[..]), info.vlenb, info.vectorElementTypes)
    ensures info.vectorUnionFields == info.vectorFields
    ensures info.typeVector == ArchUnion("riscv_vector")
  {
    var vlenb := info.vlenb;
    info.vectorElementTypes := VectorTypesFor(vlenb);
    PatchFieldChain(info.vectorFields, vlenb, info.vectorElementTypes);
    info.vectorUnionFields := info.vectorFields;
    info.typeVector := ArchUnion("riscv_vector");
  }

  /** The ids of the per-width row-stack descriptors. */
  function StackVectorId(k: nat): string
    requires k < Widths
  {
    ["vector8", "vector16", "vector32", "vector64", "vector128"][k]
  }

  /** One row of width-k elements: mrlenb * mamul bytes (as uint32) over the width. */
  function MatrixRowType(mrlenb: nat, mamul: nat, k: nat): DataType
    requires k < Widths
  {
    ArchVector(ElementVectorId(k), Builtin(ElementKind(k)), (mrlenb * mamul) % U32Limit / ElementBytes(k))
  }

  /** The stack of mlenb / mrlenb rows of width-k elements. */
  function MatrixStackType(mlenb: nat, mrlenb: nat, mamul: nat, k: nat): DataType
    requires mrlenb > 0 && k < Widths
  {
    ArchVector(StackVectorId(k), MatrixRowType(mrlenb, mamul, k), mlenb / mrlenb)
  }

  function MatrixRowTypes(mrlenb: nat, mamul: nat): (r: seq<DataType>)
    ensures |r| == Widths
  {
    seq(Widths, k requires 0 <= k < Widths => MatrixRowType(mrlenb, mamul, k))
  }

  function MatrixStackTypes(mlenb: nat, mrlenb: nat, mamul: nat): (r: seq<DataType>)
    requires mrlenb > 0
    ensures |r| == Widths
  {
    seq(Widths, k requires 0 <= k < Widths => MatrixStackType(mlenb, mrlenb, mamul, k))
  }

  /** The state a matrix type is in once built for the given lengths. */
  ghost predicate MatrixBuilt(m: MatrixRegType, before: seq<UnionField>, mlenb: nat, mrlenb: nat, mamul: nat)
    requires mrlenb > 0 && |before| == Widths
    reads m, m.fields
  {
    && m.rowTypes == MatrixRowTypes(mrlenb, mamul)
    && m.stackTypes == MatrixStackTypes(mlenb, mrlenb, mamul)
    && m.fields.Length == Widths
    && m.fields[..] == LinkedFields(before, mrlenb, m.stackTypes)
    && m.unionFields == m.fields
    && m.unionType == ArchUnion("riscv_matrix")
  }

  /**
   * The per-width descriptors of riscv_reg_impl_init_matrix_reg_type_inner,
   * computed as the source does, in uint32 arithmetic.
   */
  method MatrixElementTypes(mlenb: nat, mrlenb: nat, mamul: nat)
    returns (rowTypes: seq<DataType>, stackTypes: seq<DataType>)
    requires mrlenb > 0
    ensures rowTypes == MatrixRowTypes(mrlenb, mamul)
    ensures stackTypes == MatrixStackTypes(mlenb, mrlenb, mamul)
  {
    var rowBytes := (mrlenb * mamul) % U32Limit;
    var rows := mlenb / mrlenb;
    var row8 := ArchVector("bytes", Builtin(Uint8), rowBytes);
    var row16 := ArchVector("shorts", Builtin(Uint16), rowBytes / 2);
    var row32 := ArchVector("words", Builtin(Uint32), rowBytes / 4);
    var row64 := ArchVector("longs", Builtin(Uint64), rowBytes / 8);
    var row128 := ArchVector("quads", Builtin(Uint128), rowBytes / 16);
    rowTypes := [row8, row16, row32, row64, row128];
    stackTypes := [
      ArchVector("vector8", row8, rows),
      ArchVector("vector16", row16, rows),
      ArchVector("vector32", row32, rows),
      ArchVector("vector64", row64, rows),
      ArchVector("vector128", row128, rows)];
  }

  /**
   * riscv_reg_impl_init_matrix_reg_type_inner: builds the union "riscv_matrix"
   * whose width-k field is a vector of mlenb / mrlenb rows, each a vector of
   * (mrlenb * mamul) / width elements; the chain is gated on the row length.
   */
  method InitMatrixRegTypeInner(matrix: MatrixRegType, mlenb: nat, mrlenb: nat, mamul: nat)
    requires IsU32(mlenb) && IsU32(mrlenb) && IsU32(mamul)
    requires mrlenb > 0
    requires matrix.fields.Length == Widths
    modifies matrix, matrix.fields
    ensures MatrixBuilt(matrix, old(matrix.fields[..]), mlenb, mrlenb, mamul)
  {
    matrix.rowTypes, matrix.stackTypes := MatrixElementTypes(mlenb, mrlenb, mamul);
    PatchFieldChain(matrix.fields, mrlenb, matrix.stackTypes);
    matrix.unionFields := matrix.fields;
    matrix.unionType := ArchUnion("riscv_matrix");
  }

  /**
   * riscv_reg_impl_init_matrix_reg_type: without a matrix unit (mrlenb == 0)
   * nothing is built; otherwise the tile type is built with multiplier 1 and
   * the accumulator type with the probed multiplier.
   */
  method InitMatrixRegType(info: RiscvInfo)
    requires info.Valid()
    modifies info.typeMTile, info.typeMTile.fields, info.typeMAcc, info.typeMAcc.fields
    ensures info.Valid()
    ensures info.mrlenb == 0 ==>
      && unchanged(info.typeMTile, info.typeMTile.fields)
      && unchanged(info.typeMAcc, info.typeMAcc.fields)
    ensures info.mrlenb > 0 ==>
      && MatrixBuilt(info.typeMTile, old(info.typeMTile.fields[..]), info.mlenb, info.mrlenb, 1)
      && MatrixBuilt(info.typeMAcc, old(info.typeMAcc.fields[..]), info.mlenb, info.mrlenb, info.mamul)
  {
    var mlenb, mrlenb, mamul := info.mlenb, info.mrlenb, info.mamul;
    if mrlenb == 0 {
      return;
    }
    InitMatrixRegTypeInner(info.typeMTile, mlenb, mrlenb, 1);
    InitMatrixRegTypeInner(info.typeMAcc, mlenb, mrlenb, mamul);
  }

  /**
   * The vector union: its members are b (vlenb bytes), then s, w, l, q with
   * vlenb / 2, / 4, / 8, / 16 elements, each present exactly when its width
   * fits in vlenb.
   */
  lemma VectorUnionMembers(before: seq<UnionField>, vlenb: nat)
    requires |before| == Widths
    ensures ForwardLinked(LinkedFields(before, vlenb, VectorElementTypes(vlenb)))
    ensures Members(LinkedFields(before, vlenb, VectorElementTypes(vlenb)))
         == ExpectedMembers(vlenb, VectorElementTypes(vlenb))
    ensures Members(LinkedFields(before, vlenb, VectorElementTypes(vlenb)))[0]
         == ("b", ArchVector("bytes", Builtin(Uint8), vlenb))
    ensures forall k :: 0 <= k < Widths ==>
              VectorElementTypes(vlenb)[k].count == vlenb / ElementBytes(k)
  {
    LinkedFieldsMembers(before, vlenb, VectorElementTypes(vlenb));
  }

  /** A 16-byte vector register gets all five members: b16, s8, w4, l2, q1. */
  lemma VectorUnionOf16Bytes(before: seq<UnionField>)
    requires |before| == Widths
    ensures ForwardLinked(LinkedFields(before, 16, VectorElementTypes(16)))
    ensures Members(LinkedFields(before, 16, VectorElementTypes(16))) == [
              ("b", ArchVector("bytes", Builtin(Uint8), 16)),
              ("s", ArchVector("shorts", Builtin(Uint16), 8)),
              ("w", ArchVector("words", Builtin(Uint32), 4)),
              ("l", ArchVector("longs", Builtin(Uint64), 2)),
              ("q", ArchVector("quads", Builtin(Uint128), 1))]
  {
    VectorUnionMembers(before, 16);
  }

  /** A 1-byte vector register gets the byte member alone. */
  lemma VectorUnionOf1Byte(before: seq<UnionField>)
    requires |before| == Widths
    ensures ForwardLinked(LinkedFields(before, 1, VectorElementTypes(1)))
    ensures Members(LinkedFields(before, 1, VectorElementTypes(1))) ==
              [("b", ArchVector("bytes", Builtin(Uint8), 1))]
  {
    VectorUnionMembers(before, 1);
  }

  /**
   * The matrix union: per width that fits in a row, a stack of mlenb / mrlenb
   * rows of (mrlenb * mamul) / width elements, in ascending width.
   */
  lemma MatrixUnionMembers(before: seq<UnionField>, mlenb: nat, mrlenb: nat, mamul: nat)
    requires |before| == Widths && mrlenb > 0
    ensures ForwardLinked(LinkedFields(before, mrlenb, MatrixStackTypes(mlenb, mrlenb, mamul)))
    ensures Members(LinkedFields(before, mrlenb, MatrixStackTypes(mlenb, mrlenb, mamul)))
         == ExpectedMembers(mrlenb, MatrixStackTypes(mlenb, mrlenb, mamul))
    ensures forall k :: 0 <= k < Widths ==>
              && MatrixStackTypes(mlenb, mrlenb, mamul)[k].count == mlenb / mrlenb
              && MatrixStackTypes(mlenb, mrlenb, mamul)[k].elem.count
                 == (mrlenb * mamul) % U32Limit / ElementBytes(k)
  {
    LinkedFieldsMembers(before, mrlenb, MatrixStackTypes(mlenb, mrlenb, mamul));
  }

  /** A tile row (multiplier 1) of width k holds mrlenb / width elements: nothing wraps. */
  lemma TileRowCounts(mrlenb: nat, k: nat)
    requires IsU32(mrlenb) && k < Widths
    ensures MatrixRowType(mrlenb, 1, k).count == mrlenb / ElementBytes(k)
  {
  }

  /** While the product fits in 32 bits, a row holds mrlenb * mamul / width elements. */
  lemma AccRowCounts(mrlenb: nat, mamul: nat, k: nat)
    requires IsU32(mrlenb * mamul) && k < Widths
    ensures MatrixRowType(mrlenb, mamul, k).count == mrlenb * mamul / ElementBytes(k)
  {
  }
}
