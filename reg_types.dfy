/**
 * Register type descriptors (`struct reg_data_type` and its vector and union
 * parts) and the linked field chain of a union type.
 *
 * A union's fields live in a fixed array of five `UnionField`s, one per element
 * width (1, 2, 4, 8 and 16 bytes); each field's `next` is the index of the
 * field after it in the chain, or None where the chain ends. A consumer of the
 * descriptor sees the fields reached from field 0.
 */
module RegTypes {
  import opened Wrappers

  /** The static scalar descriptors type_uint8 .. type_uint128. */
  datatype ScalarKind = Uint8 | Uint16 | Uint32 | Uint64 | Uint128

  datatype DataType =
    | Unset                                                 // a descriptor never written
    | Builtin(kind: ScalarKind)                             // REG_TYPE_UINT8 .. REG_TYPE_UINT128
    | ArchVector(id: string, elem: DataType, count: nat)   // REG_TYPE_CLASS_VECTOR
    | ArchUnion(id: string)                                 // REG_TYPE_CLASS_UNION

  datatype UnionField = UnionField(name: string, fieldType: DataType, next: Option<nat>)

  /** The number of element widths, and so of union fields. */
  const Widths: nat := 5

  /** The element width of field k in bytes. */
  function ElementBytes(k: nat): nat
    requires k < Widths
  {
    [1, 2, 4, 8, 16][k]
  }

  function ElementKind(k: nat): ScalarKind
    requires k < Widths
  {
    [Uint8, Uint16, Uint32, Uint64, Uint128][k]
  }

  /** The field names b, s, w, l, q. */
  function FieldName(k: nat): string
    requires k < Widths
  {
    ["b", "s", "w", "l", "q"][k]
  }

  /** The ids of the per-width vector descriptors. */
  function ElementVectorId(k: nat): string
    requires k < Widths
  {
    ["bytes", "shorts", "words", "longs", "quads"][k]
  }

  /**
   * The field array after the chain has been patched for a register of `len`
   * bytes, with `types` the per-width field types. Field 0 is always set;
   * field k > 0 is set when its width fits in `len` and keeps what it held
   * otherwise; a field links to the next one exactly when that one fits, and
   * field 4 never links on.
   */
  function LinkedFields(before: seq<UnionField>, len: nat, types: seq<DataType>): (r: seq<UnionField>)
    requires |before| == Widths && |types| == Widths
    ensures |r| == Widths
  {
    seq(Widths, k requires 0 <= k < Widths =>
      UnionField(
        if k == 0 || ElementBytes(k) <= len then FieldName(k) else before[k].name,
        if k == 0 || ElementBytes(k) <= len then types[k] else before[k].fieldType,
        if k + 1 < Widths && ElementBytes(k + 1) <= len then Some(k + 1) else None))
  }

  /** Every link points further along the array, so walking the chain ends. */
  predicate ForwardLinked(fs: seq<UnionField>) {
    forall i :: 0 <= i < |fs| && fs[i].next.Some? ==> i < fs[i].next.value < |fs|
  }

  /** The indices of the fields reached from field i. */
  function Chain(fs: seq<UnionField>, i: nat): (r: seq<nat>)
    requires ForwardLinked(fs) && i < |fs|
    ensures |r| >= 1 && r[0] == i
    ensures forall j :: 0 <= j < |r| ==> i <= r[j] < |fs|
    decreases |fs| - i
  {
    match fs[i].next
    case None => [i]
    case Some(j) => [i] + Chain(fs, j)
  }

  /** The (name, type) members a consumer of the union sees, in order. */
  function Members(fs: seq<UnionField>): (r: seq<(string, DataType)>)
    requires ForwardLinked(fs) && |fs| > 0
  {
    var c := Chain(fs, 0);
    seq(|c|, i requires 0 <= i < |c| => (fs[c[i]].name, fs[c[i]].fieldType))
  }

  function Fits(len: nat, t: nat): nat { if len >= t then 1 else 0 }

  /** How many fields a register of `len` bytes gets: b, plus one per t in {2, 4, 8, 16} with len >= t. */
  function NumFields(len: nat): (r: nat)
    ensures 1 <= r <= Widths
  {
    1 + Fits(len, 2) + Fits(len, 4) + Fits(len, 8) + Fits(len, 16)
  }

  /** The indices 0 .. n-1 in order. */
  function Upto(n: nat): (r: seq<nat>)
    ensures |r| == n && forall i :: 0 <= i < n ==> r[i] == i
  {
    seq(n, i => i)
  }

  /** The members the union should have: one per width that fits, ascending by width. */
  function ExpectedMembers(len: nat, types: seq<DataType>): (r: seq<(string, DataType)>)
    requires |types| == Widths
    ensures |r| == NumFields(len)
  {
    seq(NumFields(len), k requires 0 <= k < NumFields(len) => (FieldName(k), types[k]))
  }

  /** NumFields by cases: the widths fit in ascending order. */
  lemma NumFieldsCases(len: nat)
    ensures NumFields(len) == if len >= 16 then 5 else if len >= 8 then 4 else if len >= 4 then 3
                              else if len >= 2 then 2 else 1
  {
  }

  /** Field k lies on the chain exactly when it fits. */
  lemma FitsIffBelowNumFields(len: nat, k: nat)
    requires k < Widths
    ensures (k == 0 || ElementBytes(k) <= len) <==> k < NumFields(len)
  {
    NumFieldsCases(len);
  }

  /** Walking a patched array from field k visits k, k+1, ... up to the last field that fits. */
  lemma {:induction false} ChainOfLinkedFrom(fs: seq<UnionField>, len: nat, k: nat)
    requires |fs| == Widths && ForwardLinked(fs)
    requires forall j :: 0 <= j < Widths ==>
               fs[j].next == if j + 1 < Widths && ElementBytes(j + 1) <= len then Some(j + 1) else None
    requires k < NumFields(len)
    ensures Chain(fs, k) == Upto(NumFields(len))[k..]
    decreases Widths - k
  {
    NumFieldsCases(len);
    FitsIffBelowNumFields(len, k);
    if k + 1 < Widths {
      FitsIffBelowNumFields(len, k + 1);
    }
    match fs[k].next
    case None =>
      assert k + 1 == NumFields(len);
    case Some(j) =>
      assert j == k + 1;
      ChainOfLinkedFrom(fs, len, j);
      assert Upto(NumFields(len))[k..] == [k] + Upto(NumFields(len))[j..];
  }

  /**
   * The patched chain: it is forward-linked, visits fields 0, 1, ... in order
   * up to the last width that fits, field 4 never links on, and the last field
   * visited ends the chain.
   */
  lemma LinkedFieldsChain(before: seq<UnionField>, len: nat, types: seq<DataType>)
    requires |before| == Widths && |types| == Widths
    ensures ForwardLinked(LinkedFields(before, len, types))
    ensures Chain(LinkedFields(before, len, types), 0) == Upto(NumFields(len))
    ensures LinkedFields(before, len, types)[4].next == None
    ensures LinkedFields(before, len, types)[NumFields(len) - 1].next == None
  {
    var fs := LinkedFields(before, len, types);
    NumFieldsCases(len);
    ChainOfLinkedFrom(fs, len, 0);
  }

  /**
   * What a consumer sees of the patched union is exactly one member per width
   * that fits, named b, s, w, l, q in that order, with the type of that width;
   * whatever the unlinked fields held before does not show.
   */
  lemma LinkedFieldsMembers(before: seq<UnionField>, len: nat, types: seq<DataType>)
    requires |before| == Widths && |types| == Widths
    ensures ForwardLinked(LinkedFields(before, len, types))
    ensures Members(LinkedFields(before, len, types)) == ExpectedMembers(len, types)
  {
    var fs := LinkedFields(before, len, types);
    LinkedFieldsChain(before, len, types);
    var c := Chain(fs, 0);
    forall i | 0 <= i < |c|
      ensures Members(fs)[i] == ExpectedMembers(len, types)[i]
    {
      FitsIffBelowNumFields(len, i);
    }
  }

  /** No member is wider than the register, except the byte member that is always there. */
  lemma NoMemberTooWide(before: seq<UnionField>, len: nat, types: seq<DataType>, i: nat)
    requires |before| == Widths && |types| == Widths
    requires ForwardLinked(LinkedFields(before, len, types))
    requires 0 < i < |Chain(LinkedFields(before, len, types), 0)|
    ensures ElementBytes(Chain(LinkedFields(before, len, types), 0)[i]) <= len
  {
    LinkedFieldsChain(before, len, types);
    FitsIffBelowNumFields(len, i);
  }
}
