/** The vertex layout calculator of geometry.h.
    A vertex record type is an ordered list of field kinds. From it the
    calculator derives the record's stride (the sum of the field sizes) and
    the byte offset of every field, and from those one attribute declaration
    per field. Offsets are counted from the END of the record: the last field
    sits at offset 0 and the first field highest. */
module VertexLayout {

  /** The field types for which geometry.h specialises vertex_component_traits. */
  datatype FieldKind = Float | Vec2 | Vec3 | Vec4

  /** The value of the GL_FLOAT enumerant, the scalar type of every field kind. */
  const GL_FLOAT: nat := 0x1406

  /** Number of scalar components of a field (vertex_component_traits<T>::size). */
  function ComponentCount(k: FieldKind): (n: nat)
    ensures 1 <= n <= 4
    ensures n == 1 <==> k == Float
  {
    match k
    case Float => 1
    case Vec2 => 2
    case Vec3 => 3
    case Vec4 => 4
  }

  /** Scalar type of a field's components (vertex_component_traits<T>::type). */
  function ComponentType(k: FieldKind): (t: nat)
    ensures t == GL_FLOAT
  {
    match k
    case Float => GL_FLOAT
    case Vec2 => GL_FLOAT
    case Vec3 => GL_FLOAT
    case Vec4 => GL_FLOAT
  }

  /** sizeof of a field: a float is 4 bytes and a glm vector is an unpadded
      array of floats. */
  function SizeOf(k: FieldKind): (bytes: nat)
    ensures bytes == 4 * ComponentCount(k)
  {
    match k
    case Float => 4
    case Vec2 => 8
    case Vec3 => 12
    case Vec4 => 16
  }

  /** tuple_stride: the size of the head plus the stride of the tail, 0 for
      the empty record. */
  function Stride(fields: seq<FieldKind>): nat
  {
    if fields == [] then 0 else SizeOf(fields[0]) + Stride(fields[1..])
  }

  /** tuple_element_offset: field 0 sits at the stride of the tail, and field
      i at the tail's offset of field i - 1. */
  function Offset(fields: seq<FieldKind>, i: nat): nat
    requires i < |fields|
  {
    if i == 0 then Stride(fields[1..]) else Offset(fields[1..], i - 1)
  }

  /** A reference sum of the field sizes that takes them from the end of the
      list, independent of the head-first recursion of Stride. */
  function SizeFromEnd(fields: seq<FieldKind>): nat
  {
    if fields == [] then 0
    else SizeFromEnd(fields[..|fields| - 1]) + SizeOf(fields[|fields| - 1])
  }

  /** The list of fields in the opposite order. */
  function Reverse(fields: seq<FieldKind>): (r: seq<FieldKind>)
    ensures |r| == |fields|
    ensures forall j :: 0 <= j < |r| ==> r[j] == fields[|fields| - 1 - j]
  {
    if fields == [] then [] else Reverse(fields[1..]) + [fields[0]]
  }

  /** The stride of two lists put end to end is the sum of their strides. */
  lemma {:induction false} StrideAppend(a: seq<FieldKind>, b: seq<FieldKind>)
    ensures Stride(a + b) == Stride(a) + Stride(b)
  {
    if a == [] {
      assert a + b == b;
    } else {
      assert (a + b)[1..] == a[1..] + b;
      StrideAppend(a[1..], b);
    }
  }

  /** Stride is the sum of all field sizes, whichever end the sum starts from. */
  lemma {:induction false} StrideIsSizeSum(fields: seq<FieldKind>)
    ensures Stride(fields) == SizeFromEnd(fields)
  {
    if fields != [] {
      var n := |fields|;
      assert fields == fields[..n - 1] + [fields[n - 1]];
      StrideAppend(fields[..n - 1], [fields[n - 1]]);
      assert Stride([fields[n - 1]]) == SizeOf(fields[n - 1]) by {
        assert [fields[n - 1]][1..] == [];
      }
      StrideIsSizeSum(fields[..n - 1]);
    }
  }

  /** Reversing the fields does not change the stride. */
  lemma {:induction false} StrideReverse(fields: seq<FieldKind>)
    ensures Stride(Reverse(fields)) == Stride(fields)
  {
    if fields != [] {
      StrideAppend(Reverse(fields[1..]), [fields[0]]);
      assert [fields[0]][1..] == [];
      StrideReverse(fields[1..]);
    }
  }

  /** The offset of field i is the total size of the fields after it. */
  lemma {:induction false} OffsetIsSizeAfter(fields: seq<FieldKind>, i: nat)
    requires i < |fields|
    ensures Offset(fields, i) == Stride(fields[i + 1..])
  {
    if i > 0 {
      OffsetIsSizeAfter(fields[1..], i - 1);
      assert fields[1..][i..] == fields[i + 1..];
    }
  }

  /** The offset of field i, plus its size, plus the size of all fields
      before it, is the stride. */
  lemma OffsetSizePrefix(fields: seq<FieldKind>, i: nat)
    requires i < |fields|
    ensures Offset(fields, i) + SizeOf(fields[i]) + Stride(fields[..i]) == Stride(fields)
  {
    OffsetIsSizeAfter(fields, i);
    assert fields == fields[..i] + fields[i..];
    StrideAppend(fields[..i], fields[i..]);
    assert fields[i..][1..] == fields[i + 1..];
  }

  /** Each field's offset is the next field's offset plus the next field's size. */
  lemma OffsetStep(fields: seq<FieldKind>, i: nat)
    requires i + 1 < |fields|
    ensures Offset(fields, i) == Offset(fields, i + 1) + SizeOf(fields[i + 1])
  {
    OffsetIsSizeAfter(fields, i);
    OffsetIsSizeAfter(fields, i + 1);
    assert fields[i + 1..][1..] == fields[i + 2..];
  }

  /** The last field sits at offset 0 and the first field at the stride
      minus its own size. */
  lemma OffsetEnds(fields: seq<FieldKind>)
    requires fields != []
    ensures Offset(fields, |fields| - 1) == 0
    ensures Offset(fields, 0) == Stride(fields) - SizeOf(fields[0])
  {
    OffsetIsSizeAfter(fields, |fields| - 1);
    assert fields[|fields|..] == [];
  }

  /** Every field's byte range [offset, offset + size) lies inside the record. */
  lemma {:induction false} FieldWithinRecord(fields: seq<FieldKind>, i: nat)
    requires i < |fields|
    ensures Offset(fields, i) + SizeOf(fields[i]) <= Stride(fields)
  {
    OffsetSizePrefix(fields, i);
  }

  /** A field declared later ends at or below the offset of any field declared
      earlier, so the byte ranges of distinct fields never overlap. */
  lemma {:induction false} FieldsDisjoint(fields: seq<FieldKind>, i: nat, j: nat)
    requires i < j < |fields|
    ensures Offset(fields, j) + SizeOf(fields[j]) <= Offset(fields, i)
    decreases j - i
  {
    if j == i + 1 {
      OffsetStep(fields, i);
    } else {
      FieldsDisjoint(fields, i + 1, j);
      OffsetStep(fields, i);
    }
  }

  /** Counting offsets from the end is the same as laying the fields out
      from offset 0 in reverse declaration order: field i gets the size of
      the fields that come before it in the reversed list. */
  lemma OffsetFromReversed(fields: seq<FieldKind>, i: nat)
    requires i < |fields|
    ensures Offset(fields, i) == Stride(Reverse(fields)[..|fields| - 1 - i])
  {
    OffsetIsSizeAfter(fields, i);
    var after := fields[i + 1..];
    assert Reverse(fields)[..|fields| - 1 - i] == Reverse(after);
    StrideReverse(after);
  }

  /** The record (float, vec2, vec4): stride 28 with offsets 24, 16 and 0. */
  lemma ExampleFloatVec2Vec4()
    ensures Stride([Float, Vec2, Vec4]) == 28
    ensures Offset([Float, Vec2, Vec4], 0) == 24
    ensures Offset([Float, Vec2, Vec4], 1) == 16
    ensures Offset([Float, Vec2, Vec4], 2) == 0
  {
  }

  /** One glVertexAttribPointer call, with the slot that is also enabled. */
  datatype AttribDecl = AttribDecl(
    slot: nat,
    components: nat,
    componentType: nat,
    normalized: bool,
    stride: nat,
    offset: nat)

  /** declare_vertex_attrib_pointer_for<VertexT, Index>. */
  function DeclFor(fields: seq<FieldKind>, i: nat): (d: AttribDecl)
    requires i < |fields|
    ensures d.slot == i && !d.normalized
    ensures d.components == ComponentCount(fields[i]) && d.componentType == GL_FLOAT
    ensures d.stride == Stride(fields)
    ensures d.offset + SizeOf(fields[i]) <= d.stride
  {
    FieldWithinRecord(fields, i);
    AttribDecl(i, ComponentCount(fields[i]), ComponentType(fields[i]), false,
               Stride(fields), Offset(fields, i))
  }

  /** The declarations issued by declare_vertex_attrib_pointers, one per
      index of index_sequence_for, in ascending order. */
  function Declarations(fields: seq<FieldKind>): (ds: seq<AttribDecl>)
    ensures |ds| == |fields|
  {
    seq(|fields|, i requires 0 <= i < |fields| => DeclFor(fields, i))
  }

  /** The declaration pass covers exactly the slots [0, N) in order; each
      declaration carries its field's component count and float type, the
      common stride, and the total size of the fields after it as offset. */
  lemma DeclarationsSpec(fields: seq<FieldKind>, i: nat)
    requires i < |fields|
    ensures Declarations(fields)[i].slot == i
    ensures Declarations(fields)[i].components == ComponentCount(fields[i])
    ensures Declarations(fields)[i].componentType == GL_FLOAT
    ensures Declarations(fields)[i].stride == SizeFromEnd(fields)
    ensures Declarations(fields)[i].offset == Stride(fields[i + 1..])
  {
    StrideIsSizeSum(fields);
    OffsetIsSizeAfter(fields, i);
  }

  /** A vertex record type: its fields and sizeof of the whole record. */
  datatype VertexType = VertexType(fields: seq<FieldKind>, sizeInMemory: nat)

  /** The static_assert of geometry::set_data: no padding in the record. */
  predicate Unpadded(vt: VertexType)
  {
    vt.sizeInMemory == Stride(vt.fields)
  }
}
