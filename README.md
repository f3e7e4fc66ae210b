# Vertex layout and geometry buffer of isolines, in Dafny

This project models the vertex layout calculator and the `geometry` buffer class of
`geometry.h`. A vertex record type is a `std::tuple` of fields. Each field is a `float`, `glm::vec2`,
`glm::vec3` or `glm::vec4`. From the tuple, the header computes these things at compile time:

- the record's stride (`tuple_stride`);
- each field's byte offset (`tuple_element_offset`);
- each field's component count and scalar type (`vertex_component_traits`).

`geometry::set_data` uploads a vector of records into the array buffer. It then binds the vertex
array and declares one attribute pointer per field, with slot i for field i
(`declare_vertex_attrib_pointers`).

- `layout.dfy`, module `VertexLayout`: the pure calculation. The type list is a `seq<FieldKind>`.
  `Stride` and `Offset` follow the template recursion of the header clause by clause. Lemmas prove
  what the recursion amounts to:
  - the stride is the sum of the field sizes;
  - a field's offset is the total size of the fields declared *after* it;
  - the byte ranges of the fields fit inside the record and do not overlap;
  - the declaration pass covers the slots 0 .. N-1 in order.
- `geometry.dfy`, module `GeometryBuffer`: the `geometry` object as a class. The graphics context
  is reduced to the state the object owns:
  - the data store of its buffer (`contents`, raw bytes);
  - the table of enabled attribute slots of its vertex array (`attribs`, slot to declaration);
  - the log of attribute-pointer calls made on that vertex array (`issued`);
  - whether its vertex array is the bound one (`layoutBound`).

Offsets run backward. The last field sits at offset 0 and the first field sits highest. The model
keeps this exactly (`Offset`, `OffsetEnds`, `ExampleFloatVec2Vec4`). `OffsetFromReversed` proves the
rule is the same as laying the fields out from offset 0 in reverse declaration order. That is the
order in which the common libstdc++ `std::tuple` stores its elements, since it puts the tail below
the head.

The `static_assert` of `set_data` (geometry.h:121) rejects a padded record type when the program is
compiled. So no running program ever calls `set_data` with such a type. The model states this
check as the predicate `Unpadded` and makes it a precondition of `Geometry.SetData`.

The OpenGL attribute state is indexed by slot. `set_data` re-declares the slots 0 .. N-1 of the
new record type. Any slot from N upward that an earlier call with a longer record type enabled
stays enabled with its old declaration. `Geometry.SetData` states this: after the call, the table
holds exactly the new declarations when every slot it held before was below N.

## Model

| member | source | states |
|---|---|---|
| `VertexLayout.ComponentCount` | geometry.h:14-43 | every field kind has 1 to 4 components, and only `float` has 1 |
| `VertexLayout.ComponentType` | geometry.h:14-43 | every field kind's scalar type is `GL_FLOAT` (0x1406) |
| `VertexLayout.SizeOf` | geometry.h:48-52 | the byte size of each field kind is 4 times its component count |
| `VertexLayout.StrideAppend` | geometry.h:45-58 | the stride of two field lists put end to end is the sum of their strides |
| `VertexLayout.StrideIsSizeSum` | geometry.h:45-58 | the head-first stride recursion equals the sum of the field sizes taken from the end of the list |
| `VertexLayout.StrideReverse` | geometry.h:45-58 | reversing the fields leaves the stride unchanged |
| `VertexLayout.OffsetIsSizeAfter` | geometry.h:60-73 | the offset of field i is the stride of the fields i+1 .. N-1 |
| `VertexLayout.OffsetSizePrefix` | geometry.h:48-73 | offset(i) + size(field i) + size of fields 0 .. i-1 = stride |
| `VertexLayout.OffsetStep` | geometry.h:60-73 | offset(i) = offset(i+1) + size(field i+1) |
| `VertexLayout.OffsetEnds` | geometry.h:63-67 | the last field's offset is 0; field 0's offset is the stride minus field 0's size |
| `VertexLayout.FieldWithinRecord` | geometry.h:48-73 | every field's byte range [offset, offset + size) lies inside [0, stride) |
| `VertexLayout.FieldsDisjoint` | geometry.h:48-73 | for i < j, field j's byte range ends at or below field i's offset, so distinct fields never overlap |
| `VertexLayout.OffsetFromReversed` | geometry.h:60-73 | offset(i) is the size of the fields that precede field i in the reversed field list |
| `VertexLayout.ExampleFloatVec2Vec4` | geometry.h:48-73 | (float, vec2, vec4) has stride 28 and offsets 24, 16, 0 |
| `VertexLayout.DeclFor` | geometry.h:75-87 | the declaration for index i has slot i, the field's component count, type `GL_FLOAT`, not normalized, the record stride, and an offset whose field range fits in the stride |
| `VertexLayout.Declarations` | geometry.h:89-99 | the declaration pass issues exactly one declaration per field |
| `VertexLayout.DeclarationsSpec` | geometry.h:75-99 | declaration i has slot i, the component count of field i, type `GL_FLOAT`, the sum of all field sizes as stride, and the size of the fields after i as offset |
| `GeometryBuffer.FlattenLength` | geometry.h:125 | n records of s bytes each upload s * n bytes, 0 for no records |
| `GeometryBuffer.FlattenAt` | geometry.h:125 | byte j of record k is uploaded at position k * s + j |
| `GeometryBuffer.Geometry.constructor` | geometry.h:105-109 | a new geometry has an empty buffer, no enabled attribute slots, no declarations issued and its vertex array not bound |
| `GeometryBuffer.Geometry.DeclareAttribPointers` | geometry.h:84-98 | appends the declarations for slots 0 .. N-1 in ascending order to the call log; slots below N hold exactly their new declaration; slots from N up keep their old state |
| `GeometryBuffer.Geometry.SetData` | geometry.h:117-129 | on an unpadded record type, the buffer holds exactly the new records, stride * count bytes, whatever it held before; the vertex array is bound; all N declarations are re-issued and installed as in `DeclareAttribPointers` |
| `GeometryBuffer.Geometry.Bind` | geometry.h:131 | the vertex array becomes bound; buffer contents, attribute table and call log are unchanged |

`GeometryBuffer.ReuploadScenario` is a client of the class. It makes three uploads in a row:
three records, then one, then none. It shows that each upload replaces the previous contents, that
an empty upload leaves a zero-length buffer, and that each upload re-issues all of the record type's
declarations.

## Left out

- `shader_program.cc` is not part of this model. Its shader file reading, compile/attach/link
  and status queries, process termination on failure, and uniform lookup and upload are calls
  into the file system and the graphics driver with no computation of their own.
- OpenGL handles and the graphics context (`glGenBuffers`, `glGenVertexArrays`, the deletions in
  the destructor, the binding of `GL_ARRAY_BUFFER`) are not modelled. The model keeps only the
  state each geometry owns. `layoutBound` is that object's own view of whether its vertex array is
  bound: binding another vertex array elsewhere is not modelled.
- The usage hint `GL_STATIC_DRAW` and the `GL_FALSE` normalized flag are constants of the calls.
  Only the flag is recorded (`normalized` is always false).
- Vertex contents are raw bytes. The model does not interpret them as floats or glm vectors. The
  size of each field kind is the given constant 4 × component count. It is not derived from glm's
  definitions. For that reason the model cannot build a padded record type from the four kinds; it
  takes the record's in-memory size as a separate number (`VertexType.sizeInMemory`).
- Integer widths are not modelled: stride and offsets are `size_t`, and the stride passed to
  `glVertexAttribPointer` is a `GLsizei`. Record types of four kinds cannot overflow these in
  practice. The model does not check the `stride * count` product of `glBufferData` against
  `GLsizeiptr`.
- Record types with field types other than the four kinds have no `vertex_component_traits`
  specialization, so they do not compile. `FieldKind` has no other cases.
- The template and `index_sequence` mechanics and `noncopyable` are not modelled. The type list is a
  sequence; the fold over indexes is a loop.
