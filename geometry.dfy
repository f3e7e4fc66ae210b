/** The geometry class of geometry.h: one vertex buffer object (its data
    store, uploaded wholesale by set_data) and one vertex array object (its
    table of enabled attribute slots, re-declared by set_data). The graphics
    context is reduced to this recorded state; handles are not modelled. */
module GeometryBuffer {
  import opened VertexLayout

  newtype Byte = x: int | 0 <= x < 256

  /** The bytes of consecutive records laid end to end, as buf.data() hands
      them to glBufferData. */
  function Flatten(records: seq<seq<Byte>>): seq<Byte>
  {
    if records == [] then [] else records[0] + Flatten(records[1..])
  }

  /** Uploading n records of size bytes each uploads size * n bytes. */
  lemma {:induction false} FlattenLength(records: seq<seq<Byte>>, size: nat)
    requires forall k :: 0 <= k < |records| ==> |records[k]| == size
    ensures |Flatten(records)| == size * |records|
  {
    if records != [] {
      FlattenLength(records[1..], size);
    }
  }

  /** Byte j of record k lands at k * size + j of the uploaded data. */
  lemma {:induction false} FlattenAt(records: seq<seq<Byte>>, size: nat, k: nat, j: nat)
    requires forall r :: 0 <= r < |records| ==> |records[r]| == size
    requires k < |records| && j < size
    ensures k * size + j < |Flatten(records)|
    ensures Flatten(records)[k * size + j] == records[k][j]
  {
    FlattenLength(records, size);
    if k > 0 {
      FlattenAt(records[1..], size, k - 1, j);
      assert k * size + j == size + ((k - 1) * size + j);
    }
  }

  class Geometry {
    /** Data store of the owned array buffer (vbo_). */
    var contents: seq<Byte>
    /** Enabled attribute slots of the owned vertex array (vao_) and the
        declaration each one last received. */
    var attribs: map<nat, AttribDecl>
    /** Every glVertexAttribPointer call made on the vertex array, in order. */
    var issued: seq<AttribDecl>
    /** Whether the owned vertex array is the one currently bound. */
    var layoutBound: bool

    /** Generates an empty buffer and an empty vertex array. */
    constructor ()
      ensures contents == [] && attribs == map[] && issued == [] && !layoutBound
    {
      contents := [];
      attribs := map[];
      issued := [];
      layoutBound := false;
    }

    /** declare_vertex_attrib_pointers: for Index = 0 .. N-1 in turn, enable
        slot Index and declare its layout on the bound vertex array. Slots
        from N upward keep what they had. */
    method DeclareAttribPointers(fields: seq<FieldKind>)
      requires layoutBound
      modifies this`attribs, this`issued
      ensures issued == old(issued) + Declarations(fields)
      ensures forall s: nat :: s in attribs <==> s in old(attribs) || s < |fields|
      ensures forall s :: 0 <= s < |fields| ==> attribs[s] == DeclFor(fields, s)
      ensures forall s :: s in old(attribs) && s >= |fields| ==> attribs[s] == old(attribs)[s]
    {
      var i := 0;
      while i < |fields|
        invariant 0 <= i <= |fields|
        invariant issued == old(issued) + Declarations(fields)[..i]
        invariant forall s: nat :: s in attribs <==> s in old(attribs) || s < i
        invariant forall s :: 0 <= s < i ==> attribs[s] == DeclFor(fields, s)
        invariant forall s :: s in old(attribs) && s >= i ==> attribs[s] == old(attribs)[s]
      {
        var d := DeclFor(fields, i);
        attribs := attribs[i := d];
        issued := issued + [d];
        assert Declarations(fields)[..i + 1] == Declarations(fields)[..i] + [d];
        i := i + 1;
      }
      assert Declarations(fields)[..i] == Declarations(fields);
    }

    /** set_data: the record type must have no padding (a build-time check);
        the buffer's contents become exactly the new records, whatever it held
        before; the vertex array is bound and its layout declared anew. */
    method SetData(vt: VertexType, records: seq<seq<Byte>>)
      requires Unpadded(vt)
      requires forall k :: 0 <= k < |records| ==> |records[k]| == vt.sizeInMemory
      modifies this
      ensures contents == Flatten(records)
      ensures |contents| == Stride(vt.fields) * |records|
      ensures layoutBound
      ensures issued == old(issued) + Declarations(vt.fields)
      ensures forall s: nat :: s in attribs <==> s in old(attribs) || s < |vt.fields|
      ensures forall s :: 0 <= s < |vt.fields| ==> attribs[s] == DeclFor(vt.fields, s)
      ensures forall s :: s in old(attribs) && s >= |vt.fields| ==> attribs[s] == old(attribs)[s]
    {
      contents := Flatten(records);
      FlattenLength(records, vt.sizeInMemory);
      layoutBound := true;
      DeclareAttribPointers(vt.fields);
    }

    /** bind: makes the owned vertex array current and touches nothing else. */
    method Bind()
      modifies this`layoutBound
      ensures layoutBound
    {
      layoutBound := true;
    }
  }

  /** Two uploads in a row: the second replaces the first entirely, an empty
      upload leaves a zero-length buffer, and the declarations of a record
      type are re-issued in full on each call. */
  method ReuploadScenario(r0: seq<Byte>, r1: seq<Byte>, r2: seq<Byte>)
    requires |r0| == 28 && |r1| == 28 && |r2| == 28
  {
    var vt := VertexType([Float, Vec2, Vec4], 28);
    ExampleFloatVec2Vec4();
    var g := new Geometry();
    g.SetData(vt, [r0, r1, r2]);
    assert |g.contents| == 84;
    g.SetData(vt, [r2]);
    assert |g.contents| == 28;
    assert g.contents == r2;
    assert g.attribs.Keys == {0, 1, 2};
    assert |g.issued| == 6 && g.issued[..3] == g.issued[3..];
    g.SetData(vt, []);
    assert g.contents == [];
    g.Bind();
    assert g.contents == [] && |g.issued| == 9;
  }
}
