/** The objects behind vertex input in the Direct3D 11 back end: the processor that builds the layout, the shader that
    remembers what it needs, and the vertex buffer that lists its buffers. */
module VertexInput {
  import opened Options
  import opened InputLayout

  class ShaderProcessor {
    var layout: seq<Element>

    constructor ()
      ensures layout == []
    {
      layout := [];
    }

    method SetSlotOf(name: Semantic, index: nat, slot: nat) returns (found: bool, next: nat)
      modifies this
      ensures found == Has(old(layout), name, index) && layout == WithSlot(old(layout), name, index, slot)
      ensures next == if found then slot + 1 else slot
      ensures index == 0 ==> (layout, next) == SetSlot(old(layout), name, slot)
    {
      for i := 0 to |layout|
        invariant layout == old(layout)
        invariant forall j :: 0 <= j < i ==> !(layout[j].name == name && layout[j].index == index)
      {
        if layout[i].index == index && layout[i].name == name {
          layout := layout[i := layout[i].(slot := slot)];
          return true, slot + 1;
        }
      }
      return false, slot;
    }

    /** Fails at the first leaf with an unknown semantic. */
    method BuildInputLayoutFromVars(vars: seq<Var>) returns (ok: bool)
      modifies this
      ensures ok <==> BuildFrom(vars, old(layout)).Ok?
      ensures ok ==> BuildFrom(vars, old(layout)) == Ok(layout)
      decreases vars
    {
      for i := 0 to |vars|
        invariant AddVars(vars[i..], layout) == AddVars(vars, old(layout))
      {
        assert vars[i..][0] == vars[i] && vars[i..][1..] == vars[i + 1..];
        match vars[i] {
          case Unmapped =>
          case Struct(members) =>
            ok := BuildInputLayoutFromVars(members);
            if !ok {
              return;
            }
          case Mapped(mapping) =>
            if mapping != "VERTEXID" {
              var name := ConvertSemantic(SemanticName(mapping));
              if name.Thrown? {
                return false;
              }
              layout := layout + [Element(name.value, SemanticIndex(mapping), 0)];
            }
        }
      }
      assert vars[|vars|..] == [];
      AssignAll();
      ok := true;
    }

    method AssignAll()
      modifies this
      ensures layout == AssignSlots(old(layout))
    {
      hide Find, TexcoordSlots, WithSlot, Has, SetSlot;
      var slot := 0;
      var found: bool;
      found, slot := SetSlotOf(Position, 0, slot);
      found, slot := SetSlotOf(Normal, 0, slot);
      found, slot := SetSlotOf(Color, 0, slot);
      found, slot := SetSlotOf(Tangent, 0, slot);
      AssignTexcoords(slot);
    }

    /** The loop ends whatever the layout. */
    method AssignTexcoords(slot: nat)
      modifies this
      ensures layout == TexcoordSlots(old(layout), 0, slot)
    {
      hide TexcoordSlots, Texcoords, Has;
      var index := 0;
      var found, next := SetTexcoord(index, slot);
      while found
        invariant TexcoordSlots(old(layout), 0, slot)
               == if found then TexcoordSlots(layout, index + 1, next) else layout
        decreases found, Texcoords(layout, index + 1)
      {
        index := index + 1;
        found, next := SetTexcoord(index, next);
      }
    }

    /** One round of the loop over texture coordinates. */
    method SetTexcoord(index: nat, slot: nat) returns (found: bool, next: nat)
      modifies this
      ensures found == Has(old(layout), Texcoord, index)
      ensures TexcoordSlots(old(layout), index, slot)
           == if found then TexcoordSlots(layout, index + 1, next) else layout
      ensures found ==> Texcoords(layout, index + 1) < Texcoords(old(layout), index)
    {
      ghost var before := layout;
      found, next := SetSlotOf(Texcoord, index, slot);
      TexcoordsRunOut(before, index);
      if found {
        SlotsDoNotMatter(before, Find(before, Texcoord, index), slot, index + 1);
      }
    }
  }

  class GsVertexShader {
    var hasNormals: bool
    var hasColors: bool
    var hasTangents: bool
    var nTexUnits: nat

    /** What the elements of its layout make it expect. */
    constructor (inputs: seq<Element>)
      ensures hasNormals == Wants(inputs, Normal) && hasColors == Wants(inputs, Color)
      ensures hasTangents == Wants(inputs, Tangent) && nTexUnits == TexUnits(inputs)
      ensures Expected() == NumBuffersExpected(inputs)
    {
      hasNormals, hasColors, hasTangents, nTexUnits := false, false, false, 0;
      new;
      for i := 0 to |inputs|
        invariant hasNormals == Wants(inputs[..i], Normal) && hasColors == Wants(inputs[..i], Color)
        invariant hasTangents == Wants(inputs[..i], Tangent)
        invariant nTexUnits + Texcoords(inputs[i..], 0) == Texcoords(inputs, 0)
      {
        WantsMore(inputs, i);
        assert inputs[i..][0] == inputs[i] && inputs[i..][1..] == inputs[i + 1..];
        match inputs[i].name {
          case Normal => hasNormals := true;
          case Tangent => hasTangents := true;
          case Color => hasColors := true;
          case Texcoord => nTexUnits := nTexUnits + 1;
          case _ =>
        }
      }
      assert inputs[..|inputs|] == inputs;
    }

    function Expected(): nat
      reads this
    {
      nTexUnits + 1 + One(hasNormals) + One(hasColors) + One(hasTangents)
    }
  }

  lemma WantsMore(inputs: seq<Element>, i: nat)
    requires i < |inputs|
    ensures forall name :: Wants(inputs[..i + 1], name) == (Wants(inputs[..i], name) || inputs[i].name == name)
  {
    forall name ensures Wants(inputs[..i + 1], name) == (Wants(inputs[..i], name) || inputs[i].name == name) {
      if Wants(inputs[..i], name) {
        var j :| 0 <= j < i && inputs[..i][j].name == name;
        assert inputs[..i + 1][j].name == name;
      }
      assert inputs[..i + 1][i] == inputs[i];
      if Wants(inputs[..i + 1], name) && inputs[i].name != name {
        var j :| 0 <= j < i + 1 && inputs[..i + 1][j].name == name;
        assert inputs[..i][j].name == name;
      }
    }
  }

  // ---------------------------------------------------------------------------------------------------------
  // Vertex buffers. Memory is a sequence of words of four bytes.

  type Word = int

  /** Vectors of three components have a fourth one in memory. */
  datatype Vec3 = Vec3(x: Word, y: Word, z: Word, w: Word)

  /** Texture coordinates: so many words for each vertex. */
  datatype Coordinates = Coordinates(width: nat, words: Option<seq<Word>>)

  datatype VertexData = VertexData(
    num: nat, points: Option<seq<Vec3>>, normals: Option<seq<Vec3>>, tangents: Option<seq<Vec3>>,
    colors: Option<seq<Word>>, coordinates: seq<Coordinates>)

  /** Every array has something for each vertex. */
  ghost predicate Sufficient(d: VertexData) {
    && (d.points.Some? ==> d.num <= |d.points.value|) && (d.normals.Some? ==> d.num <= |d.normals.value|)
    && (d.tangents.Some? ==> d.num <= |d.tangents.value|) && (d.colors.Some? ==> d.num <= |d.colors.value|)
    && forall i :: 0 <= i < |d.coordinates| && d.coordinates[i].words.Some? ==>
         d.coordinates[i].width * d.num <= |d.coordinates[i].words.value|
  }

  /** How an array of vectors lies in memory. */
  function InMemory(vs: seq<Vec3>): (r: seq<Word>)
    ensures |r| == 4 * |vs|
  {
    if vs == [] then [] else [vs[0].x, vs[0].y, vs[0].z, vs[0].w] + InMemory(vs[1..])
  }

  /** A native buffer. */
  datatype Native = Native(words: seq<Word>)

  /** A buffer and the distance between its elements in bytes. */
  datatype Bound = Bound(buffer: Native, stride: nat)

  const FLOAT_SIZE: nat := 4
  const COLOR_SIZE: nat := 4
  const VEC3_SIZE: nat := 16

  function Pushed(wanted: bool, buffer: Option<Native>, stride: nat): seq<Bound> {
    if wanted && buffer.Some? then [Bound(buffer.value, stride)] else []
  }

  /** The first so many words of an array that is there. */
  function Copied(words: Option<seq<Word>>, n: nat): Option<Native> {
    if words.None? then None
    else Some(Native(if n <= |words.value| then words.value[..n] else words.value))
  }

  function VectorsInMemory(vs: Option<seq<Vec3>>): Option<seq<Word>> {
    if vs.None? then None else Some(InMemory(vs.value))
  }

  class GsVertexBuffer {
    var vertexBuffer: Option<Native>
    var normalBuffer: Option<Native>
    var colorBuffer: Option<Native>
    var tangentBuffer: Option<Native>
    var uvBuffers: seq<Native>
    var uvSizes: seq<nat>

    constructor ()
      ensures uvBuffers == [] && uvSizes == []
    {
      vertexBuffer, normalBuffer, colorBuffer, tangentBuffer, uvBuffers, uvSizes := None, None, None, None, [], [];
    }

    /** The buffers have the data of all vertices, and the sizes are those of the texture coordinates. */
    ghost predicate Holds(d: VertexData)
      reads this
    {
      && d.points.Some? && vertexBuffer == Copied(VectorsInMemory(d.points), 4 * d.num)
      && normalBuffer == Copied(VectorsInMemory(d.normals), 4 * d.num)
      && tangentBuffer == Copied(VectorsInMemory(d.tangents), 4 * d.num)
      && colorBuffer == Copied(d.colors, d.num)
      && HoldsCoordinates(d.coordinates, d.num)
    }

    ghost predicate HoldsCoordinates(cs: seq<Coordinates>, num: nat)
      reads this
    {
      && |uvBuffers| == |uvSizes| == |cs|
      && forall i :: 0 <= i < |cs| ==>
           && uvSizes[i] == 4 * cs[i].width
           && Some(uvBuffers[i]) == Copied(cs[i].words, cs[i].width * num)
    }

    /** What is made from an array has the size of its elements, times their number. */
    static method InitBuffer(elementSize: nat, numVerts: nat, words: seq<Word>) returns (buffer: Native)
      requires elementSize % FLOAT_SIZE == 0 && elementSize / FLOAT_SIZE * numVerts <= |words|
      ensures buffer == Native(words[..elementSize / FLOAT_SIZE * numVerts])
    {
      buffer := Native(words[..elementSize / FLOAT_SIZE * numVerts]);
    }

    static method InitVectors(num: nat, vs: Option<seq<Vec3>>) returns (buffer: Option<Native>)
      requires vs.Some? ==> num <= |vs.value|
      ensures buffer == Copied(VectorsInMemory(vs), 4 * num)
    {
      buffer := None;
      if vs.Some? {
        var native := InitBuffer(VEC3_SIZE, num, InMemory(vs.value));
        buffer := Some(native);
      }
    }

    /** Fails for data without vertices or points, and for texture coordinates that are missing or neither two nor four
        words wide. */
    method Init(d: VertexData) returns (ok: bool)
      requires Sufficient(d) && uvBuffers == [] && uvSizes == []
      modifies this
      ensures ok <==> d.num > 0 && d.points.Some?
                      && forall i :: 0 <= i < |d.coordinates| ==> Usable(d.coordinates[i])
      ensures ok ==> Holds(d)
    {
      if d.num == 0 || d.points.None? {
        return false;
      }
      vertexBuffer := InitVectors(d.num, d.points);
      normalBuffer := InitVectors(d.num, d.normals);
      tangentBuffer := InitVectors(d.num, d.tangents);
      colorBuffer := None;
      if d.colors.Some? {
        var native := InitBuffer(COLOR_SIZE, d.num, d.colors.value);
        colorBuffer := Some(native);
      }
      ok := InitCoordinates(d);
    }

    method InitCoordinates(d: VertexData) returns (ok: bool)
      requires Sufficient(d) && uvBuffers == [] && uvSizes == []
      modifies `uvBuffers, `uvSizes
      ensures ok <==> forall i :: 0 <= i < |d.coordinates| ==> Usable(d.coordinates[i])
      ensures ok ==> HoldsCoordinates(d.coordinates, d.num)
    {
      for i := 0 to |d.coordinates|
        invariant HoldsCoordinates(d.coordinates[..i], d.num)
        invariant forall j :: 0 <= j < i ==> Usable(d.coordinates[j])
      {
        var c := d.coordinates[i];
        if (c.width != 2 && c.width != 4) || c.words.None? {
          return false;
        }
        var buffer := InitBuffer(c.width * FLOAT_SIZE, d.num, c.words.value);
        uvBuffers, uvSizes := uvBuffers + [buffer], uvSizes + [c.width * FLOAT_SIZE];
      }
      assert d.coordinates[..|d.coordinates|] == d.coordinates;
      ok := true;
    }

    /** What it can give to a shader. A buffer it lacks is left out, and so are all texture coordinates if it has too
        few of them. */
    function List(shader: GsVertexShader): (r: seq<Bound>)
      requires |uvBuffers| == |uvSizes|
      reads this, shader
    {
      Pushed(true, vertexBuffer, VEC3_SIZE) + Pushed(shader.hasNormals, normalBuffer, VEC3_SIZE)
      + Pushed(shader.hasColors, colorBuffer, COLOR_SIZE) + Pushed(shader.hasTangents, tangentBuffer, VEC3_SIZE)
      + if shader.nTexUnits <= |uvBuffers| then FirstCoordinates(shader.nTexUnits) else []
    }

    function FirstCoordinates(n: nat): (r: seq<Bound>)
      requires n <= |uvBuffers| == |uvSizes|
      reads this
      ensures |r| == n
    {
      seq(n, i requires 0 <= i < n && n <= |uvBuffers| == |uvSizes| reads this => Bound(uvBuffers[i], uvSizes[i]))
    }

    /** Everything the shader needs is there. */
    predicate Complete(shader: GsVertexShader)
      reads this, shader
    {
      && vertexBuffer.Some? && |uvBuffers| == |uvSizes|
      && (shader.hasNormals ==> normalBuffer.Some?) && (shader.hasColors ==> colorBuffer.Some?)
      && (shader.hasTangents ==> tangentBuffer.Some?) && shader.nTexUnits <= |uvBuffers|
    }

    method PushBuffer(numBuffers: nat, buffers: array<Bound>, buffer: Option<Native>, stride: nat) returns (n: nat)
      requires numBuffers < buffers.Length
      modifies buffers
      ensures numBuffers <= n <= numBuffers + 1
      ensures buffers[..n] == old(buffers[..numBuffers]) + Pushed(true, buffer, stride)
    {
      n := numBuffers;
      if buffer.Some? {
        buffers[n] := Bound(buffer.value, stride);
        n := n + 1;
      }
    }

    /** Fills the front of the array, which has room for what the shader expects. */
    method MakeBufferList(shader: GsVertexShader, buffers: array<Bound>) returns (numBuffers: nat)
      requires shader.Expected() <= buffers.Length && |uvBuffers| == |uvSizes|
      modifies buffers
      ensures numBuffers <= buffers.Length && buffers[..numBuffers] == List(shader)
    {
      ghost var points, normals := Pushed(true, vertexBuffer, VEC3_SIZE),
                                   Pushed(shader.hasNormals, normalBuffer, VEC3_SIZE);
      ghost var colors := Pushed(shader.hasColors, colorBuffer, COLOR_SIZE);
      numBuffers := PushBuffer(0, buffers, vertexBuffer, VEC3_SIZE);
      assert buffers[..numBuffers] == points;
      if shader.hasNormals {
        numBuffers := PushBuffer(numBuffers, buffers, normalBuffer, VEC3_SIZE);
      }
      assert buffers[..numBuffers] == points + normals;
      if shader.hasColors {
        numBuffers := PushBuffer(numBuffers, buffers, colorBuffer, COLOR_SIZE);
      }
      assert buffers[..numBuffers] == points + normals + colors;
      if shader.hasTangents {
        numBuffers := PushBuffer(numBuffers, buffers, tangentBuffer, VEC3_SIZE);
      }
      hide Pushed;
      if shader.nTexUnits <= |uvBuffers| {
        numBuffers := PushTexcoords(numBuffers, buffers, shader.nTexUnits);
      }
    }

    method PushTexcoords(numBuffers: nat, buffers: array<Bound>, nTexUnits: nat) returns (n: nat)
      requires numBuffers + nTexUnits <= buffers.Length && nTexUnits <= |uvBuffers| == |uvSizes|
      modifies buffers
      ensures n == numBuffers + nTexUnits
      ensures buffers[..n] == old(buffers[..numBuffers]) + FirstCoordinates(nTexUnits)
    {
      n := numBuffers;
      for i := 0 to nTexUnits
        invariant n == numBuffers + i && buffers[..n] == old(buffers[..numBuffers]) + FirstCoordinates(nTexUnits)[..i]
      {
        buffers[n] := Bound(uvBuffers[i], uvSizes[i]);
        n := n + 1;
      }
    }
  }

  predicate Usable(c: Coordinates) {
    (c.width == 2 || c.width == 4) && c.words.Some?
  }
}
