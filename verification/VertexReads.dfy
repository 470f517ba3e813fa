/** What vertex shaders read of a vertex buffer: each input gets, at every vertex, the data that its mapping names. */
module VertexReads {
  import opened Options
  import opened Decimals
  import opened InputLayout
  import opened VertexInput

  // ---------------------------------------------------------------------------------------------------------
  // Data

  function VectorWords(v: Vec3): seq<Word> {
    [v.x, v.y, v.z, v.w]
  }

  /** What is meant for a vertex. */
  function DataOf(d: VertexData, name: Semantic, index: nat, v: nat): Option<seq<Word>> {
    match name
    case Position => VectorAt(d.points, v)
    case Normal => VectorAt(d.normals, v)
    case Tangent => VectorAt(d.tangents, v)
    case Color => if d.colors.Some? && v < |d.colors.value| then Some([d.colors.value[v]]) else None
    case Texcoord => if index < |d.coordinates| then CoordinatesAt(d.coordinates[index], v) else None
    case VertexId => None
  }

  function VectorAt(vs: Option<seq<Vec3>>, v: nat): Option<seq<Word>> {
    if vs.Some? && v < |vs.value| then Some(VectorWords(vs.value[v])) else None
  }

  function CoordinatesAt(c: Coordinates, v: nat): Option<seq<Word>> {
    if c.words.Some? && v * c.width + c.width <= |c.words.value|
    then Some(c.words.value[v * c.width..v * c.width + c.width]) else None
  }

  /** What the input assembler fetches: an element is as large as its distance from the next one. */
  function Fetched(b: Bound, v: nat): Option<seq<Word>> {
    var n := b.stride / 4;
    if b.stride % 4 == 0 && v * n + n <= |b.buffer.words| then Some(b.buffer.words[v * n..v * n + n]) else None
  }

  /** The buffer is as long as it was made: so many elements of this size. */
  predicate Spans(b: Bound, num: nat) {
    b.stride * num == 4 * |b.buffer.words|
  }

  lemma {:induction false} VectorInMemory(vs: seq<Vec3>, v: nat)
    requires v < |vs|
    ensures InMemory(vs)[4 * v..4 * v + 4] == VectorWords(vs[v])
  {
    if v > 0 {
      VectorInMemory(vs[1..], v - 1);
      assert InMemory(vs)[4..] == InMemory(vs[1..]);
      assert InMemory(vs)[4 * v..4 * v + 4] == InMemory(vs[1..])[4 * (v - 1)..4 * (v - 1) + 4];
    }
  }

  lemma VectorsFetched(vs: Option<seq<Vec3>>, num: nat, v: nat, b: Bound)
    requires vs.Some? && v < num <= |vs.value| && b.stride == 16
    requires Some(b.buffer) == Copied(VectorsInMemory(vs), 4 * num)
    ensures Fetched(b, v) == VectorAt(vs, v) && Spans(b, num)
  {
    var words := InMemory(vs.value);
    VectorInMemory(vs.value, v);
    assert b.buffer.words == words[..4 * num];
    assert b.buffer.words[v * 4..v * 4 + 4] == words[4 * v..4 * v + 4];
  }

  lemma ColorsFetched(colors: Option<seq<Word>>, num: nat, v: nat, b: Bound)
    requires colors.Some? && v < num <= |colors.value| && b.stride == 4
    requires Some(b.buffer) == Copied(colors, num)
    ensures Fetched(b, v) == Some([colors.value[v]]) && Spans(b, num)
  {
    assert b.buffer.words == colors.value[..num];
    assert b.buffer.words[v * 1..v * 1 + 1] == [colors.value[v]];
  }

  lemma CoordinatesFetched(c: Coordinates, num: nat, v: nat, b: Bound)
    requires c.words.Some? && v < num && c.width * num <= |c.words.value| && b.stride == 4 * c.width
    requires Some(b.buffer) == Copied(c.words, c.width * num)
    ensures Fetched(b, v) == CoordinatesAt(c, v) && Spans(b, num)
  {
    var w, words := c.width, c.words.value;
    Inside(v, num, w);
    assert b.buffer.words == words[..w * num];
    assert b.buffer.words[v * w..v * w + w] == words[v * w..v * w + w];
    assert b.stride * num == 4 * (w * num);
  }

  lemma Inside(v: nat, num: nat, w: nat)
    requires v < num
    ensures v * w + w <= w * num
  {
    assert (v + 1) * w <= num * w;
  }

  // ---------------------------------------------------------------------------------------------------------
  // The list of buffers

  /** Where what is in the list, with the size of its elements. */
  lemma ListAt(vb: GsVertexBuffer, shader: GsVertexShader)
    requires vb.Complete(shader)
    ensures var l, n, c, t := vb.List(shader), One(shader.hasNormals), One(shader.hasColors), One(shader.hasTangents);
      && |l| == shader.Expected() && l[0] == Bound(vb.vertexBuffer.value, 16)
      && (shader.hasNormals ==> l[1] == Bound(vb.normalBuffer.value, 16))
      && (shader.hasColors ==> l[1 + n] == Bound(vb.colorBuffer.value, 4))
      && (shader.hasTangents ==> l[1 + n + c] == Bound(vb.tangentBuffer.value, 16))
      && (forall i :: 0 <= i < shader.nTexUnits ==> l[1 + n + c + t + i] == Bound(vb.uvBuffers[i], vb.uvSizes[i]))
  {
  }

  ghost predicate MadeFor(shader: GsVertexShader, layout: seq<Element>)
    reads shader
  {
    && shader.hasNormals == Wants(layout, Normal) && shader.hasColors == Wants(layout, Color)
    && shader.hasTangents == Wants(layout, Tangent) && shader.nTexUnits == TexUnits(layout)
  }

  /** The buffer at the place of a semantic has its data, and is as long as it was made. */
  lemma BufferHasData(vb: GsVertexBuffer, d: VertexData, shader: GsVertexShader, layout: seq<Element>, e: Element,
                      v: nat)
    requires Sufficient(d) && vb.Holds(d) && vb.Complete(shader) && MadeFor(shader, layout) && v < d.num
    requires e.name != VertexId && (e.name != Position && e.name != Texcoord ==> Wants(layout, e.name))
    requires e.name == Texcoord ==> e.index < shader.nTexUnits
    ensures var i := BufferIndex(layout, e);
      && |vb.List(shader)| == NumBuffersExpected(layout) && i < |vb.List(shader)|
      && Fetched(vb.List(shader)[i], v) == DataOf(d, e.name, e.index, v) && DataOf(d, e.name, e.index, v).Some?
      && Spans(vb.List(shader)[i], d.num)
  {
    ListAt(vb, shader);
    var b := vb.List(shader)[BufferIndex(layout, e)];
    hide Fetched, Spans, Wants, InMemory;
    match e.name
    case Position => VectorsFetched(d.points, d.num, v, b);
    case Normal => VectorsFetched(d.normals, d.num, v, b);
    case Tangent => VectorsFetched(d.tangents, d.num, v, b);
    case Color => ColorsFetched(d.colors, d.num, v, b);
    case Texcoord =>
      CoordinatesFetched(d.coordinates[e.index], d.num, v, b);
      Inside(v, d.num, d.coordinates[e.index].width);
  }

  /** At every vertex, every element of a regular layout with a position reads the data that is meant for it, and as
      many buffers are bound as are expected, if the vertex buffer has everything. */
  lemma ElementsReadTheirBuffers(vb: GsVertexBuffer, d: VertexData, shader: GsVertexShader, layout: seq<Element>,
                                 k: nat, v: nat)
    requires Sufficient(d) && vb.Holds(d) && vb.Complete(shader) && MadeFor(shader, layout) && v < d.num
    requires Regular(layout) && Has(layout, Position, 0) && k < |layout|
    ensures var slot, l := AssignSlots(layout)[k].slot, vb.List(shader);
      && |l| == NumBuffersExpected(layout) && slot < |l|
      && Fetched(l[slot], v) == DataOf(d, layout[k].name, layout[k].index, v)
      && DataOf(d, layout[k].name, layout[k].index, v).Some? && Spans(l[slot], d.num)
  {
    SlotsMatchBuffers(layout, k);
    RegularAlone(layout, k);
    if layout[k].name == Texcoord {
      TexcoordInRange(layout, k, layout[k].index);
    } else {
      assert Wants(layout, layout[k].name);
    }
    hide *;
    MadeForUnits(shader, layout);
    BufferHasData(vb, d, shader, layout, layout[k], v);
  }

  lemma MadeForUnits(shader: GsVertexShader, layout: seq<Element>)
    requires MadeFor(shader, layout)
    ensures shader.nTexUnits == Texcoords(layout, 0)
  {
  }

  /** Indices from zero on are less than their number. */
  lemma {:induction false} TexcoordInRange(layout: seq<Element>, k: nat, n: nat)
    requires k < |layout| && layout[k].name == Texcoord && n <= layout[k].index
    requires forall m :: 0 <= m < layout[k].index ==> Has(layout, Texcoord, m)
    ensures Texcoords(layout, layout[k].index - n) > n
  {
    var index := layout[k].index - n;
    TexcoordsRunOut(layout, index);
    if n == 0 {
      assert Find(layout, Texcoord, index) <= k;
    } else {
      TexcoordInRange(layout, k, n - 1);
    }
  }

  // ---------------------------------------------------------------------------------------------------------
  // Mappings

  /** What effect files call it. */
  predicate Names(mapping: string, name: Semantic, index: nat) {
    match name
    case Position => mapping == "POSITION" && index == 0
    case Normal => mapping == "NORMAL" && index == 0
    case Color => mapping == "COLOR" && index == 0
    case Tangent => mapping == "TANGENT" && index == 0
    case Texcoord => mapping == "TEXCOORD" + Digits(index) || (mapping == "TEXCOORD" && index == 0)
    case VertexId => false
  }

  lemma {:induction false} DigitsAreDigits(n: nat)
    ensures Digits(n) != "" && forall i :: 0 <= i < |Digits(n)| ==> IsDigit(Digits(n)[i])
  {
    if n >= 10 {
      DigitsAreDigits(n / 10);
    }
  }

  lemma {:induction false} NumberAppend(a: string, c: char, n: nat)
    requires IsDigit(c) && forall i :: 0 <= i < |a| ==> IsDigit(a[i])
    ensures Number(a + [c], n) == 10 * Number(a, n) + (c as int - '0' as int)
  {
    if a == "" {
      assert a + [c] == [c] && [c][1..] == "";
    } else {
      assert (a + [c])[1..] == a[1..] + [c];
      assert forall i :: 0 <= i < |a| - 1 ==> a[1..][i] == a[i + 1];
      NumberAppend(a[1..], c, 10 * n + (a[0] as int - '0' as int));
    }
  }

  /** The digits of a number are read as that number. */
  lemma {:induction false} NumberOfDigits(n: nat)
    ensures Number(Digits(n), 0) == n
  {
    if n < 10 {
      assert Digits(n)[1..] == "";
    } else {
      NumberOfDigits(n / 10);
      DigitsAreDigits(n / 10);
      NumberAppend(Digits(n / 10), (n % 10 + '0' as int) as char, 0);
    }
  }

  lemma {:induction false} NameBefore(name: string, digits: string)
    requires forall i :: 0 <= i < |name| ==> !IsDigit(name[i])
    requires digits == "" || IsDigit(digits[0])
    ensures SemanticName(name + digits) == name
    ensures SemanticIndex(name + digits) == if digits == "" then 0 else Number(digits, 0)
  {
    if name == "" {
      assert name + digits == digits;
    } else {
      assert (name + digits)[1..] == name[1..] + digits && (name + digits)[0] == name[0];
      assert forall i :: 0 <= i < |name| - 1 ==> name[1..][i] == name[i + 1];
      NameBefore(name[1..], digits);
    }
  }

  lemma NoDigits(name: string)
    requires name in ["POSITION", "NORMAL", "COLOR", "TANGENT", "TEXCOORD"]
    ensures forall i :: 0 <= i < |name| ==> !IsDigit(name[i])
  {
  }

  /** The processor finds what is meant. */
  lemma MappingIsFound(mapping: string, name: Semantic, index: nat)
    requires Names(mapping, name, index)
    ensures ConvertSemantic(SemanticName(mapping)) == Ok(name) && SemanticIndex(mapping) == index
    ensures mapping != "VERTEXID"
  {
    hide SemanticName, SemanticIndex, Number, Digits;
    DigitsAreDigits(index);
    if name == Texcoord && mapping != "TEXCOORD" {
      NoDigits("TEXCOORD");
      NameBefore("TEXCOORD", Digits(index));
      NumberOfDigits(index);
      assert mapping[0] == 'T';
    } else {
      NoDigits(mapping);
      NameBefore(mapping, "");
      assert mapping + "" == mapping;
    }
  }

  ghost predicate AllNamed(mappings: seq<string>, layout: seq<Element>) {
    |mappings| == |layout| && forall i :: 0 <= i < |mappings| ==> Names(mappings[i], layout[i].name, layout[i].index)
  }

  lemma {:induction false} LayoutIsFound(mappings: seq<string>, layout: seq<Element>)
    requires AllNamed(mappings, layout)
    ensures ElementsOf(mappings).Ok? && Renumbered(layout, ElementsOf(mappings).value)
  {
    if mappings != [] {
      assert Names(mappings[0], layout[0].name, layout[0].index);
      MappingIsFound(mappings[0], layout[0].name, layout[0].index);
      assert forall i :: 0 <= i < |mappings| - 1 ==>
        mappings[1..][i] == mappings[i + 1] && layout[1..][i] == layout[i + 1];
      hide Names, ConvertSemantic, SemanticName, SemanticIndex;
      LayoutIsFound(mappings[1..], layout[1..]);
      var more := ElementsOf(mappings[1..]).value;
      assert ElementsOf(mappings).value == [Element(layout[0].name, layout[0].index, 0)] + more;
      forall k | 0 <= k < |layout| ensures Same(layout[k], ElementsOf(mappings).value[k]) {
        if k > 0 {
          assert Same(layout[1..][k - 1], more[k - 1]);
        }
      }
    }
  }

  /** From the mappings of a shader's inputs to the data it reads: an input called POSITION, NORMAL, COLOR, TANGENT or
      TEXCOORD with a number reads the point, the normal, the colour, the tangent or the coordinates of that number, at
      every vertex. `meant` says what the mappings mean. */
  lemma InputsReadTheirData(vars: seq<Var>, meant: seq<Element>, vb: GsVertexBuffer, d: VertexData,
                            shader: GsVertexShader, k: nat, v: nat)
    requires AllNamed(Mappings(vars), meant) && Regular(meant) && Has(meant, Position, 0) && k < |meant|
    requires BuildFrom(vars, []).Ok? ==> MadeFor(shader, BuildFrom(vars, []).value)
    requires Sufficient(d) && vb.Holds(d) && vb.Complete(shader) && v < d.num
    ensures var r, l := BuildFrom(vars, []), vb.List(shader);
      && r.Ok? && |r.value| == |meant|
      && var slot := r.value[k].slot;
      && slot < |l| && Fetched(l[slot], v) == DataOf(d, meant[k].name, meant[k].index, v)
      && DataOf(d, meant[k].name, meant[k].index, v).Some? && Spans(l[slot], d.num)
  {
    hide *;
    var es, all := ElementsOf(Mappings(vars)), AddVars(vars, []);
    LayoutIsFound(Mappings(vars), meant);
    OneElementPerLeaf(vars, []);
    NothingBefore(es.value);
    AllSame(meant, es.value, all.value);
    RegularSame(meant, all.value);
    BuiltIs(vars);
    HasSame(meant, all.value, Position, 0);
    AssignSlotsKeep(all.value);
    WantsSame(shader, all.value, AssignSlots(all.value));
    LengthIs(meant, all.value, AssignSlots(all.value));
    SameAt(meant, all.value, k);
    ElementsReadTheirBuffers(vb, d, shader, all.value, k, v);
  }

  lemma NothingBefore(es: seq<Element>)
    ensures [] + es == es
  {
  }

  lemma BuiltIs(vars: seq<Var>)
    ensures AddVars(vars, []).Ok? ==> BuildFrom(vars, []) == Ok(AssignSlots(AddVars(vars, []).value))
  {
  }

  lemma LengthIs(a: seq<Element>, b: seq<Element>, c: seq<Element>)
    requires Renumbered(a, b) && Renumbered(b, c)
    ensures |a| == |b| == |c|
  {
  }

  lemma SameAt(a: seq<Element>, b: seq<Element>, k: nat)
    requires Renumbered(a, b) && k < |a|
    ensures k < |b| && a[k].name == b[k].name && a[k].index == b[k].index
  {
    assert Same(a[k], b[k]);
  }

  lemma WantsSame(shader: GsVertexShader, a: seq<Element>, b: seq<Element>)
    requires Renumbered(a, b) && MadeFor(shader, b)
    ensures MadeFor(shader, a)
  {
    FindSame(a, b, Position, 0);
    hide Find;
    forall name ensures Wants(a, name) == Wants(b, name) {
      if Wants(a, name) {
        var i :| 0 <= i < |a| && a[i].name == name;
        SameAt(a, b, i);
      }
      if Wants(b, name) {
        var i :| 0 <= i < |b| && b[i].name == name;
        SameAt(a, b, i);
      }
    }
  }
}
