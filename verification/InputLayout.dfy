/** The input layout of Direct3D 11 vertex shaders: which slot every semantic reads, and which buffer is bound there. */
module InputLayout {

  datatype Result<+T> = Ok(value: T) | Thrown

  /** A parameter of `main` or a member of its structs. */
  datatype Var = Mapped(mapping: string) | Struct(members: seq<Var>) | Unmapped

  /** The semantics of vertex data, which Direct3D knows by names of its own. */
  datatype Semantic = Position | Normal | Color | Tangent | Texcoord | VertexId

  datatype Element = Element(name: Semantic, index: nat, slot: nat)

  predicate IsDigit(c: char) {
    '0' <= c <= '9'
  }

  /** The mapping up to its first digit. */
  function SemanticName(mapping: string): string {
    if mapping == "" || IsDigit(mapping[0]) then "" else [mapping[0]] + SemanticName(mapping[1..])
  }

  function Number(digits: string, n: nat): nat {
    if digits == "" || !IsDigit(digits[0]) then n
    else Number(digits[1..], 10 * n + (digits[0] as int - '0' as int))
  }

  /** The number that starts at the first digit, or zero. */
  function SemanticIndex(mapping: string): nat {
    if mapping == "" then 0
    else if IsDigit(mapping[0]) then Number(mapping, 0)
    else SemanticIndex(mapping[1..])
  }

  function ConvertSemantic(name: string): Result<Semantic> {
    match name
    case "POSITION" => Ok(Position)
    case "NORMAL" => Ok(Normal)
    case "COLOR" => Ok(Color)
    case "TANGENT" => Ok(Tangent)
    case "TEXCOORD" => Ok(Texcoord)
    case "VERTEXID" => Ok(VertexId)
    case _ => Thrown
  }

  // ---------------------------------------------------------------------------------------------------------
  // Slots

  /** Where the first element of a semantic is, or the length of the layout. */
  function Find(layout: seq<Element>, name: Semantic, index: nat): (i: nat)
    ensures i <= |layout|
    ensures i < |layout| ==> layout[i].name == name && layout[i].index == index
    ensures forall j :: 0 <= j < i ==> !(layout[j].name == name && layout[j].index == index)
  {
    if layout == [] then 0
    else if layout[0].name == name && layout[0].index == index then 0
    else
      var i := Find(layout[1..], name, index);
      assert forall j :: 1 <= j < 1 + i ==> layout[j] == layout[1..][j - 1];
      1 + i
  }

  predicate Has(layout: seq<Element>, name: Semantic, index: nat) {
    Find(layout, name, index) < |layout|
  }

  function WithSlot(layout: seq<Element>, name: Semantic, index: nat, slot: nat): (r: seq<Element>)
    ensures |r| == |layout|
  {
    var i := Find(layout, name, index);
    if i < |layout| then layout[i := layout[i].(slot := slot)] else layout
  }

  /** How many texture coordinates from `index` on a layout has. */
  function Texcoords(layout: seq<Element>, index: nat): nat {
    if layout == [] then 0
    else Texcoords(layout[1..], index) + if layout[0].name == Texcoord && layout[0].index >= index then 1 else 0
  }

  /** The loop over texture coordinates gets to an end, whatever the layout. */
  lemma TexcoordsRunOut(layout: seq<Element>, index: nat)
    ensures Texcoords(layout, index + 1) <= Texcoords(layout, index)
    ensures Has(layout, Texcoord, index) ==> Texcoords(layout, index + 1) < Texcoords(layout, index)
  {
    if layout != [] {
      TexcoordsRunOut(layout[1..], index);
    }
  }

  lemma SlotsDoNotMatter(layout: seq<Element>, i: nat, slot: nat, index: nat)
    requires i < |layout|
    ensures Texcoords(layout[i := layout[i].(slot := slot)], index) == Texcoords(layout, index)
  {
    if i > 0 {
      SlotsDoNotMatter(layout[1..], i - 1, slot, index);
      assert layout[i := layout[i].(slot := slot)][1..] == layout[1..][i - 1 := layout[i].(slot := slot)];
    } else {
      assert layout[0 := layout[0].(slot := slot)][1..] == layout[1..];
    }
  }

  function TexcoordSlots(layout: seq<Element>, index: nat, slot: nat): (r: seq<Element>)
    ensures |r| == |layout|
    decreases Texcoords(layout, index)
  {
    var i := Find(layout, Texcoord, index);
    if i == |layout| then layout
    else
      TexcoordsRunOut(layout, index);
      SlotsDoNotMatter(layout, i, slot, index + 1);
      TexcoordSlots(layout[i := layout[i].(slot := slot)], index + 1, slot + 1)
  }

  /** Slots in the order of the buffers: positions, normals, colours, tangents, texture coordinates. */
  function AssignSlots(layout: seq<Element>): (r: seq<Element>)
    ensures |r| == |layout|
  {
    var (base, next) := BaseSlots(layout);
    TexcoordSlots(base, 0, next)
  }

  /** The layout and the next slot before texture coordinates are looked for. */
  function BaseSlots(layout: seq<Element>): (r: (seq<Element>, nat))
    ensures |r.0| == |layout|
  {
    var (l1, s1) := SetSlot(layout, Position, 0);
    var (l2, s2) := SetSlot(l1, Normal, s1);
    var (l3, s3) := SetSlot(l2, Color, s2);
    SetSlot(l3, Tangent, s3)
  }

  /** The layout and the next slot when a semantic without a number has been looked for. */
  function SetSlot(layout: seq<Element>, name: Semantic, slot: nat): (r: (seq<Element>, nat))
    ensures |r.0| == |layout|
  {
    (WithSlot(layout, name, 0, slot), if Has(layout, name, 0) then slot + 1 else slot)
  }

  /** The elements of variables behind those of `layout`. Slots are assigned at the end of every struct, too. */
  function BuildFrom(vars: seq<Var>, layout: seq<Element>): Result<seq<Element>>
    decreases vars, 1
  {
    match AddVars(vars, layout)
    case Thrown => Thrown
    case Ok(all) => Ok(AssignSlots(all))
  }

  function AddVars(vars: seq<Var>, layout: seq<Element>): Result<seq<Element>>
    decreases vars, 0
  {
    if vars == [] then Ok(layout)
    else
      match AddVar(vars[0], layout)
      case Thrown => Thrown
      case Ok(next) => AddVars(vars[1..], next)
  }

  function AddVar(v: Var, layout: seq<Element>): Result<seq<Element>>
    decreases v, 2
  {
    match v
    case Unmapped => Ok(layout)
    case Struct(members) => BuildFrom(members, layout)
    case Mapped(mapping) =>
      if mapping == "VERTEXID" then Ok(layout)
      else
        match ConvertSemantic(SemanticName(mapping))
        case Thrown => Thrown
        case Ok(name) => Ok(layout + [Element(name, SemanticIndex(mapping), 0)])
  }

  /** The mappings of all leaves in order. */
  function Mappings(vars: seq<Var>): seq<string> {
    if vars == [] then [] else MappingsOf(vars[0]) + Mappings(vars[1..])
  }

  function MappingsOf(v: Var): seq<string> {
    match v
    case Unmapped => []
    case Struct(members) => Mappings(members)
    case Mapped(mapping) => if mapping == "VERTEXID" then [] else [mapping]
  }

  // ---------------------------------------------------------------------------------------------------------
  // What a vertex shader wants of a vertex buffer

  predicate Wants(layout: seq<Element>, name: Semantic) {
    exists i :: 0 <= i < |layout| && layout[i].name == name
  }

  function One(b: bool): nat {
    if b then 1 else 0
  }

  function TexUnits(layout: seq<Element>): nat {
    Texcoords(layout, 0)
  }

  function NumBuffersExpected(layout: seq<Element>): nat {
    TexUnits(layout) + 1 + One(Wants(layout, Normal)) + One(Wants(layout, Color)) + One(Wants(layout, Tangent))
  }

  /** Where a vertex buffer that has everything puts the buffer of a semantic. */
  function BufferIndex(layout: seq<Element>, e: Element): nat {
    var normals, colors, tangents :=
      One(Wants(layout, Normal)), One(Wants(layout, Color)), One(Wants(layout, Tangent));
    match e.name
    case Normal => 1
    case Color => 1 + normals
    case Tangent => 1 + normals + colors
    case Texcoord => 1 + normals + colors + tangents + e.index
    case _ => 0
  }

  predicate Same(e: Element, f: Element) {
    e.name == f.name && e.index == f.index
  }

  /** A layout as shaders have it: semantics that exist, none twice, only texture coordinates numbered, and those from
      zero on. */
  ghost predicate Regular(layout: seq<Element>) {
    && (forall i, j :: 0 <= i < j < |layout| ==> !Same(layout[i], layout[j]))
    && (forall i :: 0 <= i < |layout| ==>
          && layout[i].name != VertexId
          && (layout[i].name != Texcoord ==> layout[i].index == 0))
    && (forall i, n :: 0 <= i < |layout| && layout[i].name == Texcoord && 0 <= n < layout[i].index ==>
          Has(layout, Texcoord, n))
  }

  // ---------------------------------------------------------------------------------------------------------
  // Slots and buffers

  /** The same semantics, perhaps in other slots. */
  ghost predicate Renumbered(a: seq<Element>, b: seq<Element>) {
    |a| == |b| && forall k :: 0 <= k < |a| ==> Same(a[k], b[k])
  }

  lemma {:induction false} FindSame(a: seq<Element>, b: seq<Element>, name: Semantic, index: nat)
    requires Renumbered(a, b)
    ensures Find(a, name, index) == Find(b, name, index) && Texcoords(a, index) == Texcoords(b, index)
  {
    if a != [] {
      assert Same(a[0], b[0]);
      forall k | 0 <= k < |a| - 1 ensures Same(a[1..][k], b[1..][k]) {
        assert Same(a[k + 1], b[k + 1]);
      }
      FindSame(a[1..], b[1..], name, index);
    }
  }

  /** The position of an element is where its semantic is found. */
  lemma FindAt(layout: seq<Element>, k: nat)
    requires k < |layout| && forall i :: 0 <= i < k ==> !Same(layout[i], layout[k])
    ensures Find(layout, layout[k].name, layout[k].index) == k
  {
    var i := Find(layout, layout[k].name, layout[k].index);
    assert i < k ==> Same(layout[i], layout[k]);
  }

  /** Every texture coordinate that the loop gets to is numbered by its index; nothing else is touched. */
  lemma {:induction false} TexcoordSlotsAt(layout: seq<Element>, index: nat, slot: nat, k: nat)
    requires k < |layout| && Alone(layout, k)
    requires layout[k].name == Texcoord && index <= layout[k].index ==>
               forall n :: index <= n < layout[k].index ==> Has(layout, Texcoord, n)
    ensures var r := TexcoordSlots(layout, index, slot);
      && Renumbered(layout, r)
      && r[k].slot == if layout[k].name == Texcoord && index <= layout[k].index
                      then slot + layout[k].index - index else layout[k].slot
    decreases Texcoords(layout, index)
  {
    var i := Find(layout, Texcoord, index);
    FindAt(layout, k);
    if i < |layout| {
      var next := layout[i := layout[i].(slot := slot)];
      TexcoordsRunOut(layout, index);
      SlotsDoNotMatter(layout, i, slot, index + 1);
      forall n | 0 <= n ensures Has(next, Texcoord, n) == Has(layout, Texcoord, n) {
        FindSame(layout, next, Texcoord, n);
      }
      TexcoordSlotsAt(next, index + 1, slot + 1, k);
      hide Find, Texcoords, Has;
    } else {
      assert !Has(layout, Texcoord, index);
      hide Find, Texcoords;
      assert !(layout[k].name == Texcoord && index == layout[k].index);
    }
  }

  /** The base slots of a regular layout, by what it has. */
  function SlotOf(layout: seq<Element>, e: Element): nat {
    var p, n, c, t := One(Has(layout, Position, 0)), One(Has(layout, Normal, 0)),
                      One(Has(layout, Color, 0)), One(Has(layout, Tangent, 0));
    match e.name
    case Normal => p
    case Color => p + n
    case Tangent => p + n + c
    case Texcoord => p + n + c + t + e.index
    case _ => 0
  }

  ghost predicate Alone(layout: seq<Element>, k: nat)
    requires k < |layout|
  {
    forall i :: 0 <= i < |layout| && i != k ==> !Same(layout[i], layout[k])
  }

  lemma SetSlotAt(layout: seq<Element>, name: Semantic, slot: nat, k: nat)
    requires k < |layout| && Alone(layout, k)
    ensures var (r, next) := SetSlot(layout, name, slot);
      && Renumbered(layout, r) && Alone(r, k)
      && next == slot + One(Has(layout, name, 0))
      && r[k].slot == if layout[k].name == name && layout[k].index == 0 then slot else layout[k].slot
  {
    FindAt(layout, k);
  }

  lemma BaseSlotsAt(layout: seq<Element>, k: nat)
    requires k < |layout| && Alone(layout, k) && (layout[k].name != Texcoord ==> layout[k].index == 0)
    ensures var (r, next) := BaseSlots(layout);
      && Renumbered(layout, r) && Alone(r, k) && Same(layout[k], r[k])
      && next == SlotOf(layout, Element(Texcoord, 0, 0))
      && (layout[k].name != Texcoord && layout[k].name != VertexId ==> r[k].slot == SlotOf(layout, layout[k]))
  {
    var (l1, s1) := SetSlot(layout, Position, 0);
    var (l2, s2) := SetSlot(l1, Normal, s1);
    var (l3, s3) := SetSlot(l2, Color, s2);
    var (l4, s4) := SetSlot(l3, Tangent, s3);
    hide SetSlot, Has, Alone, Renumbered, Find;
    SetSlotAt(layout, Position, 0, k);
    SetSlotAt(l1, Normal, s1, k);
    HasSame(layout, l1, Normal, 0);
    Transitive(layout, l1, l2, k);
    SetSlotAt(l2, Color, s2, k);
    HasSame(layout, l2, Color, 0);
    Transitive(layout, l2, l3, k);
    SetSlotAt(l3, Tangent, s3, k);
    HasSame(layout, l3, Tangent, 0);
    Transitive(layout, l3, l4, k);
  }

  /** In a regular layout every semantic gets the slot that those before it leave. */
  lemma {:induction false} AssignedSlot(layout: seq<Element>, k: nat)
    requires Regular(layout) && k < |layout|
    ensures var r := AssignSlots(layout);
      Renumbered(layout, r) && r[k].slot == SlotOf(layout, layout[k])
  {
    var (base, next) := BaseSlots(layout);
    assert AssignSlots(layout) == TexcoordSlots(base, 0, next);
    RegularAlone(layout, k);
    BaseSlotsAt(layout, k);
    hide AssignSlots, BaseSlots, TexcoordSlots, Has, Alone, Regular, Renumbered, Find;
    forall n | layout[k].name == Texcoord && 0 <= n < layout[k].index ensures Has(base, Texcoord, n) {
      HasSame(layout, base, Texcoord, n);
    }
    TexcoordSlotsAt(base, 0, next, k);
    Transitive(layout, base, TexcoordSlots(base, 0, next), k);
  }

  lemma AllSame(a: seq<Element>, b: seq<Element>, c: seq<Element>)
    requires Renumbered(a, b) && Renumbered(b, c)
    ensures Renumbered(a, c)
  {
    forall k | 0 <= k < |a| ensures Same(a[k], c[k]) {
      assert Same(a[k], b[k]) && Same(b[k], c[k]);
    }
  }

  lemma Transitive(a: seq<Element>, b: seq<Element>, c: seq<Element>, k: nat)
    requires Renumbered(a, b) && Renumbered(b, c) && k < |a|
    ensures Renumbered(a, c) && Same(a[k], b[k]) && Same(b[k], c[k])
  {
    AllSame(a, b, c);
  }

  lemma RegularAlone(layout: seq<Element>, k: nat)
    requires Regular(layout) && k < |layout|
    ensures Alone(layout, k) && (layout[k].name != Texcoord ==> layout[k].index == 0)
    ensures layout[k].name != VertexId
    ensures layout[k].name == Texcoord ==> forall n :: 0 <= n < layout[k].index ==> Has(layout, Texcoord, n)
  {
    hide Has;
    forall i | 0 <= i < |layout| && i != k ensures !Same(layout[i], layout[k]) {
      assert i < k || k < i;
      assert !Same(layout[if i < k then i else k], layout[if i < k then k else i]);
    }
  }

  lemma HasSame(a: seq<Element>, b: seq<Element>, name: Semantic, n: nat)
    requires Renumbered(a, b)
    ensures Has(a, name, n) == Has(b, name, n)
  {
    FindSame(a, b, name, n);
  }

  lemma WantsIsHas(layout: seq<Element>, name: Semantic)
    requires Regular(layout) && name != Texcoord
    ensures Wants(layout, name) <==> Has(layout, name, 0)
  {
    if Wants(layout, name) {
      var i :| 0 <= i < |layout| && layout[i].name == name;
      assert Find(layout, name, 0) <= i;
    }
  }

  /** Slots are the positions of the buffers if and only if the layout has a position; without one, every slot is the
      position of the buffer before the right one. */
  lemma SlotsMatchBuffers(layout: seq<Element>, k: nat)
    requires Regular(layout) && k < |layout|
    ensures var slot := AssignSlots(layout)[k].slot;
      && (slot == BufferIndex(layout, layout[k]) <==> Has(layout, Position, 0))
      && (!Has(layout, Position, 0) ==> slot + 1 == BufferIndex(layout, layout[k]))
  {
    AssignedSlot(layout, k);
    WantsIsHas(layout, Normal);
    WantsIsHas(layout, Color);
    WantsIsHas(layout, Tangent);
    if layout[k].name == Position {
      FindAt(layout, k);
    }
    hide Find, AssignSlots;
  }

  // ---------------------------------------------------------------------------------------------------------
  // Layouts of structs

  /** The elements that a list of mappings stands for; an unknown semantic throws. */
  function ElementsOf(mappings: seq<string>): Result<seq<Element>> {
    if mappings == [] then Ok([])
    else
      match ConvertSemantic(SemanticName(mappings[0]))
      case Thrown => Thrown
      case Ok(name) =>
        match ElementsOf(mappings[1..])
        case Thrown => Thrown
        case Ok(more) => Ok([Element(name, SemanticIndex(mappings[0]), 0)] + more)
  }

  lemma {:induction false} ElementsAppend(a: seq<string>, b: seq<string>)
    ensures var x, y := ElementsOf(a), ElementsOf(b);
      ElementsOf(a + b) == if x.Ok? && y.Ok? then Ok(x.value + y.value) else Thrown
  {
    hide ConvertSemantic, SemanticName, SemanticIndex;
    if a == [] {
      assert a + b == b;
      assert ElementsOf(b).Ok? ==> [] + ElementsOf(b).value == ElementsOf(b).value;
    } else {
      assert (a + b)[1..] == a[1..] + b;
      ElementsAppend(a[1..], b);
      var head, x, y := ConvertSemantic(SemanticName(a[0])), ElementsOf(a[1..]), ElementsOf(b);
      if head.Ok? && x.Ok? && y.Ok? {
        var e := [Element(head.value, SemanticIndex(a[0]), 0)];
        assert e + (x.value + y.value) == (e + x.value) + y.value;
      }
    }
  }

  lemma {:induction false} TexcoordSlotsKeep(layout: seq<Element>, index: nat, slot: nat)
    ensures Renumbered(layout, TexcoordSlots(layout, index, slot))
    decreases Texcoords(layout, index)
  {
    var i := Find(layout, Texcoord, index);
    if i < |layout| {
      TexcoordsRunOut(layout, index);
      SlotsDoNotMatter(layout, i, slot, index + 1);
      TexcoordSlotsKeep(layout[i := layout[i].(slot := slot)], index + 1, slot + 1);
    }
  }

  lemma SetSlotKeeps(layout: seq<Element>, name: Semantic, slot: nat)
    ensures Renumbered(layout, SetSlot(layout, name, slot).0)
  {
  }

  lemma AssignSlotsKeep(layout: seq<Element>)
    ensures Renumbered(layout, AssignSlots(layout))
  {
    var (l1, s1) := SetSlot(layout, Position, 0);
    var (l2, s2) := SetSlot(l1, Normal, s1);
    var (l3, s3) := SetSlot(l2, Color, s2);
    var (l4, s4) := SetSlot(l3, Tangent, s3);
    assert AssignSlots(layout) == TexcoordSlots(l4, 0, s4);
    hide AssignSlots, SetSlot, TexcoordSlots, Renumbered;
    SetSlotKeeps(layout, Position, 0);
    SetSlotKeeps(l1, Normal, s1);
    SetSlotKeeps(l2, Color, s2);
    SetSlotKeeps(l3, Tangent, s3);
    TexcoordSlotsKeep(l4, 0, s4);
    AllSame(layout, l1, l2);
    AllSame(layout, l2, l3);
    AllSame(layout, l3, l4);
    AllSame(layout, l4, TexcoordSlots(l4, 0, s4));
  }

  /** Nesting does not matter: the layout has one element for each leaf, in order. Building it throws if and only if a
      leaf has an unknown semantic. */
  lemma {:induction false} OneElementPerLeaf(vars: seq<Var>, layout: seq<Element>)
    ensures var all, es := AddVars(vars, layout), ElementsOf(Mappings(vars));
      (all.Ok? <==> es.Ok?) && (all.Ok? ==> Renumbered(layout + es.value, all.value))
    decreases vars, 0
  {
    hide ConvertSemantic, SemanticName, SemanticIndex;
    if vars != [] {
      OneElementPerLeafOf(vars[0], layout);
      ElementsAppend(MappingsOf(vars[0]), Mappings(vars[1..]));
      var next := AddVar(vars[0], layout);
      if next.Ok? {
        OneElementPerLeaf(vars[1..], next.value);
        var x, y := ElementsOf(MappingsOf(vars[0])), ElementsOf(Mappings(vars[1..]));
        if y.Ok? {
          assert layout + (x.value + y.value) == (layout + x.value) + y.value;
          RenumberedAppend(layout + x.value, next.value, y.value);
        }
      }
      hide AddVar, MappingsOf, ElementsOf;
    }
  }

  lemma RenumberedAppend(a: seq<Element>, b: seq<Element>, c: seq<Element>)
    requires Renumbered(a, b)
    ensures Renumbered(a + c, b + c)
  {
  }

  lemma {:induction false} OneElementPerLeafOf(v: Var, layout: seq<Element>)
    ensures var all, es := AddVar(v, layout), ElementsOf(MappingsOf(v));
      (all.Ok? <==> es.Ok?) && (all.Ok? ==> Renumbered(layout + es.value, all.value))
    decreases v, 2
  {
    hide SemanticName, SemanticIndex;
    match v
    case Unmapped =>
    case Mapped(mapping) => assert [mapping][1..] == [];
    case Struct(members) =>
      OneElementPerLeaf(members, layout);
      var all := AddVars(members, layout);
      if all.Ok? {
        AssignSlotsKeep(all.value);
        hide AddVars, AssignSlots, ElementsOf;
      }
  }

  const SEMANTICS := ["POSITION", "NORMAL", "COLOR", "TANGENT", "TEXCOORD", "VERTEXID"]

  lemma {:induction false} KnownExactly(mappings: seq<string>)
    ensures ElementsOf(mappings).Ok? <==> forall m :: m in mappings ==> SemanticName(m) in SEMANTICS
  {
    hide SemanticName, SemanticIndex;
    if mappings != [] {
      KnownExactly(mappings[1..]);
      assert ConvertSemantic(SemanticName(mappings[0])).Ok? <==> SemanticName(mappings[0]) in SEMANTICS;
    }
  }

  /** Building the layout throws if and only if some mapping, up to its first digit, is none of the six names. */
  lemma ThrowsExactly(vars: seq<Var>)
    ensures BuildFrom(vars, []).Thrown? <==> exists m :: m in Mappings(vars) && SemanticName(m) !in SEMANTICS
  {
    OneElementPerLeaf(vars, []);
    KnownExactly(Mappings(vars));
    hide SemanticName, ElementsOf, AddVars, Mappings, SEMANTICS;
  }

  lemma RegularSame(a: seq<Element>, b: seq<Element>)
    requires Renumbered(a, b) && Regular(a)
    ensures Regular(b) && forall k :: 0 <= k < |a| ==> SlotOf(b, b[k]) == SlotOf(a, a[k])
  {
    forall name, n ensures Has(b, name, n) == Has(a, name, n) {
      HasSame(a, b, name, n);
    }
    hide Has;
  }

  /** A shader's layout: if the semantics of its leaves are regular, each has the slot that those before it leave. */
  lemma LayoutOfShader(vars: seq<Var>, k: nat)
    requires ElementsOf(Mappings(vars)).Ok? && Regular(ElementsOf(Mappings(vars)).value)
    requires k < |ElementsOf(Mappings(vars)).value|
    ensures var es, r := ElementsOf(Mappings(vars)).value, BuildFrom(vars, []);
      r.Ok? && Renumbered(es, r.value) && r.value[k].slot == SlotOf(es, es[k])
  {
    var es := ElementsOf(Mappings(vars)).value;
    OneElementPerLeaf(vars, []);
    assert [] + es == es;
    var all := AddVars(vars, []).value;
    RegularSame(es, all);
    AssignedSlot(all, k);
    Transitive(es, all, AssignSlots(all), k);
    hide AssignSlots, AddVars, ElementsOf, Regular, SlotOf;
  }

  /** As many buffers are expected as there are elements, and one more if there is no position. */
  function Count(layout: seq<Element>, name: Semantic): nat {
    if layout == [] then 0 else Count(layout[1..], name) + One(layout[0].name == name)
  }

  lemma {:induction false} CountAll(layout: seq<Element>)
    requires forall i :: 0 <= i < |layout| ==> layout[i].name != VertexId
    ensures |layout| == Count(layout, Position) + Count(layout, Normal) + Count(layout, Color)
                        + Count(layout, Tangent) + Count(layout, Texcoord)
    ensures Count(layout, Texcoord) == Texcoords(layout, 0)
  {
    if layout != [] {
      CountAll(layout[1..]);
    }
  }

  lemma {:induction false} CountOnce(layout: seq<Element>, name: Semantic)
    requires forall i, j :: 0 <= i < j < |layout| ==> !(layout[i].name == name && layout[j].name == name)
    ensures Count(layout, name) == One(Wants(layout, name))
  {
    if layout != [] {
      var rest := layout[1..];
      assert forall i :: 0 <= i < |rest| ==> rest[i] == layout[i + 1];
      CountOnce(rest, name);
      if Wants(rest, name) {
        var i :| 0 <= i < |rest| && rest[i].name == name;
        assert layout[i + 1].name == name;
      }
      if Wants(layout, name) && layout[0].name != name {
        var i :| 0 <= i < |layout| && layout[i].name == name;
        assert rest[i - 1].name == name;
      }
    }
  }

  lemma ExpectedBuffers(layout: seq<Element>)
    requires Regular(layout)
    ensures NumBuffersExpected(layout) + One(Has(layout, Position, 0)) == |layout| + 1
  {
    CountAll(layout);
    forall name: Semantic | name != Texcoord ensures Count(layout, name) == One(Wants(layout, name)) {
      forall i, j | 0 <= i < j < |layout| ensures !(layout[i].name == name && layout[j].name == name) {
        assert !Same(layout[i], layout[j]);
      }
      CountOnce(layout, name);
    }
    WantsIsHas(layout, Position);
    hide Count, Find, Texcoords;
  }
}
