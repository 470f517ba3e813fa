/** The uniforms of a Metal shader: what the transpiler says about them, the values the host sets, and the bytes that
    are uploaded for a draw call. */
module MetalUniforms {
  import opened ConstantBuffer
  import opened UniformLayout

  // ---------------------------------------------------------------------------------------------------------
  // What an upload writes

  /** A value and where it goes, if it is to be written. */
  datatype Write = Write(offset: nat, values: seq<Byte>, due: bool)

  predicate InBounds(w: Write, size: nat) {
    w.due ==> w.offset + |w.values| <= size
  }

  /** The bytes from the offset on are replaced by the value. */
  function Put(data: seq<Byte>, w: Write): (r: seq<Byte>)
    requires InBounds(w, |data|)
    ensures |r| == |data|
  {
    if w.due then data[..w.offset] + w.values + data[w.offset + |w.values|..] else data
  }

  predicate WithinBounds(ws: seq<Write>, size: nat) {
    forall i :: 0 <= i < |ws| ==> InBounds(ws[i], size)
  }

  /** The first `n` values written one after the other. */
  function Written(data: seq<Byte>, ws: seq<Write>, n: nat): (r: seq<Byte>)
    requires n <= |ws| && WithinBounds(ws, |data|)
    ensures |r| == |data|
  {
    if n == 0 then data else Put(Written(data, ws, n - 1), ws[n - 1])
  }

  predicate Holds(data: seq<Byte>, w: Write) {
    w.offset + |w.values| <= |data| && data[w.offset..w.offset + |w.values|] == w.values
  }

  /** Neither value touches the other one's bytes. */
  predicate Apart(v: Write, w: Write) {
    v.values == [] || w.values == [] || v.offset + |v.values| <= w.offset || w.offset + |w.values| <= v.offset
  }

  predicate AllApart(ws: seq<Write>) {
    forall i, j :: 0 <= i < |ws| && 0 <= j < |ws| && i != j ==> Apart(ws[i], ws[j])
  }

  /** Values that are apart do not disturb each other: each one that is due is in place afterwards, and any other is
      there exactly if it was before. */
  lemma {:induction false} WrittenIsExact(data: seq<Byte>, ws: seq<Write>, n: nat, i: nat)
    requires n <= |ws| && i < |ws| && WithinBounds(ws, |data|) && AllApart(ws)
    ensures Holds(Written(data, ws, n), ws[i]) <==> (i < n && ws[i].due) || Holds(data, ws[i])
  {
    if n > 0 {
      WrittenIsExact(data, ws, n - 1, i);
      if i == n - 1 {
        PutHolds(Written(data, ws, n - 1), ws[i]);
      } else {
        assert Apart(ws[i], ws[n - 1]);
        PutElsewhere(Written(data, ws, n - 1), ws[n - 1], ws[i]);
      }
    }
  }

  /** The same values, none of them due. */
  function AllWritten(ws: seq<Write>): (r: seq<Write>)
    ensures |r| == |ws|
  {
    seq(|ws|, i requires 0 <= i < |ws| => ws[i].(due := false))
  }

  /** Exactly the values that were due, or in place already, are in place. */
  ghost predicate EachPlaced(before: seq<Byte>, after: seq<Byte>, ws: seq<Write>) {
    forall i :: 0 <= i < |ws| ==> (Holds(after, ws[i]) <==> ws[i].due || Holds(before, ws[i]))
  }

  lemma EachInPlace(data: seq<Byte>, ws: seq<Write>)
    requires WithinBounds(ws, |data|) && AllApart(ws)
    ensures EachPlaced(data, Written(data, ws, |ws|), ws)
  {
    hide Written, Holds, Apart;
    forall i | 0 <= i < |ws| ensures Holds(Written(data, ws, |ws|), ws[i]) <==> ws[i].due || Holds(data, ws[i]) {
      WrittenIsExact(data, ws, |ws|, i);
    }
  }

  lemma PutHolds(data: seq<Byte>, w: Write)
    requires InBounds(w, |data|)
    ensures w.due ==> Holds(Put(data, w), w)
  {
  }

  lemma PutElsewhere(data: seq<Byte>, w: Write, v: Write)
    requires InBounds(w, |data|)
    requires Apart(v, w)
    ensures Holds(Put(data, w), v) <==> Holds(data, v)
  {
    var r := Put(data, w);
    var end := v.offset + |v.values|;
    if w.values == [] {
      assert r == data;
    } else if end <= |data| {
      assert r[v.offset..end] == data[v.offset..end];
    }
  }

  /** A byte outside all values that are due stays as it was. */
  lemma {:induction false} RestIsUntouched(data: seq<Byte>, ws: seq<Write>, n: nat, k: nat)
    requires n <= |ws| && WithinBounds(ws, |data|) && k < |data|
    requires forall i :: 0 <= i < n && ws[i].due ==> k < ws[i].offset || k >= ws[i].offset + |ws[i].values|
    ensures Written(data, ws, n)[k] == data[k]
  {
    if n > 0 {
      RestIsUntouched(data, ws, n - 1, k);
    }
  }

  // ---------------------------------------------------------------------------------------------------------
  // The transpiler's list

  /** A uniform as the parser found it. */
  datatype Declaration = Declaration(kind: ParamType, defaultValue: seq<Byte>)

  /** What the layout makes of the declarations of a fragment shader, or of another one. */
  function Slots(fragment: bool, ds: seq<Declaration>): (slots: seq<Slot>)
    ensures |slots| == |ds|
  {
    seq(|ds|, i requires 0 <= i < |ds| => SlotOf(fragment, ds[i].kind))
  }

  class ShaderUniform {
    const gsType: ParamType
    const textureSlot: nat
    const byteOffset: nat
    var currentValues: seq<Byte>
    var defaultValues: seq<Byte>
    var hasUpdates: bool

    constructor (gsType: ParamType, textureSlot: nat, byteOffset: nat, values: seq<Byte>)
      ensures this.gsType == gsType && this.textureSlot == textureSlot && this.byteOffset == byteOffset
      ensures currentValues == defaultValues == values && !hasUpdates
    {
      this.gsType, this.textureSlot, this.byteOffset := gsType, textureSlot, byteOffset;
      currentValues, defaultValues, hasUpdates := values, values, false;
    }

    /** Textures are bound, not written. */
    ghost function Pending(): Write
      reads this
    {
      if gsType.Texture? then Write(byteOffset, [], false) else Write(byteOffset, currentValues, hasUpdates)
    }

    method SetParameter(data: seq<Byte>)
      modifies `currentValues, `hasUpdates
      ensures currentValues == data && hasUpdates
    {
      currentValues := data;
      hasUpdates := true;
    }

    /** Values of any other size than the type's are refused. */
    method SetVal(value: seq<Byte>) returns (accepted: bool)
      modifies `currentValues, `hasUpdates
      ensures accepted <==> |value| == Size(gsType)
      ensures accepted ==> currentValues == value && hasUpdates && |currentValues| <= MtlSize(gsType)
      ensures !accepted ==> currentValues == old(currentValues) && hasUpdates == old(hasUpdates)
    {
      accepted := Size(gsType) == |value|;
      if accepted {
        SetParameter(value);
      }
    }

    /** Going back to the default does not mark the value as changed. */
    method SetDefault()
      modifies `currentValues
      ensures currentValues == defaultValues
    {
      currentValues := defaultValues;
    }
  }

  /** The `i`th uniform is what the declarations ask for. */
  ghost predicate IsDeclared(u: ShaderUniform, fragment: bool, ds: seq<Declaration>, i: nat)
    requires i < |ds|
  {
    var slots := Slots(fragment, ds);
    && u.gsType == ds[i].kind
    && u.byteOffset == Offset(slots, i)
    && u.textureSlot == if slots[i].Bound? then TextureSlot(slots, i) else 0
  }

  ghost predicate Describes(us: seq<ShaderUniform>, fragment: bool, ds: seq<Declaration>) {
    |us| <= |ds| && forall i :: 0 <= i < |us| ==> IsDeclared(us[i], fragment, ds, i)
  }

  ghost predicate HasDefaults(us: seq<ShaderUniform>, ds: seq<Declaration>)
    requires |us| <= |ds|
    reads us
  {
    forall i :: 0 <= i < |us| ==>
      us[i].currentValues == us[i].defaultValues == ds[i].defaultValue && !us[i].hasUpdates
  }

  predicate Distinct(us: seq<ShaderUniform>) {
    forall i, j :: 0 <= i < j < |us| ==> us[i] != us[j]
  }

  /** The next uniform, after a buffer of this size and as many textures. */
  method Declare(fragment: bool, ds: seq<Declaration>, i: nat, size: nat, textures: nat)
      returns (uniform: ShaderUniform)
    requires i < |ds| && size == SizeBefore(Slots(fragment, ds), i) && textures == TextureSlot(Slots(fragment, ds), i)
    ensures fresh(uniform) && IsDeclared(uniform, fragment, ds, i) && !uniform.hasUpdates
    ensures uniform.currentValues == uniform.defaultValues == ds[i].defaultValue
  {
    hide And;
    var kind := ds[i].kind;
    var isTexture := fragment && kind.Texture?;
    var bufferOffset := size;
    if !isTexture {
      var alignment: int := MtlAlignment(kind);
      bufferOffset := And(size + (alignment - 1), Complement(alignment - 1));
    }
    assert SlotOf(fragment, kind) == Slots(fragment, ds)[i] && bufferOffset == Offset(Slots(fragment, ds), i);
    uniform := new ShaderUniform(kind, if isTexture then textures else 0, bufferOffset, ds[i].defaultValue);
  }

  method BuildMetadata(fragment: bool, ds: seq<Declaration>)
    returns (uniforms: seq<ShaderUniform>, size: nat, textures: nat)
    ensures |uniforms| == |ds| && Describes(uniforms, fragment, ds) && HasDefaults(uniforms, ds)
    ensures Distinct(uniforms) && fresh(set u | u in uniforms)
    ensures size == SizeBefore(Slots(fragment, ds), |ds|) && textures == TextureSlot(Slots(fragment, ds), |ds|)
  {
    uniforms, size, textures := [], 0, 0;
    ghost var slots := Slots(fragment, ds);
    assert SizeBefore(slots, 0) == 0 && TextureSlot(slots, 0) == 0;
    assert HasDefaults([], ds) && Describes([], fragment, ds) && Distinct(uniforms);
    hide IsDeclared, SizeBefore, TextureSlot, MtlSize, And, Offset, HasDefaults, Describes, Distinct;
    for i := 0 to |ds|
      invariant |uniforms| == i && Describes(uniforms, fragment, ds) && HasDefaults(uniforms, ds)
      invariant Distinct(uniforms) && fresh(set u | u in uniforms)
      invariant size == SizeBefore(slots, i) && textures == TextureSlot(slots, i)
    {
      var uniform := Declare(fragment, ds, i, size, textures);
      assert uniform !in uniforms;
      NextUniform(fragment, ds, uniform, i);
      var isTexture := fragment && ds[i].kind.Texture?;
      size := uniform.byteOffset + if isTexture then 0 else MtlSize(ds[i].kind);
      if isTexture {
        textures := textures + 1;
      }
      ghost var before := uniforms;
      uniforms := uniforms + [uniform];
      Appended(before, uniform, fragment, ds);
    }
  }

  /** A further uniform at the end of the list. */
  lemma Appended(us: seq<ShaderUniform>, u: ShaderUniform, fragment: bool, ds: seq<Declaration>)
    requires |us| < |ds| && Describes(us, fragment, ds) && HasDefaults(us, ds) && Distinct(us) && u !in us
    requires IsDeclared(u, fragment, ds, |us|)
    requires u.currentValues == u.defaultValues == ds[|us|].defaultValue && !u.hasUpdates
    ensures Describes(us + [u], fragment, ds) && HasDefaults(us + [u], ds) && Distinct(us + [u])
  {
    hide IsDeclared;
  }

  lemma NextUniform(fragment: bool, ds: seq<Declaration>, u: ShaderUniform, i: nat)
    requires i < |ds| && IsDeclared(u, fragment, ds, i)
    ensures var slots := Slots(fragment, ds);
      var isTexture := fragment && ds[i].kind.Texture?;
      && SizeBefore(slots, i + 1) == u.byteOffset + (if isTexture then 0 else MtlSize(ds[i].kind))
      && TextureSlot(slots, i + 1) == TextureSlot(slots, i) + if isTexture then 1 else 0
  {
  }

  // ---------------------------------------------------------------------------------------------------------
  // The shader

  class MetalShader {
    const fragment: bool
    const uniforms: seq<ShaderUniform>
    var uniformData: seq<Byte>

    ghost predicate Valid(ds: seq<Declaration>)
      reads `uniformData
    {
      && |uniforms| == |ds| && Describes(uniforms, fragment, ds) && Distinct(uniforms)
      && |uniformData| == UniformSize(Slots(fragment, ds))
    }

    ghost function Writes(): (ws: seq<Write>)
      reads uniforms
      ensures |ws| == |uniforms|
    {
      seq(|uniforms|, i requires 0 <= i < |uniforms| reads uniforms => uniforms[i].Pending())
    }

    /** No value is longer than the room for it. */
    ghost predicate ValuesMatch()
      reads uniforms
    {
      forall i :: 0 <= i < |uniforms| && HasPlace(Value(uniforms[i].gsType)) ==>
        |uniforms[i].currentValues| <= MtlSize(uniforms[i].gsType)
    }

    constructor (fragment: bool, uniforms: seq<ShaderUniform>, size: nat, ghost ds: seq<Declaration>)
      requires |uniforms| == |ds| && Describes(uniforms, fragment, ds) && Distinct(uniforms)
      requires size == SizeBefore(Slots(fragment, ds), |ds|)
      ensures Valid(ds) && this.fragment == fragment && this.uniforms == uniforms
      ensures forall k :: 0 <= k < |uniformData| ==> uniformData[k] == 0
    {
      this.fragment, this.uniforms := fragment, uniforms;
      hide And, SizeBefore, Offset;
      uniformData := Zeros(And(size + 0x0F, Complement(0x0F)));
    }

    /** Writes what was set since the last time. */
    method UploadShaderParameters(ghost ds: seq<Declaration>)
      requires Valid(ds) && WithinBounds(Writes(), |uniformData|)
      modifies `uniformData, (set u | u in uniforms)`hasUpdates
      ensures Valid(ds) && Writes() == AllWritten(old(Writes()))
      ensures uniformData == Written(old(uniformData), old(Writes()), |uniforms|)
    {
      ghost var ws, data := Writes(), uniformData;
      hide Put, Describes, UniformSize;
      for i := 0 to |uniforms|
        invariant uniformData == Written(data, ws, i)
        invariant forall j :: 0 <= j < i ==> !uniforms[j].hasUpdates
        invariant forall j :: i <= j < |uniforms| ==> uniforms[j].hasUpdates == old(uniforms[j].hasUpdates)
      {
        assert ws[i] == uniforms[i].Pending();
        UpdateUniform(uniforms[i]);
      }
      assert Writes() == AllWritten(ws);
    }

    method UpdateUniform(uniform: ShaderUniform)
      requires InBounds(uniform.Pending(), |uniformData|)
      modifies `uniformData, uniform`hasUpdates
      ensures uniformData == Put(old(uniformData), old(uniform.Pending())) && !uniform.hasUpdates
    {
      if !uniform.gsType.Texture? && uniform.hasUpdates {
        var startIndex := uniform.byteOffset;
        var endIndex := startIndex + |uniform.currentValues|;
        uniformData := uniformData[..startIndex] + uniform.currentValues + uniformData[endIndex..];
      }
      uniform.hasUpdates := false;
    }

    /** In a layout without strings and unknown types, where values fit their types, an upload brings each value that
        was set into place and disturbs no other. A value that was not set since the last upload, such as a default, is
        in place afterwards only if it was before. */
    lemma UploadIsExact(ds: seq<Declaration>)
      requires Valid(ds) && ValuesMatch() && Plain(Slots(fragment, ds))
      ensures WithinBounds(Writes(), |uniformData|)
      ensures EachPlaced(uniformData, Written(uniformData, Writes(), |uniforms|), Writes())
    {
      hide Written, Describes, Holds, UniformSize, Plain;
      ValuesHaveRoom(ds);
      EachInPlace(uniformData, Writes());
    }

    /** Defaults do not count as set. After the first upload into a new buffer the bytes of every value that nobody set
        are zero, whatever its default is. */
    lemma DefaultsAreNotWritten(ds: seq<Declaration>, i: nat)
      requires Valid(ds) && ValuesMatch() && Plain(Slots(fragment, ds))
      requires forall k :: 0 <= k < |uniformData| ==> uniformData[k] == 0
      requires i < |uniforms| && HasPlace(Slots(fragment, ds)[i]) && !uniforms[i].hasUpdates
      ensures WithinBounds(Writes(), |uniformData|) && End(Slots(fragment, ds), i) <= |uniformData|
      ensures forall k :: Offset(Slots(fragment, ds), i) <= k < End(Slots(fragment, ds), i) ==>
        Written(uniformData, Writes(), |uniforms|)[k] == 0
    {
      var slots, ws := Slots(fragment, ds), Writes();
      ValuesHaveRoom(ds);
      ValuesFit(slots, i);
      OffsetsAreInOrder(slots);
      hide Written, UniformSize, Offset, Plain, Interrupted;
      forall k | Offset(slots, i) <= k < End(slots, i)
        ensures Written(uniformData, ws, |ws|)[k] == 0
      {
        forall j | 0 <= j < |ws| && ws[j].due
          ensures k < ws[j].offset || k >= ws[j].offset + |ws[j].values|
        {
          RoomsAreApart(ds, i, j);
        }
        RestIsUntouched(uniformData, ws, |ws|, k);
      }
    }

    /** A value that is written stays out of the room of another one. */
    lemma RoomsAreApart(ds: seq<Declaration>, i: nat, j: nat)
      requires Valid(ds) && ValuesMatch() && Plain(Slots(fragment, ds)) && InOrder(Slots(fragment, ds))
      requires i < |uniforms| && j < |uniforms| && i != j && HasPlace(Slots(fragment, ds)[i]) && Writes()[j].due
      ensures var slots, w := Slots(fragment, ds), Writes()[j];
        w.values == [] || w.offset + |w.values| <= Offset(slots, i) || End(slots, i) <= w.offset
    {
      var slots, w := Slots(fragment, ds), Writes()[j];
      assert IsDeclared(uniforms[j], fragment, ds, j);
      hide Offset;
      assert HasPlace(slots[j]) && w.offset + |w.values| <= End(slots, j);
    }

    /** Values that fit their types stay within the buffer and apart from each other. */
    lemma ValuesHaveRoom(ds: seq<Declaration>)
      requires Valid(ds) && ValuesMatch() && Plain(Slots(fragment, ds))
      ensures WithinBounds(Writes(), |uniformData|) && AllApart(Writes())
    {
      hide And, Aligned, Offset;
      var slots, ws := Slots(fragment, ds), Writes();
      OffsetsAreInOrder(slots);
      forall i | 0 <= i < |ws| && ws[i].due ensures ws[i].offset + |ws[i].values| <= |uniformData| {
        ValuesFit(slots, i);
      }
      forall i, j | 0 <= i < j < |ws| && ws[i].values != [] && ws[j].values != []
        ensures ws[i].offset + |ws[i].values| <= ws[j].offset
      {
        assert HasPlace(slots[i]) && HasPlace(slots[j]);
        assert End(slots, i) <= Offset(slots, j);
      }
    }
  }
}
