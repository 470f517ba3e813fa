/** A Direct3D 11 shader: its parameters with their dirty flags, and its constant buffer on the GPU. */
module Direct3DShader {
  import opened Options
  import opened ConstantBuffer

  /** A flag that an upload looks at. */
  predicate Dirty(p: Param) {
    !p.kind.Texture? && p.changed
  }

  predicate AnyDirty(ps: seq<Param>) {
    exists i :: 0 <= i < |ps| && Dirty(ps[i])
  }

  /** Whether the parameter makes an upload give up. */
  predicate Unset(p: Param) {
    !p.kind.Texture? && p.curValue == []
  }

  /** The parameters after an upload went through them: flags are cleared up to the first one that was never set. */
  function Cleared(ps: seq<Param>): (r: seq<Param>)
    ensures |r| == |ps|
  {
    if ps == [] || Unset(ps[0]) then ps
    else [if ps[0].kind.Texture? then ps[0] else ps[0].(changed := false)] + Cleared(ps[1..])
  }

  /** Setting a value marks the parameter, unless it is the value it has. */
  function WithValue(p: Param, value: seq<Byte>): Param {
    if p.curValue == value then p else p.(curValue := value, changed := true)
  }

  function WithDefault(p: Param): Param {
    if p.defaultValue == [] then p else WithValue(p, p.defaultValue)
  }

  /** Flags have no part in what is assembled. */
  lemma {:induction false} ClearedAssembles(ps: seq<Param>, data: seq<Byte>)
    ensures Assemble(Cleared(ps), data) == Assemble(ps, data)
    ensures Assemble(ps, data).Some? ==> !AnyDirty(Cleared(ps))
  {
    if ps != [] && !Unset(ps[0]) {
      var r := Cleared(ps);
      assert r[1..] == Cleared(ps[1..]);
      if ps[0].kind.Texture? {
        ClearedAssembles(ps[1..], data);
      } else {
        ClearedAssembles(ps[1..], Padded(data, ps[0].pos) + ps[0].curValue);
      }
      if Assemble(ps, data).Some? {
        forall i | 0 <= i < |r| ensures !Dirty(r[i]) {
          if i > 0 {
            assert r[i] == Cleared(ps[1..])[i - 1];
          }
        }
      }
    }
  }

  lemma PackEnds(ps: seq<Param>)
    ensures ps[0..] == ps && forall c :: PackedSize(ps[|ps|..], c) == c
  {
  }

  lemma PackStep(ps: seq<Param>, i: nat, c: nat)
    requires i < |ps|
    ensures var next := if Sized(ps[i]) then Place(c, ByteSize(ps[i])) + ByteSize(ps[i]) else c;
      && Pack(ps[i..], c)[1..] == Pack(ps[i + 1..], next)
      && PackedSize(ps[i..], c) == PackedSize(ps[i + 1..], next)
      && Pack(ps[i..], c)[0] == if Sized(ps[i]) then ps[i].(pos := Place(c, ByteSize(ps[i]))) else ps[i]
  {
    assert ps[i..][0] == ps[i] && ps[i..][1..] == ps[i + 1..];
  }

  lemma UploadStep(ps: seq<Param>, i: nat, data: seq<Byte>)
    requires i < |ps|
    ensures var r := Cleared(ps[i..]);
      && |r| == |ps| - i
      && (Unset(ps[i]) ==> r == ps[i..])
      && (!Unset(ps[i]) ==> r[1..] == Cleared(ps[i + 1..]))
      && (!Unset(ps[i]) ==> r[0] == if ps[i].kind.Texture? then ps[i] else ps[i].(changed := false))
    ensures AnyDirty(ps[..i + 1]) <==> AnyDirty(ps[..i]) || Dirty(ps[i])
    ensures Unset(ps[i]) ==> Assemble(ps[i..], data) == None
    ensures !Unset(ps[i]) ==>
              Assemble(ps[i..], data) == Assemble(ps[i + 1..], if ps[i].kind.Texture? then data
                                                               else Padded(data, ps[i].pos) + ps[i].curValue)
  {
    assert ps[i..][0] == ps[i] && ps[i..][1..] == ps[i + 1..];
    assert ps[..i + 1] == ps[..i] + [ps[i]];
    if Dirty(ps[i]) {
      assert ps[..i + 1][i] == ps[i];
    }
    if AnyDirty(ps[..i]) {
      var j :| 0 <= j < i && Dirty(ps[..i][j]);
      assert ps[..i + 1][j] == ps[..i][j];
    }
  }

  lemma UploadEnds(ps: seq<Param>)
    ensures ps[0..] == ps && !AnyDirty(ps[..0]) && Cleared(ps)[0..] == Cleared(ps[0..])
    ensures ps[..|ps|] == ps && forall data :: Assemble(ps[|ps|..], data) == Some(data)
  {
  }

  /** No update is ever lost: unless a flag is set, the GPU has what the current values make up, if they make up a
      whole buffer at all. */
  predicate UpToDate(ps: seq<Param>, size: nat, bytes: seq<Byte>) {
    && |bytes| == size
    && (!AnyDirty(ps) && Fills(ps, size) ==> Assemble(ps, []) == Some(bytes))
  }

  /** The current values make up a buffer of this size. */
  predicate Fills(ps: seq<Param>, size: nat) {
    Assemble(ps, []).Some? && |Assemble(ps, []).value| == size
  }

  class GsShader {
    var params: seq<Param>
    var constantSize: nat
    var constants: seq<Byte>   // the first `constantSize` bytes of the buffer on the GPU
    ghost var uploads: nat     // how often the buffer was written

    ghost predicate Valid()
      reads this
    {
      UpToDate(params, constantSize, constants)
    }

    constructor (params: seq<Param>)
      ensures this.params == params && constantSize == 0 && constants == [] && uploads == 0
    {
      this.params, constantSize, constants, uploads := params, 0, [], 0;
    }

    /** Lays the parameters out and gives them their default values. The new buffer holds `garbage`. */
    method BuildConstantBuffer(garbage: seq<Byte>)
      requires constantSize == 0 && |garbage| == PackedSize(params, 0)
      requires forall i :: 0 <= i < |params| ==> params[i].curValue == []
      modifies this
      ensures Valid() && constantSize == PackedSize(old(params), 0) && |params| == |old(params)|
      ensures forall i :: 0 <= i < |params| ==> params[i] == WithDefault(Pack(old(params), 0)[i])
    {
      PackKeepsValues(params, 0);
      PlaceParams();
      constants := garbage;
      SetDefaults();
    }

    method PlaceParams()
      requires constantSize == 0
      modifies `params, `constantSize
      ensures params == Pack(old(params), 0) && constantSize == PackedSize(old(params), 0)
    {
      hide Pack, PackedSize;
      ghost var ps := params;
      ghost var all := Pack(ps, 0);
      PackEnds(ps);
      for i := 0 to |params|
        invariant |params| == |ps| == |all| && params[i..] == ps[i..] && params[..i] == all[..i]
        invariant Pack(ps[i..], constantSize) == all[i..] && PackedSize(ps[i..], constantSize) == PackedSize(ps, 0)
      {
        PackStep(ps, i, constantSize);
        PlaceParam(i);
        assert all[i] == all[i..][0] && all[i..][1..] == all[i + 1..];
      }
      assert params == all;
    }

    method PlaceParam(i: nat)
      requires i < |params|
      modifies `params, `constantSize
      ensures var p, c := old(params[i]), old(constantSize);
        && params == old(params)[i := if Sized(p) then p.(pos := Place(c, ByteSize(p))) else p]
        && constantSize == if Sized(p) then Place(c, ByteSize(p)) + ByteSize(p) else c
    {
      var p := params[i];
      if Sized(p) {
        var size := ByteSize(p);
        if size != 0 && constantSize % 16 != 0 {
          var alignMax := RoundUp(constantSize);
          if size + constantSize > alignMax {
            constantSize := alignMax;
          }
        }
        params := params[i := p.(pos := constantSize)];
        constantSize := constantSize + size;
      } else {
        assert params == params[i := p];
      }
    }

    /** Gives values without bytes their defaults. */
    method SetDefaults()
      requires |constants| == constantSize
      requires forall i :: 0 <= i < |params| ==> params[i].curValue == []
      modifies `params
      ensures Valid() && |params| == |old(params)|
      ensures forall i :: 0 <= i < |params| ==> params[i] == WithDefault(old(params[i]))
    {
      for i := 0 to |params|
        invariant |params| == |old(params)|
        invariant forall j :: 0 <= j < i ==> params[j] == WithDefault(old(params[j]))
        invariant forall j :: i <= j < |params| ==> params[j] == old(params[j])
      {
        if params[i].defaultValue != [] {
          SetValue(i, params[i].defaultValue);
        }
      }
      var d := Assemble(params, []);
      if d.Some? {
        SetOrTexture(params, []);
        if !AnyDirty(params) {
          OnlyTexturesAssemble(params, []);
        }
      }
    }

    method SetValue(i: nat, value: seq<Byte>)
      requires i < |params|
      modifies `params
      ensures params == old(params)[i := WithValue(old(params[i]), value)]
      ensures old(Valid()) ==> Valid()
    {
      var p := params[i];
      if |p.curValue| != |value| || p.curValue != value {
        params := params[i := p.(curValue := value, changed := true)];
        assert !p.kind.Texture? ==> Dirty(params[i]);
      }
      ghost var before := old(params);
      if p.kind.Texture? {
        TexturesDoNotMatter(before, params, []);
      }
    }

    /** Fails exactly if a value was never set or the values do not fill the buffer, and leaves the GPU alone then,
        even though it may have cleared flags. Otherwise the GPU has the current values afterwards; it is written only
        if a flag was set, and then there is a buffer to write. */
    method UploadParams() returns (ok: bool)
      requires Valid()
      modifies this
      ensures Valid() && constantSize == old(constantSize) && params == Cleared(old(params))
      ensures ok <==> Fills(old(params), constantSize)
      ensures ok ==> Assemble(old(params), []) == Some(constants)
      ensures !ok ==> constants == old(constants)
      ensures uploads == old(uploads) + if ok && AnyDirty(old(params)) then 1 else 0
      ensures ok && AnyDirty(old(params)) ==> constantSize > 0
    {
      ClearedAssembles(params, []);
      var known, constData, upload := GatherParams();
      if !known || |constData| != constantSize {
        return false;
      }
      if upload {
        constants := constData;
        uploads := uploads + 1;
      }
      ok := true;
    }

    /** The loop over the parameters. */
    method GatherParams() returns (known: bool, constData: seq<Byte>, upload: bool)
      modifies `params
      ensures params == Cleared(old(params))
      ensures Assemble(old(params), []) == if known then Some(constData) else None
      ensures known ==> (upload <==> AnyDirty(old(params))) && (upload ==> constData != [])
    {
      known, constData, upload := true, [], false;
      ghost var ps := params;
      UploadEnds(ps);
      hide Cleared, Assemble, AnyDirty, Padded;
      for i := 0 to |params|
        invariant known && |params| == |ps| && params[i..] == ps[i..]
        invariant params[..i] == Cleared(ps)[..i] && Cleared(ps)[i..] == Cleared(ps[i..])
        invariant Assemble(ps[i..], constData) == Assemble(ps, [])
        invariant upload <==> AnyDirty(ps[..i])
        invariant upload ==> constData != []
      {
        UploadStep(ps, i, constData);
        assert params[i] == params[i..][0] == ps[i] && Cleared(ps)[i] == Cleared(ps)[i..][0];
        assert Cleared(ps)[i..][1..] == Cleared(ps)[i + 1..] && ps[i..][1..] == params[i + 1..] == ps[i + 1..];
        known, constData, upload := UpdateParam(i, constData, upload);
        if !known {
          assert params == params[..i] + params[i..] && Cleared(ps) == Cleared(ps)[..i] + Cleared(ps)[i..];
          return;
        }
      }
      assert params[..|ps|] == params;
    }

    /** One parameter's part in an upload. Binding textures is not modelled. */
    method UpdateParam(i: nat, constData: seq<Byte>, upload: bool) returns (known: bool, data: seq<Byte>, flag: bool)
      requires i < |params|
      modifies `params
      ensures var p := old(params[i]);
        && known == !Unset(p)
        && flag == (upload || (known && Dirty(p)))
        && data == (if p.kind.Texture? || !known then constData else Padded(constData, p.pos) + p.curValue)
        && params == if p.kind.Texture? || !known then old(params) else old(params)[i := p.(changed := false)]
    {
      known, data, flag := true, constData, upload;
      var p := params[i];
      if !p.kind.Texture? {
        if p.curValue == [] {
          known := false;
          return;
        }
        data := Padded(constData, p.pos) + p.curValue;
        if p.changed {
          flag := true;
          params := params[i := p.(changed := false)];
        }
      }
      assert params == if p.kind.Texture? then old(params) else old(params)[i := p.(changed := false)];
    }

    /** On a new device: a new buffer that holds `garbage`, and no values but the defaults. */
    method Rebuild(garbage: seq<Byte>)
      requires |garbage| == constantSize
      modifies this
      ensures Valid() && constantSize == old(constantSize) && |params| == |old(params)|
      ensures forall i :: 0 <= i < |params| ==> params[i] == WithDefault(old(params[i]).(curValue := []))
    {
      constants := garbage;
      for i := 0 to |params|
        invariant |params| == |old(params)| && |constants| == constantSize == old(constantSize)
        invariant forall j :: 0 <= j < i ==> params[j] == old(params[j]).(curValue := [])
        invariant forall j :: i <= j < |params| ==> params[j] == old(params[j])
      {
        params := params[i := params[i].(curValue := [])];
      }
      SetDefaults();
    }
  }

  lemma PackKeepsValues(ps: seq<Param>, c: nat)
    ensures forall i :: 0 <= i < |ps| ==> Pack(ps, c)[i].curValue == ps[i].curValue
  {
  }

  lemma SetOrTexture(ps: seq<Param>, data: seq<Byte>)
    requires Assemble(ps, data).Some?
    ensures forall i :: 0 <= i < |ps| ==> !Unset(ps[i])
  {
    if ps != [] {
      SetOrTexture(ps[1..], if ps[0].kind.Texture? then data else Padded(data, ps[0].pos) + ps[0].curValue);
      assert forall i :: 0 < i < |ps| ==> ps[i] == ps[1..][i - 1];
    }
  }

  lemma OnlyTexturesAssemble(ps: seq<Param>, data: seq<Byte>)
    requires forall i :: 0 <= i < |ps| ==> ps[i].kind.Texture?
    ensures Assemble(ps, data) == Some(data)
  {
  }

  lemma TexturesDoNotMatter(ps: seq<Param>, qs: seq<Param>, data: seq<Byte>)
    requires |ps| == |qs|
    requires forall i :: 0 <= i < |ps| ==> ps[i] == qs[i] || (ps[i].kind.Texture? && qs[i].kind.Texture?)
    ensures Assemble(ps, data) == Assemble(qs, data)
  {
    if ps != [] {
      TexturesDoNotMatter(ps[1..], qs[1..],
                          if ps[0].kind.Texture? then data else Padded(data, ps[0].pos) + ps[0].curValue);
    }
  }
}
