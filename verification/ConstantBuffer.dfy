/** Shader constants of the Direct3D 11 back end: where they are placed in the constant buffer, and when their values
    are uploaded. */
module ConstantBuffer {
  import opened Options

  type Byte = bv8

  datatype ParamType =
    | Bool | Int | Float | Int2 | Vec2 | Int3 | Vec3 | Int4 | Vec4 | Matrix4x4 | Texture | String | Unknown

  /** A shader parameter. A value without bytes is one that was never set. */
  datatype Param = Param(
    kind: ParamType, arrayCount: nat, pos: nat, curValue: seq<Byte>, defaultValue: seq<Byte>, changed: bool)

  /** Textures, strings and unknown types take no part in the layout. */
  predicate Sized(p: Param) {
    !p.kind.Texture? && !p.kind.String? && !p.kind.Unknown?
  }

  function ByteSize(p: Param): (n: nat)
    ensures Sized(p) ==> n > 0
  {
    var size :=
      match p.kind
      case Bool => 4
      case Int => 4
      case Float => 4
      case Int2 => 8
      case Vec2 => 8
      case Int3 => 12
      case Vec3 => 12
      case Int4 => 16
      case Vec4 => 16
      case Matrix4x4 => 64
      case _ => 0;
    if p.arrayCount == 0 then size else size * p.arrayCount
  }

  /** How many numbers a value of the type consists of. */
  function Components(kind: ParamType): nat {
    match kind
    case Bool => 1
    case Int => 1
    case Float => 1
    case Int2 => 2
    case Vec2 => 2
    case Int3 => 3
    case Vec3 => 3
    case Int4 => 4
    case Vec4 => 4
    case Matrix4x4 => 4 * 4
    case _ => 0
  }

  /** The size of a value of the type, or of an array of them, at four bytes a number. */
  function DeclaredSize(p: Param): nat {
    if p.arrayCount == 0 then 4 * Components(p.kind) else 4 * Components(p.kind) * p.arrayCount
  }

  /** That much is reserved. */
  lemma SizeByComponents(p: Param)
    ensures ByteSize(p) == DeclaredSize(p)
  {
  }

  // ---------------------------------------------------------------------------------------------------------
  // Packing

  function RoundUp(n: nat): nat {
    (n + 15) / 16 * 16
  }

  /** Where a constant goes that would follow at offset `c`. */
  function Place(c: nat, size: nat): nat {
    if size != 0 && c % 16 != 0 && size + c > RoundUp(c) then RoundUp(c) else c
  }

  function Pack(ps: seq<Param>, c: nat): (r: seq<Param>)
    ensures |r| == |ps|
  {
    if ps == [] then []
    else if !Sized(ps[0]) then [ps[0]] + Pack(ps[1..], c)
    else
      var pos := Place(c, ByteSize(ps[0]));
      [ps[0].(pos := pos)] + Pack(ps[1..], pos + ByteSize(ps[0]))
  }

  function PackedSize(ps: seq<Param>, c: nat): nat {
    if ps == [] then c
    else if !Sized(ps[0]) then PackedSize(ps[1..], c)
    else PackedSize(ps[1..], Place(c, ByteSize(ps[0])) + ByteSize(ps[0]))
  }

  /** The rule of the hardware's 16-byte registers: what fits into one must not cross its end, and anything larger
      starts one. */
  predicate Fits(pos: nat, size: nat) {
    if size <= 16 then pos % 16 + size <= 16 else pos % 16 == 0
  }

  /** A placement of the sized parameters in their order, from `c` on, that keeps the rule. */
  predicate Legal(ps: seq<Param>, q: seq<nat>, c: nat)
    requires |q| == |ps|
  {
    ps == [] || if Sized(ps[0])
                then c <= q[0] && Fits(q[0], ByteSize(ps[0])) && Legal(ps[1..], q[1..], q[0] + ByteSize(ps[0]))
                else Legal(ps[1..], q[1..], c)
  }

  function Positions(ps: seq<Param>): (q: seq<nat>)
    ensures |q| == |ps|
  {
    if ps == [] then [] else [ps[0].pos] + Positions(ps[1..])
  }

  lemma PlaceIsLeast(c: nat, size: nat)
    requires size > 0
    ensures c <= Place(c, size) && Fits(Place(c, size), size)
    ensures forall q :: c <= q && Fits(q, size) ==> Place(c, size) <= q
  {
  }

  lemma {:induction false} PackIsLegal(ps: seq<Param>, c: nat)
    ensures Legal(ps, Positions(Pack(ps, c)), c)
  {
    if ps != [] {
      var r := Pack(ps, c);
      if Sized(ps[0]) {
        PlaceIsLeast(c, ByteSize(ps[0]));
        assert r[1..] == Pack(ps[1..], r[0].pos + ByteSize(ps[0]));
        PackIsLegal(ps[1..], r[0].pos + ByteSize(ps[0]));
      } else {
        assert r[1..] == Pack(ps[1..], c);
        PackIsLegal(ps[1..], c);
      }
      assert Positions(r)[1..] == Positions(r[1..]);
    }
  }

  /** No legal placement puts any constant earlier, or ends earlier. */
  lemma {:induction false} PackIsLeast(ps: seq<Param>, c: nat, q: seq<nat>, d: nat, i: nat)
    requires |q| == |ps| && c <= d && Legal(ps, q, d) && i < |ps| && Sized(ps[i])
    ensures Pack(ps, c)[i].pos <= q[i]
  {
    var size := ByteSize(ps[0]);
    if Sized(ps[0]) {
      PlaceIsLeast(c, size);
      if i > 0 {
        PackIsLeast(ps[1..], Place(c, size) + size, q[1..], q[0] + size, i - 1);
      }
    } else {
      PackIsLeast(ps[1..], c, q[1..], d, i - 1);
    }
  }

  // ---------------------------------------------------------------------------------------------------------
  // Assembly

  function Zeros(n: nat): (z: seq<Byte>)
    ensures |z| == n && forall i :: 0 <= i < n ==> z[i] == 0
  {
    if n == 0 then [] else [0] + Zeros(n - 1)
  }

  /** The contents put together from the current values, or `None` if one of them was never set. */
  function Assemble(ps: seq<Param>, data: seq<Byte>): Option<seq<Byte>> {
    if ps == [] then Some(data)
    else if ps[0].kind.Texture? then Assemble(ps[1..], data)
    else if ps[0].curValue == [] then None
    else Assemble(ps[1..], Padded(data, ps[0].pos) + ps[0].curValue)
  }

  function Padded(data: seq<Byte>, pos: nat): seq<Byte> {
    if pos > |data| then data + Zeros(pos - |data|) else data
  }

  /** What the layout says the buffer holds: at offset `k`, a byte of the value there, or zero. */
  function ByteAt(ps: seq<Param>, k: nat): Byte {
    if ps == [] then 0
    else if Sized(ps[0]) && ps[0].pos <= k < ps[0].pos + |ps[0].curValue| then ps[0].curValue[k - ps[0].pos]
    else ByteAt(ps[1..], k)
  }

  /** All parameters have values, of the sizes they were declared with. */
  ghost predicate AsDeclared(ps: seq<Param>) {
    forall i :: 0 <= i < |ps| ==> ps[i].kind.Texture? || (Sized(ps[i]) && |ps[i].curValue| == DeclaredSize(ps[i]))
  }

  /** The assembled contents fill the buffer, with every value at its place and zeros between them. */
  lemma {:induction false} AssemblyIsLayout(ps: seq<Param>, data: seq<Byte>)
    requires AsDeclared(ps) && Legal(ps, Positions(ps), |data|) && ps == Pack(ps, |data|)
    ensures var d := Assemble(ps, data);
      && d.Some? && |d.value| == PackedSize(ps, |data|) && data <= d.value
      && forall k :: |data| <= k < |d.value| ==> d.value[k] == ByteAt(ps, k)
  {
    if ps != [] {
      var p := ps[0];
      var r := Pack(ps, |data|);
      assert Positions(ps)[1..] == Positions(ps[1..]);
      if Sized(p) {
        SizeByComponents(p);
        var next := Padded(data, p.pos) + p.curValue;
        assert r[1..] == Pack(ps[1..], p.pos + ByteSize(p)) && ps[1..] == r[1..] && p == r[0];
        assert |next| == p.pos + ByteSize(p);
        AssemblyIsLayout(ps[1..], next);
        var d := Assemble(ps, data).value;
        forall k | |data| <= k < |d| ensures d[k] == ByteAt(ps, k) {
          if k < |next| {
            assert d[k] == next[k];
            if k < p.pos {
              NothingBefore(ps[1..], |next|, k);
            }
          }
        }
      } else {
        assert r[1..] == Pack(ps[1..], |data|) && ps[1..] == r[1..];
        AssemblyIsLayout(ps[1..], data);
      }
    }
  }

  /** The same for a whole buffer. */
  lemma PackedBuffer(ps: seq<Param>, k: nat)
    requires AsDeclared(ps) && ps == Pack(ps, 0)
    ensures var d := Assemble(ps, []);
      && d.Some? && |d.value| == PackedSize(ps, 0)
      && (k < |d.value| ==> d.value[k] == ByteAt(ps, k))
  {
    PackIsLegal(ps, 0);
    AssemblyIsLayout(ps, []);
  }

  lemma NothingBefore(ps: seq<Param>, c: nat, k: nat)
    requires Legal(ps, Positions(ps), c) && k < c
    ensures ByteAt(ps, k) == 0
  {
    if ps != [] {
      assert Positions(ps)[1..] == Positions(ps[1..]);
      NothingBefore(ps[1..], if Sized(ps[0]) then ps[0].pos + ByteSize(ps[0]) else c, k);
    }
  }

  /** What is packed stays where it is when it is packed again. */
  lemma {:induction false} PackTwice(ps: seq<Param>, c: nat)
    ensures Pack(Pack(ps, c), c) == Pack(ps, c) && PackedSize(Pack(ps, c), c) == PackedSize(ps, c)
  {
    if ps != [] {
      var r := Pack(ps, c);
      if Sized(ps[0]) {
        var next := Place(c, ByteSize(ps[0])) + ByteSize(ps[0]);
        assert r[1..] == Pack(ps[1..], next);
        PackTwice(ps[1..], next);
      } else {
        assert r[1..] == Pack(ps[1..], c);
        PackTwice(ps[1..], c);
      }
    }
  }

  /** Two vectors of three components fill their buffer of 28 bytes, with four bytes of zeros between them. */
  lemma TwoVectors(a: Param, b: Param)
    requires a.kind == b.kind == Vec3 && a.arrayCount == b.arrayCount == 0
    requires |a.curValue| == |b.curValue| == 12
    ensures var ps := Pack([a, b], 0);
      && |ps| == 2 && ps[0].pos == 0 && ps[1].pos == 16 && PackedSize([a, b], 0) == 28
      && Assemble(ps, []) == Some(a.curValue + [0, 0, 0, 0] + b.curValue)
  {
    var ps, data := Pack([a, b], 0), a.curValue;
    assert [a, b][1..] == [b] && [b][1..] == [];
    assert Pack([b], 12) == [b.(pos := 16)] + Pack([], 28);
    assert ps == [a.(pos := 0)] + Pack([b], 12) == [a.(pos := 0), b.(pos := 16)];
    assert PackedSize([b], 12) == 28;
    assert ps[1..] == [b.(pos := 16)] && ps[1..][1..] == [];
    assert [] + data == data;
    assert Zeros(4) == [0, 0, 0, 0];
    assert Assemble(ps[1..], data) == Some(Padded(data, 16) + b.curValue);
  }
}
