/** The layout of the uniforms of a Metal shader: the offsets that the transpiler computes, against those the Metal
    compiler gives the members of the struct that the transpiler emits. */
module UniformLayout {
  import opened ConstantBuffer

  // ---------------------------------------------------------------------------------------------------------
  // Rounding up with a mask

  /** Bitwise conjunction of integers in two's complement. */
  function And(x: int, y: int): (r: int)
    ensures x >= 0 || y >= 0 ==> r >= 0
    decreases if x < 0 then -x else x
  {
    if x == 0 || y == 0 then 0
    else if x == -1 then y
    else 2 * And(x / 2, y / 2) + if x % 2 == 1 && y % 2 == 1 then 1 else 0
  }

  function Complement(x: int): int {
    -x - 1
  }

  function Pow2(k: nat): (p: int)
    ensures p > 0
  {
    if k == 0 then 1 else 2 * Pow2(k - 1)
  }

  /** The next offset for a value of the given alignment. */
  function Aligned(size: nat, alignment: nat): nat {
    And(size + (alignment - 1), Complement(alignment - 1))
  }

  lemma QuotientIs(x: int, d: int, q: int, r: int)
    requires 0 <= r < d && x == q * d + r
    ensures x / d == q
  {
    var e := x / d - q;
    assert x == x / d * d + x % d;
    assert e * d == r - x % d && -e * d == -(e * d);
    if e >= 1 {
      MultipleIsFar(e, d);
    } else if e <= -1 {
      MultipleIsFar(-e, d);
    }
  }

  lemma MultipleIsFar(e: int, d: int)
    requires e >= 1 && d > 0
    ensures e * d >= d
  {
  }

  lemma {:induction false} MaskClearsLowBits(x: nat, k: nat)
    ensures And(x, -Pow2(k)) == RoundedDown(x, Pow2(k))
  {
    hide RoundedDown;
    if x == 0 {
      NothingToRound(Pow2(k));
    } else if k == 0 {
      MaskOfOnes(x);
      OnesAreWhole(x);
    } else {
      var p := Pow2(k - 1);
      MaskClearsLowBits(x / 2, k - 1);
      AndIsEven(x, -p);
      assert Pow2(k) == 2 * p && -(2 * p) == 2 * -p;
      HalvedTwice(x, p);
    }
  }

  function RoundedDown(x: nat, a: int): int
    requires a > 0
  {
    x / a * a
  }

  lemma NothingToRound(a: int)
    requires a > 0
    ensures RoundedDown(0, a) == 0
  {
    QuotientIs(0, a, 0, 0);
  }

  lemma OnesAreWhole(x: nat)
    ensures RoundedDown(x, 1) == x
  {
  }

  lemma AndIsEven(x: nat, y: int)
    requires x > 0 && y != 0
    ensures And(x, 2 * y) == 2 * And(x / 2, y)
  {
    assert 2 * y / 2 == y;
  }

  lemma HalvedTwice(x: nat, p: int)
    requires p > 0
    ensures RoundedDown(x, 2 * p) == 2 * RoundedDown(x / 2, p)
  {
    var q := x / 2 / p;
    var r := x / 2 - q * p;
    assert 0 <= r < p by {
      assert x / 2 == q * p + x / 2 % p;
    }
    assert x == 2 * (q * p) + (2 * r + x % 2);
    assert q * (2 * p) == 2 * (q * p);
    QuotientIs(x, 2 * p, q, 2 * r + x % 2);
  }

  lemma MaskOfOnes(x: nat)
    ensures And(x, -1) == x
  {
  }

  /** For powers of two, the mask rounds up to the next multiple. */
  lemma AlignedIsLeast(size: nat, k: nat, m: nat)
    requires size <= m && m % Pow2(k) == 0
    ensures size <= Aligned(size, Pow2(k)) <= m && Aligned(size, Pow2(k)) % Pow2(k) == 0
  {
    var a := Pow2(k);
    MaskClearsLowBits(size + (a - 1), k);
    hide And, Pow2;
    RoundedUp(size, a, m);
  }

  lemma RoundedUp(size: nat, a: int, m: nat)
    requires a > 0 && size <= m && m % a == 0
    ensures var r := RoundedDown(size + (a - 1), a);
      size <= r <= m && r % a == 0
  {
    var x := size + (a - 1);
    var q := x / a;
    assert x == q * a + x % a;
    QuotientIs(q * a, a, q, 0);
    assert q * a == q * a / a * a + q * a % a;
    var n := m / a;
    assert m == n * a + m % a;
    assert (q - n) * a == q * a - n * a;
    if n < q {
      MultipleIsFar(q - n, a);
    }
  }

  /** The first multiple of `a` from `size` on. */
  function NextMultiple(size: nat, a: nat): nat
    requires a > 0
  {
    RoundedDown(size + (a - 1), a)
  }

  predicate Alignment(a: nat) {
    a == 1 || a == 4 || a == 8 || a == 16
  }

  lemma LeastMultiple(size: nat, a: nat)
    requires Alignment(a)
    ensures Aligned(size, a) == NextMultiple(size, a) >= size
    ensures a != 1 ==> NextMultiple(size, a) % 4 == 0
    ensures size == 0 ==> NextMultiple(size, a) == 0
    ensures a == 1 || (a == 4 && size % 4 == 0) ==> NextMultiple(size, a) == size
  {
    var k := if a == 1 then 0 else if a == 4 then 2 else if a == 8 then 3 else 4;
    assert Pow2(k) == a by {
      assert Pow2(0) == 1 && Pow2(2) == 4 && Pow2(3) == 8 && Pow2(4) == 16;
    }
    hide And, Aligned, Pow2, NextMultiple;
    AlignedIsNext(size, k);
    NextIs(size, a);
  }

  lemma AlignedIsNext(size: nat, k: nat)
    ensures Aligned(size, Pow2(k)) == NextMultiple(size, Pow2(k))
  {
    hide And, Pow2;
    MaskClearsLowBits(size + (Pow2(k) - 1), k);
  }

  lemma NextMultiples(size: nat)
    ensures NextMultiple(size, 1) == size && NextMultiple(size, 4) == (size + 3) / 4 * 4
    ensures NextMultiple(size, 8) == (size + 7) / 8 * 8 && NextMultiple(size, 16) == (size + 15) / 16 * 16
  {
  }

  lemma RoundsUp(size: nat, a: nat, m: nat)
    requires a > 0 && size <= m && m % a == 0
    ensures size <= NextMultiple(size, a) <= m && NextMultiple(size, a) % a == 0
  {
    RoundedUp(size, a, m);
  }

  lemma NextIs(size: nat, a: nat)
    requires Alignment(a)
    ensures NextMultiple(size, a) >= size
    ensures (a != 1 ==> NextMultiple(size, a) % 4 == 0) && (a >= 8 ==> NextMultiple(size, a) % 8 == 0)
    ensures a == 16 ==> NextMultiple(size, a) % 16 == 0
    ensures size == 0 ==> NextMultiple(size, a) == 0
    ensures a == 1 || (a == 4 && size % 4 == 0) ==> NextMultiple(size, a) == size
  {
    hide NextMultiple;
    NextMultiples(size);
  }

  /** Three bytes of padding make no difference to what is aligned itself. */
  lemma PaddingIsSkipped(size: nat, a: nat)
    requires Alignment(a) && a != 1 && size >= 3 && size % 4 == 0
    ensures NextMultiple(size - 3, a) == NextMultiple(size, a)
  {
    hide NextMultiple;
    NextIs(size, a);
    NextIs(size - 3, a);
    NothingBetween(NextMultiple(size - 3, a), size);
    NextIsLeast(size, a, NextMultiple(size - 3, a));
    NextIsLeast(size - 3, a, NextMultiple(size, a));
  }

  lemma NothingBetween(r: nat, size: nat)
    requires r % 4 == 0 && size % 4 == 0 && r >= size - 3
    ensures r >= size
  {
  }

  lemma NextGrows(size: nat, larger: nat, a: nat, coarser: nat)
    requires size <= larger && Alignment(a) && Alignment(coarser) && a <= coarser
    ensures NextMultiple(size, a) <= NextMultiple(larger, coarser)
  {
    hide NextMultiple;
    NextIs(larger, coarser);
    var m := NextMultiple(larger, coarser);
    NextIsLeast(size, a, m);
  }

  lemma NextIsLeast(size: nat, a: nat, m: nat)
    requires Alignment(a) && size <= m
    requires (a == 4 ==> m % 4 == 0) && (a == 8 ==> m % 8 == 0) && (a == 16 ==> m % 16 == 0)
    ensures NextMultiple(size, a) <= m
  {
    hide NextMultiple;
    if a == 1 {
      NextMultiples(size);
    } else if a == 4 {
      RoundsUp(size, 4, m);
    } else if a == 8 {
      RoundsUp(size, 8, m);
    } else {
      RoundsUp(size, 16, m);
    }
  }

  /** Without an alignment there is no mask: the offset is always zero. */
  lemma NoAlignment(size: nat)
    ensures Aligned(size, 0) == 0
  {
  }

  // ---------------------------------------------------------------------------------------------------------
  // Offsets

  /** What the layout makes of a uniform. Textures of fragment shaders are bound instead of being laid out; a texture
      of a vertex shader is treated as a value. */
  datatype Slot = Bound | Value(kind: ParamType)

  function SlotOf(fragment: bool, kind: ParamType): Slot {
    if fragment && kind.Texture? then Bound else Value(kind)
  }

  /** Values that the buffer is for. */
  predicate HasPlace(slot: Slot) {
    slot.Value? && !Restart(slot)
  }

  /** A string, a uniform of a type that libobs does not know, or a texture of a vertex shader: it has no alignment. */
  predicate Restart(slot: Slot) {
    slot.Value? && (slot.kind.String? || slot.kind.Unknown? || slot.kind.Texture?)
  }

  /** What a caller must pass for a value of the type. */
  function Size(kind: ParamType): nat {
    match kind
    case Bool => 4
    case Int => 4
    case Float => 4
    case Int2 => 8
    case Vec2 => 8
    case Int3 => 12
    case Vec3 => 12
    case Int4 => 16
    case Vec4 => 16
    case Matrix4x4 => 64
    case Texture => 16
    case _ => 0
  }

  /** Four bytes for each number, or a reference to a texture with a flag. */
  lemma SizeByNumbers(kind: ParamType)
    ensures Size(kind) == if kind.Texture? then 8 + 8 else 4 * Components(kind)
  {
  }

  /** The room set aside for a value of the type. */
  function MtlSize(kind: ParamType): nat {
    if kind.Int3? || kind.Vec3? then 16 else Size(kind)
  }

  function MtlAlignment(kind: ParamType): nat {
    match kind
    case Bool => 4
    case Int => 4
    case Float => 4
    case Int2 => 8
    case Vec2 => 8
    case Int3 => 16
    case Vec3 => 16
    case Int4 => 16
    case Vec4 => 16
    case Matrix4x4 => 16
    case _ => 0
  }

  function Room(slot: Slot): (n: nat)
    ensures HasPlace(slot) ==> n > 0
    ensures Restart(slot) ==> n == 0 || n == 16
  {
    if slot.Bound? then 0 else MtlSize(slot.kind)
  }

  function Step(slot: Slot): (a: nat)
    ensures if HasPlace(slot) then a == 4 || a == 8 || a == 16 else a == 0
  {
    if slot.Bound? then 0 else MtlAlignment(slot.kind)
  }

  /** The size of the buffer before the `i`th uniform is added. */
  function SizeBefore(slots: seq<Slot>, i: nat): nat
    requires i <= |slots|
    decreases i, 0
  {
    if i == 0 then 0 else Offset(slots, i - 1) + Room(slots[i - 1])
  }

  function Offset(slots: seq<Slot>, i: nat): nat
    requires i < |slots|
    decreases i, 1
  {
    if slots[i].Bound? then SizeBefore(slots, i) else Aligned(SizeBefore(slots, i), Step(slots[i]))
  }

  function End(slots: seq<Slot>, i: nat): nat
    requires i < |slots|
  {
    Offset(slots, i) + Room(slots[i])
  }

  /** How many textures are bound before the `i`th uniform. */
  function TextureSlot(slots: seq<Slot>, i: nat): nat
    requires i <= |slots|
  {
    if i == 0 then 0 else TextureSlot(slots, i - 1) + if slots[i - 1].Bound? then 1 else 0
  }

  predicate Plain(slots: seq<Slot>) {
    forall j :: 0 <= j < |slots| ==> !Restart(slots[j])
  }

  /** All values that have a place are in order and apart from each other. */
  ghost predicate InOrder(slots: seq<Slot>) {
    forall i, k :: 0 <= i < k < |slots| && HasPlace(slots[i]) && HasPlace(slots[k]) ==>
      End(slots, i) <= Offset(slots, k)
  }

  /** The last uniform without an alignment before the one at `k` is the one at `j`. */
  predicate LastRestart(slots: seq<Slot>, j: nat, k: nat) {
    j < k <= |slots| && Restart(slots[j]) && forall l :: j < l < k ==> !Restart(slots[l])
  }

  /** Between two values stands a uniform without an alignment, the last one before the second value, and the first
      value reaches beyond the room for that uniform. For strings and unknown types there is none. */
  ghost predicate Interrupted(slots: seq<Slot>) {
    exists i, j, k :: 0 <= i < j < k < |slots| && HasPlace(slots[i]) && HasPlace(slots[k]) && LastRestart(slots, j, k)
                      && End(slots, i) > Room(slots[j])
  }

  lemma {:induction false} SizeGrows(slots: seq<Slot>, i: nat, k: nat)
    requires i <= k <= |slots| && forall j :: i <= j < k ==> !Restart(slots[j])
    ensures SizeBefore(slots, i) <= SizeBefore(slots, k)
  {
    hide And, Aligned, NextMultiple;
    if i < k {
      SizeGrows(slots, i, k - 1);
      if slots[k - 1].Value? {
        LeastMultiple(SizeBefore(slots, k - 1), Step(slots[k - 1]));
      }
    }
  }

  /** A uniform without an alignment is placed at the start of the buffer again, and what follows behind it: the first
      value after it is at the end of its room. */
  lemma {:induction false} StartsAgain(slots: seq<Slot>, j: nat, k: nat)
    requires LastRestart(slots, j, k) && forall i :: j < i < k ==> !HasPlace(slots[i])
    ensures Offset(slots, j) == 0 && SizeBefore(slots, k) == Room(slots[j])
    ensures k < |slots| && HasPlace(slots[k]) ==> Offset(slots, k) == Room(slots[j])
  {
    hide And, Aligned, NextMultiple;
    NoAlignment(SizeBefore(slots, j));
    if j + 1 < k {
      StartsAgain(slots, j, k - 1);
      assert slots[k - 1].Bound?;
    }
    if k < |slots| && HasPlace(slots[k]) {
      LeastMultiple(Room(slots[j]), Step(slots[k]));
      Sixteen(Step(slots[k]));
    }
  }

  lemma Sixteen(a: nat)
    requires Alignment(a)
    ensures NextMultiple(16, a) == 16
  {
    hide NextMultiple;
    NextIs(16, a);
    NextIsLeast(16, a, 16);
  }

  lemma {:induction false} FirstAfter(slots: seq<Slot>, j: nat, k: nat) returns (first: nat)
    requires k < |slots| && HasPlace(slots[k]) && LastRestart(slots, j, k)
    ensures j < first <= k && HasPlace(slots[first]) && LastRestart(slots, j, first)
    ensures forall i :: j < i < first ==> !HasPlace(slots[i])
  {
    if i :| j < i < k && HasPlace(slots[i]) {
      first := FirstAfter(slots, j, i);
    } else {
      first := k;
    }
  }

  lemma {:induction false} RestartBefore(slots: seq<Slot>, i: nat, k: nat) returns (j: nat)
    requires i < k <= |slots| && exists l :: i <= l < k && Restart(slots[l])
    ensures i <= j && LastRestart(slots, j, k)
  {
    if Restart(slots[k - 1]) {
      j := k - 1;
    } else {
      j := RestartBefore(slots, i, k - 1);
    }
  }

  /** Values are in order and apart exactly if none is cut off from a later one. */
  lemma OffsetsAreInOrder(slots: seq<Slot>)
    ensures InOrder(slots) <==> !Interrupted(slots)
  {
    hide And, Aligned, NextMultiple;
    if Interrupted(slots) {
      var i, j, k :| 0 <= i < j < k < |slots| && HasPlace(slots[i]) && HasPlace(slots[k]) && LastRestart(slots, j, k)
                     && End(slots, i) > Room(slots[j]);
      var first := FirstAfter(slots, j, k);
      StartsAgain(slots, j, first);
      assert End(slots, i) > Offset(slots, first);
    } else {
      forall i, k | 0 <= i < k < |slots| && HasPlace(slots[i]) && HasPlace(slots[k])
        ensures End(slots, i) <= Offset(slots, k)
      {
        NotInterrupted(slots, i, k);
      }
    }
  }

  /** A value behind a uniform of an unknown type is laid over the value in front of it. */
  lemma ValuesOverlap(slots: seq<Slot>)
    requires slots == [Value(Vec4), Value(Unknown), Value(Float)]
    ensures Offset(slots, 2) == 0 < End(slots, 0) && !InOrder(slots)
  {
    hide And, Aligned, NextMultiple;
    StartsAgain(slots, 1, 2);
    assert HasPlace(slots[0]) && HasPlace(slots[2]) && Room(slots[0]) == 16;
  }

  lemma AfterRestart(slots: seq<Slot>, j: nat, k: nat)
    requires LastRestart(slots, j, k)
    ensures Room(slots[j]) <= SizeBefore(slots, k)
  {
    hide And, Aligned, NextMultiple;
    NoAlignment(SizeBefore(slots, j));
    assert SizeBefore(slots, j + 1) == Room(slots[j]);
    SizeGrows(slots, j + 1, k);
  }

  lemma NotInterrupted(slots: seq<Slot>, i: nat, k: nat)
    requires i < k < |slots| && HasPlace(slots[i]) && HasPlace(slots[k]) && !Interrupted(slots)
    ensures End(slots, i) <= Offset(slots, k)
  {
    hide And, Aligned, NextMultiple;
    LeastMultiple(SizeBefore(slots, k), Step(slots[k]));
    if exists l :: i + 1 <= l < k && Restart(slots[l]) {
      var j := RestartBefore(slots, i + 1, k);
      AfterRestart(slots, j, k);
      assert End(slots, i) <= Room(slots[j]);
    } else {
      SizeGrows(slots, i + 1, k);
    }
  }

  /** Each value is at the first multiple of its alignment after the one before. */
  lemma OffsetIsLeast(slots: seq<Slot>, i: nat, q: nat)
    requires i < |slots| && HasPlace(slots[i])
    requires q >= SizeBefore(slots, i) && q % Step(slots[i]) == 0
    ensures SizeBefore(slots, i) <= Offset(slots, i) <= q && Offset(slots, i) % Step(slots[i]) == 0
  {
    assert Pow2(2) == 4 && Pow2(3) == 8 && Pow2(4) == 16;
    var a := Step(slots[i]);
    AlignedIsLeast(SizeBefore(slots, i), if a == 4 then 2 else if a == 8 then 3 else 4, q);
  }

  /** The size of the buffer of the shader. */
  function UniformSize(slots: seq<Slot>): nat {
    And(SizeBefore(slots, |slots|) + 0x0F, Complement(0x0F))
  }

  lemma UniformSizeIs(slots: seq<Slot>)
    ensures UniformSize(slots) == NextMultiple(SizeBefore(slots, |slots|), 16)
  {
    LeastMultiple(SizeBefore(slots, |slots|), 16);
  }

  /** Every value lies within the buffer, unless a later uniform without an alignment gave its place up. */
  lemma ValuesFit(slots: seq<Slot>, i: nat)
    requires i < |slots| && HasPlace(slots[i]) && forall j :: i < j < |slots| ==> !Restart(slots[j])
    ensures End(slots, i) <= UniformSize(slots)
  {
    hide And, Aligned, NextMultiple;
    SizeGrows(slots, i + 1, |slots|);
    UniformSizeIs(slots);
    NextIs(SizeBefore(slots, |slots|), 16);
  }

  /** If such a uniform is the end of it, a value before it is within the buffer only if it is within that room. */
  lemma ValueIsCutOff(slots: seq<Slot>, i: nat, j: nat)
    requires i < j < |slots| && HasPlace(slots[i]) && LastRestart(slots, j, |slots|)
    requires forall k :: j < k < |slots| ==> !HasPlace(slots[k])
    ensures End(slots, i) <= UniformSize(slots) <==> End(slots, i) <= Room(slots[j])
  {
    hide And, Aligned, NextMultiple;
    StartsAgain(slots, j, |slots|);
    UniformSizeIs(slots);
    NextIs(0, 16);
    Sixteen(16);
  }

  lemma {:induction false} TexturesKeepSlots(slots: seq<Slot>, i: nat, j: nat)
    requires i < j < |slots| && slots[i].Bound?
    ensures TextureSlot(slots, i) < TextureSlot(slots, j) <= TextureSlot(slots, |slots|)
  {
    SlotsGrow(slots, i + 1, j);
    SlotsGrow(slots, j, |slots|);
  }

  lemma SlotsGrow(slots: seq<Slot>, i: nat, j: nat)
    requires i <= j <= |slots|
    ensures TextureSlot(slots, i) <= TextureSlot(slots, j)
  {
  }

  // ---------------------------------------------------------------------------------------------------------
  // The emitted struct

  /** The size of a scalar, and how many rows and columns of them a type has. */
  datatype Shape = Shape(scalar: nat, rows: nat, columns: nat)

  /** The member that is declared for a uniform: a `bool` is one byte, other scalars are four. */
  function ShapeOf(slot: Slot): (s: Shape)
    requires HasPlace(slot)
    ensures s.scalar > 0 && s.rows > 0 && s.columns > 0
  {
    match slot.kind
    case Bool => Shape(1, 1, 1)
    case Int => Shape(4, 1, 1)
    case Float => Shape(4, 1, 1)
    case Int2 => Shape(4, 2, 1)
    case Vec2 => Shape(4, 2, 1)
    case Int3 => Shape(4, 3, 1)
    case Vec3 => Shape(4, 3, 1)
    case Int4 => Shape(4, 4, 1)
    case Vec4 => Shape(4, 4, 1)
    case Matrix4x4 => Shape(4, 4, 4)
  }

  predicate PowerOfTwo(n: nat) {
    n == 1 || (n > 1 && n % 2 == 0 && PowerOfTwo(n / 2))
  }

  /** The first power of two from `p` on that is at least `n`. */
  function PowerFrom(p: nat, n: nat): (q: nat)
    requires PowerOfTwo(p)
    ensures PowerOfTwo(q) && n <= q && p <= q
    ensures q == p || q / 2 < n
    decreases n - p
  {
    if n <= p then p else PowerFrom(2 * p, n)
  }

  /** Sections 2.2 and 2.3 of the Metal Shading Language Specification: a vector is aligned to the least power of two
      that is not smaller than its components, and as large; a matrix has the alignment of its columns and the size of
      all of them. */
  function MemberAlignment(slot: Slot): (a: nat)
    requires HasPlace(slot)
    ensures a > 0
  {
    PowerFrom(1, ShapeOf(slot).scalar * ShapeOf(slot).rows)
  }

  function MemberSize(slot: Slot): nat
    requires HasPlace(slot)
  {
    ShapeOf(slot).columns * MemberAlignment(slot)
  }

  /** The host's tables are those of the specification, except for a `bool`. */
  lemma MembersAre(slot: Slot)
    requires HasPlace(slot)
    ensures MemberAlignment(slot) == (if IsBool(slot) then 1 else Step(slot))
    ensures MemberSize(slot) == (if IsBool(slot) then 1 else Room(slot))
  {
    Powers();
  }

  lemma Powers()
    ensures PowerFrom(1, 1) == 1 && PowerFrom(1, 4) == 4 && PowerFrom(1, 8) == 8
    ensures PowerFrom(1, 12) == 16 && PowerFrom(1, 16) == 16
  {
    assert PowerFrom(8, 12) == 16 && PowerFrom(8, 16) == 16 && PowerFrom(8, 8) == 8;
    assert PowerFrom(2, 12) == PowerFrom(4, 12) == PowerFrom(8, 12);
    assert PowerFrom(2, 16) == PowerFrom(4, 16) == PowerFrom(8, 16);
    assert PowerFrom(2, 8) == PowerFrom(4, 8) == PowerFrom(8, 8) && PowerFrom(2, 4) == PowerFrom(4, 4) == 4;
  }

  predicate IsBool(slot: Slot) {
    slot.Value? && slot.kind.Bool?
  }

  /** The struct has the uniforms as members, in the same order, but no textures. */
  function StructEnd(slots: seq<Slot>, i: nat): nat
    requires i <= |slots| && Plain(slots)
    decreases i, 0
  {
    if i == 0 then 0
    else if slots[i - 1].Bound? then StructEnd(slots, i - 1)
    else MemberOffset(slots, i - 1) + MemberSize(slots[i - 1])
  }

  function MemberOffset(slots: seq<Slot>, i: nat): nat
    requires i < |slots| && HasPlace(slots[i]) && Plain(slots)
    decreases i, 1
  {
    NextMultiple(StructEnd(slots, i), MemberAlignment(slots[i]))
  }

  /** The uniform before the `i`th one, leaving out textures, is a `bool`. */
  predicate FollowsBool(slots: seq<Slot>, i: nat)
    requires i <= |slots|
  {
    i > 0 && if slots[i - 1].Bound? then FollowsBool(slots, i - 1) else IsBool(slots[i - 1])
  }

  /** Whether the shader finds every value where the host puts it. */
  ghost predicate LayoutsAgree(slots: seq<Slot>)
    requires Plain(slots)
  {
    forall i :: 0 <= i < |slots| && HasPlace(slots[i]) ==> Offset(slots, i) == MemberOffset(slots, i)
  }

  /** The host gives a `bool` four bytes, a struct gives it one. That makes a difference only to another `bool`. */
  lemma LayoutsAgreeExactly(slots: seq<Slot>)
    requires Plain(slots)
    ensures LayoutsAgree(slots) <==> forall i :: 0 <= i < |slots| && IsBool(slots[i]) ==> !FollowsBool(slots, i)
  {
    hide And, Aligned, NextMultiple, MemberAlignment, MemberSize;
    if forall i :: 0 <= i < |slots| && IsBool(slots[i]) ==> !FollowsBool(slots, i) {
      forall i | 0 <= i < |slots| && HasPlace(slots[i]) ensures Offset(slots, i) == MemberOffset(slots, i) {
        EndsAgree(slots, i);
        OffsetsMeet(slots, i);
      }
    } else {
      var i :| 0 <= i < |slots| && IsBool(slots[i]) && FollowsBool(slots, i);
      var b := BoolBefore(slots, i);
      MembersAre(slots[i]);
      LeastMultiple(SizeBefore(slots, i), 4);
      LeastMultiple(SizeBefore(slots, b), 4);
      NextIs(StructEnd(slots, i), 1);
      assert Offset(slots, i) == Offset(slots, b) + 4 && MemberOffset(slots, i) == MemberOffset(slots, b) + 1;
    }
  }

  /** Of two values of type `bool`, the shader looks for the second one three bytes before the host puts it. */
  lemma BoolsDisagree(slots: seq<Slot>)
    requires slots == [Value(Bool), Value(Bool)]
    ensures Offset(slots, 1) == 4
    ensures Plain(slots) && MemberOffset(slots, 1) == 1 && !LayoutsAgree(slots)
  {
    hide And, Aligned, NextMultiple, MemberAlignment, MemberSize;
    MembersAre(slots[0]);
    MembersAre(slots[1]);
    LeastMultiple(0, 4);
    LeastMultiple(4, 4);
    NextIs(0, 4);
    NextIs(4, 4);
    NextIs(0, 1);
    NextIs(1, 1);
    assert SizeBefore(slots, 0) == StructEnd(slots, 0) == 0;
    assert SizeBefore(slots, 1) == 4 && StructEnd(slots, 1) == 1;
    assert HasPlace(slots[1]);
  }

  lemma {:induction false} BoolBefore(slots: seq<Slot>, i: nat) returns (b: nat)
    requires i <= |slots| && FollowsBool(slots, i) && Plain(slots)
    ensures b < i && IsBool(slots[b])
    ensures SizeBefore(slots, i) == Offset(slots, b) + 4 && StructEnd(slots, i) == MemberOffset(slots, b) + 1
  {
    hide And, Aligned, NextMultiple, MemberAlignment, MemberSize;
    if slots[i - 1].Bound? {
      b := BoolBefore(slots, i - 1);
    } else {
      b := i - 1;
      MembersAre(slots[b]);
    }
  }

  /** Up to the padding after a `bool`, both layouts are equally far. */
  lemma {:induction false} EndsAgree(slots: seq<Slot>, i: nat)
    requires i <= |slots| && Plain(slots)
    requires forall i :: 0 <= i < |slots| && IsBool(slots[i]) ==> !FollowsBool(slots, i)
    ensures SizeBefore(slots, i) % 4 == 0
    ensures SizeBefore(slots, i) == StructEnd(slots, i) + if FollowsBool(slots, i) then 3 else 0
  {
    hide And, Aligned, NextMultiple, MemberAlignment, MemberSize;
    if i > 0 {
      EndsAgree(slots, i - 1);
      if slots[i - 1].Value? {
        MembersAre(slots[i - 1]);
        OffsetsMeet(slots, i - 1);
      }
    }
  }

  lemma OffsetsMeet(slots: seq<Slot>, i: nat)
    requires i < |slots| && HasPlace(slots[i]) && Plain(slots)
    requires IsBool(slots[i]) ==> !FollowsBool(slots, i)
    requires SizeBefore(slots, i) % 4 == 0
    requires SizeBefore(slots, i) == StructEnd(slots, i) + if FollowsBool(slots, i) then 3 else 0
    ensures Offset(slots, i) == MemberOffset(slots, i) && Offset(slots, i) % 4 == 0
  {
    hide And, Aligned, NextMultiple, MemberAlignment, MemberSize;
    MembersAre(slots[i]);
    LeastMultiple(SizeBefore(slots, i), Step(slots[i]));
    if IsBool(slots[i]) {
      NextIs(StructEnd(slots, i), 1);
    } else if FollowsBool(slots, i) {
      PaddingIsSkipped(SizeBefore(slots, i), Step(slots[i]));
    }
  }

  /** The buffer is never smaller than the struct, whose own size is rounded up to at most 16. */
  lemma BufferHoldsStruct(slots: seq<Slot>, a: nat)
    requires Plain(slots)
    requires Alignment(a)
    ensures NextMultiple(StructEnd(slots, |slots|), a) <= UniformSize(slots)
  {
    hide And, Aligned, NextMultiple, MemberAlignment, MemberSize;
    var size := SizeBefore(slots, |slots|);
    StructIsSmaller(slots, |slots|);
    UniformSizeIs(slots);
    NextGrows(StructEnd(slots, |slots|), size, a, 16);
  }

  lemma {:induction false} StructIsSmaller(slots: seq<Slot>, i: nat)
    requires i <= |slots| && Plain(slots)
    ensures StructEnd(slots, i) <= SizeBefore(slots, i)
  {
    hide And, Aligned, NextMultiple, MemberAlignment, MemberSize;
    if i > 0 {
      StructIsSmaller(slots, i - 1);
      if slots[i - 1].Value? {
        var size := SizeBefore(slots, i - 1);
        MembersAre(slots[i - 1]);
        LeastMultiple(size, Step(slots[i - 1]));
        NextGrows(StructEnd(slots, i - 1), size, MemberAlignment(slots[i - 1]), Step(slots[i - 1]));
      }
    }
  }
}
