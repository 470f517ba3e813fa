/** The list of linked shader programs of the OpenGL back end. Every node knows the pointer that points at it, so that
    it can take itself out. The Direct3D 11 back end keeps its objects in a list of the same kind. */
module ProgramList {

  /** The address of a pointer to a program: the head of the list, or the `next` field of a program. */
  datatype Slot = Null | First | NextOf(program: Program)

  class Program {
    const vertexShader: nat
    const pixelShader: nat
    var next: Program?
    var prevNext: Slot

    /** Not in any list. */
    constructor (vertexShader: nat, pixelShader: nat)
      ensures this.vertexShader == vertexShader && this.pixelShader == pixelShader
      ensures next == null && prevNext == Null
    {
      this.vertexShader, this.pixelShader := vertexShader, pixelShader;
      next, prevNext := null, Null;
    }

    predicate Uses(shader: Shader) {
      if shader.vertex then vertexShader == shader.id else pixelShader == shader.id
    }
  }

  datatype Shader = Shader(vertex: bool, id: nat)

  /** The programs that do not use a shader, in their order. */
  function Without(programs: seq<Program>, shader: Shader): (r: seq<Program>)
  {
    if programs == [] then []
    else if programs[0].Uses(shader) then Without(programs[1..], shader)
    else [programs[0]] + Without(programs[1..], shader)
  }

  lemma {:induction false} WithoutAppend(a: seq<Program>, b: seq<Program>, shader: Shader)
    ensures Without(a + b, shader) == Without(a, shader) + Without(b, shader)
  {
    if a == [] {
      assert a + b == b;
    } else {
      assert (a + b)[1..] == a[1..] + b;
      WithoutAppend(a[1..], b, shader);
    }
  }

  /** Exactly the programs that use the shader are gone. */
  lemma {:induction false} WithoutMembers(programs: seq<Program>, shader: Shader, p: Program)
    ensures p in Without(programs, shader)
        <==> p in programs && shader.id != (if shader.vertex then p.vertexShader else p.pixelShader)
  {
    if programs != [] {
      WithoutMembers(programs[1..], shader, p);
      assert p in programs <==> p == programs[0] || p in programs[1..];
    }
  }

  /** The list without one program. */
  function Except(programs: seq<Program>, p: Program): (r: seq<Program>)
    ensures |r| <= |programs|
  {
    if programs == [] then []
    else if programs[0] == p then Except(programs[1..], p)
    else [programs[0]] + Except(programs[1..], p)
  }

  predicate Distinct(programs: seq<Program>) {
    forall i, j :: 0 <= i < j < |programs| ==> programs[i] != programs[j]
  }

  /** No two programs were linked from the same shaders. */
  predicate DifferentShaders(programs: seq<Program>) {
    forall i, j :: 0 <= i < j < |programs| ==>
      programs[i].vertexShader != programs[j].vertexShader || programs[i].pixelShader != programs[j].pixelShader
  }

  lemma DifferentWithout(programs: seq<Program>, i: nat)
    requires DifferentShaders(programs) && i < |programs|
    ensures DifferentShaders(programs[..i] + programs[i + 1..])
    ensures forall q :: q in programs && q != programs[i] ==> q in programs[..i] + programs[i + 1..]
  {
  }

  lemma ExceptNothing(programs: seq<Program>, p: Program)
    requires p !in programs
    ensures Except(programs, p) == programs
  {
  }

  lemma {:induction false} ExceptAt(programs: seq<Program>, i: nat)
    requires Distinct(programs) && i < |programs|
    ensures Except(programs, programs[i]) == programs[..i] + programs[i + 1..]
  {
    if i == 0 {
      ExceptNothing(programs[1..], programs[0]);
    } else {
      ExceptAt(programs[1..], i - 1);
      assert programs[..i] == [programs[0]] + programs[1..][..i - 1];
    }
  }

  /** What the `next` field of the program at position `i` has to be, and where the pointer to it is. */
  function NextAt(programs: seq<Program>, i: nat): Program?
    requires i < |programs|
  {
    if i + 1 < |programs| then programs[i + 1] else null
  }

  function SlotAt(programs: seq<Program>, i: nat): Slot
    requires i < |programs|
  {
    if i == 0 then First else NextOf(programs[i - 1])
  }

  /** Taking one out changes only what its neighbours have to hold. */
  lemma NeighboursChange(programs: seq<Program>, i: nat, k: nat)
    requires i < |programs| && k < |programs| && k != i
    ensures var r := programs[..i] + programs[i + 1..];
      var j := if k < i then k else k - 1;
      && r[j] == programs[k]
      && NextAt(r, j) == NextAt(programs, if k + 1 == i then i else k)
      && SlotAt(r, j) == SlotAt(programs, if k == i + 1 then i else k)
  {
  }

  /** A list with one more program at its head. */
  lemma EndsOfList(p: Program, programs: seq<Program>)
    ensures var r := [p] + programs;
      && NextAt(r, 0) == (if programs == [] then null else programs[0]) && SlotAt(r, 0) == First
      && (forall i :: 0 < i < |r| ==> NextAt(r, i) == NextAt(programs, i - 1))
      && (forall i :: 1 < i < |r| ==> SlotAt(r, i) == SlotAt(programs, i - 1))
      && (programs != [] ==> SlotAt(r, 1) == NextOf(p))
  {
  }

  lemma DistinctWith(programs: seq<Program>, p: Program)
    requires Distinct(programs) && p !in programs
    ensures Distinct([p] + programs)
  {
  }

  lemma DistinctWithout(programs: seq<Program>, i: nat)
    requires Distinct(programs) && i < |programs|
    ensures var r := programs[..i] + programs[i + 1..];
      Distinct(r) && programs[i] !in r && forall j :: 0 <= j < |r| ==> r[j] == programs[if j < i then j else j + 1]
  {
  }

  class Device {
    var firstProgram: Program?
    var curProgram: Program?
    ghost var programs: seq<Program>   // what the list holds, from its head on
    ghost var created: set<Program>    // every program that was ever in it

    ghost predicate Valid()
      reads this, created
    {
      && (forall i :: 0 <= i < |programs| ==> programs[i] in created)
      && Distinct(programs)
      && firstProgram == (if programs == [] then null else programs[0])
      && (forall i :: 0 <= i < |programs| ==> programs[i].next == NextAt(programs, i))
      && (forall i :: 0 <= i < |programs| ==> programs[i].prevNext == SlotAt(programs, i))
    }

    /** The current program, if any, is in the list; at most one program was linked from any two shaders. */
    ghost predicate Unique()
      reads this
    {
      (curProgram != null ==> curProgram in programs) && DifferentShaders(programs)
    }

    constructor ()
      ensures Valid() && Unique() && programs == [] && created == {} && curProgram == null
    {
      firstProgram, curProgram, programs, created := null, null, [], {};
    }

    /** Links two shaders into a program at the head of the list. A program that does not link is destroyed again,
        without having been in the list. */
    method CreateProgram(vertexShader: nat, pixelShader: nat, linked: bool) returns (p: Program?)
      requires Valid()
      modifies this, created
      ensures Valid() && curProgram == old(curProgram)
      ensures p != null <==> linked
      ensures !linked ==> programs == old(programs)
      ensures linked ==> fresh(p) && p.vertexShader == vertexShader && p.pixelShader == pixelShader
      ensures linked ==> programs == [p] + old(programs) && created == old(created) + {p}
      ensures !linked ==> created == old(created)
    {
      var program := new Program(vertexShader, pixelShader);
      if !linked {
        ExceptNothing(programs, program);
        DestroyProgram(program);
        return null;
      }
      hide Distinct, NextAt, SlotAt;
      ghost var before := programs;
      EndsOfList(program, before);
      DistinctWith(programs, program);
      program.next := firstProgram;
      program.prevNext := First;
      firstProgram := program;
      if program.next != null {
        program.next.prevNext := NextOf(program);
      }
      programs, created := [program] + before, created + {program};
      forall i | 0 < i < |programs|
        ensures programs[i].next == NextAt(programs, i) && programs[i].prevNext == SlotAt(programs, i)
      {
        assert programs[i] == before[i - 1];
        assert old(before[i - 1].next) == NextAt(before, i - 1) && old(before[i - 1].prevNext) == SlotAt(before, i - 1);
      }
      p := program;
    }

    /** Takes a program out of the list if it is in one; the rest keep their order. It is current no longer. */
    method DestroyProgram(p: Program)
      requires Valid()
      requires p in programs || (p.next == null && p.prevNext == Null)
      modifies this, created
      ensures Valid() && p !in programs && programs == Except(old(programs), p)
      ensures curProgram == if old(curProgram) == p then null else old(curProgram)
      ensures created == old(created)
      ensures old(Unique()) ==> Unique()
    {
      hide NextAt, SlotAt, Distinct, DifferentShaders;
      if curProgram == p {
        curProgram := null;
      }
      ghost var before := programs;
      ghost var i := |before|;
      if p in before {
        i :| 0 <= i < |before| && before[i] == p;
        ExceptAt(before, i);
        if DifferentShaders(before) {
          DifferentWithout(before, i);
        }
      } else {
        ExceptNothing(before, p);
      }
      Unlink(p, i);
    }

    /** Unlinks the program; `i` is where the program is in the list. */
    method Unlink(p: Program, ghost i: nat)
      requires Valid()
      requires if i < |programs| then programs[i] == p else p !in programs && p.next == null && p.prevNext == Null
      modifies this, created
      ensures Valid() && p !in programs && curProgram == old(curProgram) && created == old(created)
      ensures programs == if i < |old(programs)| then old(programs)[..i] + old(programs)[i + 1..] else old(programs)
    {
      ghost var before := programs;
      if i < |before| {
        assert p.next == NextAt(before, i) && p.prevNext == SlotAt(before, i);
        DistinctWithout(before, i);
        programs := before[..i] + before[i + 1..];
      }
      if p.next != null {
        p.next.prevNext := p.prevNext;
      }
      match p.prevNext {
        case Null =>
        case First => firstProgram := p.next;
        case NextOf(q) => q.next := p.next;
      }
      forall j | 0 <= j < |programs|
        ensures programs[j].next == NextAt(programs, j) && programs[j].prevNext == SlotAt(programs, j)
      {
        if i < |before| {
          var k := if j < i then j else j + 1;
          NeighboursChange(before, i, k);
          assert old(before[k].next) == NextAt(before, k) && old(before[k].prevNext) == SlotAt(before, k);
        }
      }
    }

    /** Destroys exactly the programs that use the shader, while walking the list. */
    method RemoveProgramReferences(shader: Shader)
      requires Valid()
      modifies this, created
      ensures Valid() && programs == Without(old(programs), shader) && created == old(created)
      ensures old(Unique()) ==> Unique()
    {
      hide NextAt, SlotAt, Distinct, Without;
      ghost var done: seq<Program>, rest := [], programs;
      var program := firstProgram;
      while program != null
        invariant Valid() && programs == done + rest && created == old(created)
        invariant program == if rest == [] then null else rest[0]
        invariant done + Without(rest, shader) == Without(old(programs), shader)
        invariant old(Unique()) ==> Unique()
        decreases |rest|
      {
        WalkStep(done, rest, shader);
        program := DestroyIfUsing(program, |done|, shader);
        done := if rest[0].Uses(shader) then done else done + [rest[0]];
        rest := rest[1..];
      }
      WithoutNothing(shader);
    }

    /** One round of that walk: the next program is known before this one is destroyed. */
    method DestroyIfUsing(program: Program, ghost k: nat, shader: Shader) returns (next: Program?)
      requires Valid() && k < |programs| && programs[k] == program
      modifies this, created
      ensures Valid() && created == old(created) && next == NextAt(old(programs), k)
      ensures programs == if program.Uses(shader) then old(programs)[..k] + old(programs)[k + 1..] else old(programs)
      ensures old(Unique()) ==> Unique()
    {
      hide NextAt, SlotAt, Distinct;
      next := program.next;
      if program.Uses(shader) {
        ExceptAt(programs, k);
        DestroyProgram(program);
      }
    }

    /** The program of two shaders: the one in the list, or a new one. */
    method GetShaderProgram(vertexShader: nat, pixelShader: nat, linked: bool) returns (p: Program?)
      requires Valid() && Unique()
      modifies this, created
      ensures Valid() && Unique()
      ensures p != null ==> p in programs && p.vertexShader == vertexShader && p.pixelShader == pixelShader
      ensures old(exists q :: q in programs && q.vertexShader == vertexShader && q.pixelShader == pixelShader)
              ==> p != null && programs == old(programs)
      ensures linked ==> p != null
      ensures programs == old(programs) || (p != null && programs == [p] + old(programs))
      ensures created >= old(created) && fresh(created - old(created))
    {
      p := firstProgram;
      ghost var i := 0;
      while p != null
        invariant i <= |programs| && p == if i < |programs| then programs[i] else null
        invariant forall j :: 0 <= j < i ==>
          programs[j].vertexShader != vertexShader || programs[j].pixelShader != pixelShader
        decreases |programs| - i
      {
        if p.vertexShader == vertexShader && p.pixelShader == pixelShader {
          return;
        }
        p := p.next;
        i := i + 1;
      }
      p := CreateProgram(vertexShader, pixelShader, linked);
    }

    /** Destroying the device destroys every program. */
    method Destroy()
      requires Valid()
      modifies this, created
      ensures programs == [] && firstProgram == null
    {
      while firstProgram != null
        invariant Valid() && created == old(created)
        decreases |programs|
      {
        assert programs[0] == firstProgram;
        ExceptAt(programs, 0);
        DestroyProgram(firstProgram);
      }
    }
  }

  /** One step of walking the list while programs are taken out of it. */
  lemma {:induction false} WalkStep(done: seq<Program>, rest: seq<Program>, shader: Shader)
    requires rest != []
    ensures var now := done + rest;
      var kept := if rest[0].Uses(shader) then done else done + [rest[0]];
      && |done| < |now| && now[|done|] == rest[0]
      && NextAt(now, |done|) == (if rest[1..] == [] then null else rest[1..][0])
      && kept + rest[1..] == (if rest[0].Uses(shader) then now[..|done|] + now[|done| + 1..] else now)
      && kept + Without(rest[1..], shader) == done + Without(rest, shader)
  {
    var now := done + rest;
    assert now[..|done|] + now[|done| + 1..] == done + rest[1..];
    assert done + [rest[0]] + rest[1..] == now;
    if !rest[0].Uses(shader) {
      assert done + [rest[0]] + Without(rest[1..], shader) == done + ([rest[0]] + Without(rest[1..], shader));
    }
  }

  lemma WithoutNothing(shader: Shader)
    ensures Without([], shader) == []
  {
  }
}
