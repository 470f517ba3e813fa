/** The cache that the Direct3D 11 device keeps for each kind of pipeline state: blending, rasterizing, and depth and
    stencil tests. */
module StateCache {
  import opened Options

  /** A state, the native descriptor made from it, and the native object made from that. */
  datatype Saved<S, D> = Saved(state: S, desc: D, native: nat)

  class StateCache<S(==), D(==)> {
    const convert: S -> D
    var state: S                       // the logical state
    var changed: bool
    var saved: seq<Saved<S, D>>
    var current: Option<nat>           // the native object this class believes to be bound
    var objects: seq<D>                // the objects the native device has created, each by its descriptor
    var bound: Option<nat>             // the object the native context has bound

    ghost predicate Valid()
      reads this
    {
      && |objects| == |saved|
      && (forall i :: 0 <= i < |saved| ==>
            saved[i].native == i && saved[i].desc == convert(saved[i].state) == objects[i])
      && (forall i, j :: 0 <= i < j < |objects| ==> objects[i] != objects[j])
      && current == bound
      && (bound.Some? ==> bound.value < |objects|)
      && (!changed ==> Shown() == Some(convert(state)))
    }

    /** The descriptor that draws see. */
    ghost function Shown(): Option<D>
      reads this
    {
      if bound.Some? && bound.value < |objects| then Some(objects[bound.value]) else None
    }

    constructor (convert: S -> D, state: S)
      ensures Valid() && this.convert == convert && this.state == state
      ensures changed && objects == [] && bound == None
    {
      this.convert, this.state, changed := convert, state, true;
      saved, current, objects, bound := [], None, [], None;
    }

    /** A setter: it marks the state as changed only if it is another one, unless it is told that it is. */
    method Set(state: S, always: bool)
      requires Valid()
      modifies this
      ensures Valid() && this.state == state
      ensures objects == old(objects) && bound == old(bound)
    {
      if this.state == state && !always {
        return;
      }
      this.state := state;
      changed := true;
    }

    /** Makes the context use the current state, creating a native object only for a state that has none. The only
        thing that can go wrong is that creation, and then nothing changes. */
    method Update(created: bool) returns (ok: bool)
      requires Valid()
      requires forall s, t :: convert(s) == convert(t) ==> s == t
      modifies this
      ensures Valid() && state == old(state)
      ensures ok ==> Shown() == Some(convert(state))
      ensures ok <==> created || !old(changed) || convert(state) in old(objects)
      ensures !ok ==> objects == old(objects) && bound == old(bound)
      ensures ok ==> objects == if !old(changed) || convert(state) in old(objects) then old(objects)
                                else old(objects) + [convert(state)]
    {
      if !changed {
        return true;
      }
      var native: Option<nat> := None;
      for i := 0 to |saved|
        invariant native.None?
        invariant forall j :: 0 <= j < i ==> saved[j].state != state
      {
        if saved[i].state == state {
          native := Some(saved[i].native);
          break;
        }
      }
      if native.None? {
        if !created {
          return false;
        }
        var desc := convert(state);
        native := Some(|objects|);
        objects := objects + [desc];
        saved := saved + [Saved(state, desc, native.value)];
      }
      if native != current {
        bound := native;
        current := native;
      }
      changed := false;
      ok := true;
    }

    /** After the loss of the device: one new native object for every saved descriptor, and none of them bound. */
    method Rebuild()
      requires Valid()
      modifies this
      ensures Valid() && state == old(state)
      ensures objects == old(objects) && bound == None && changed
    {
      ghost var before := objects;
      ghost var all := saved;
      objects, bound, current, changed := [], None, None, true;
      for i := 0 to |saved|
        invariant |saved| == |all| == |before| && objects == before[..i]
        invariant bound == None && current == None && changed && state == old(state)
        invariant forall j :: 0 <= j < |saved| ==>
          saved[j].state == all[j].state && saved[j].desc == all[j].desc && saved[j].native == j
        modifies this
      {
        saved := saved[i := saved[i].(native := |objects|)];
        objects := objects + [saved[i].desc];
      }
      assert before[..|saved|] == before;
    }
  }
}
