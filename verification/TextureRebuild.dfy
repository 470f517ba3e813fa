/** What happens to 2D textures when a lost Direct3D 11 device is rebuilt. The two planes of a video texture are a pair
    of textures that share one native texture. */
module TextureRebuild {

  /** A native texture: the device it belongs to, and its number there. */
  datatype Native = Nothing | Handle(device: nat, id: nat)

  class NativeDevice {
    const generation: nat
    var created: nat

    constructor (generation: nat)
      ensures this.generation == generation && created == 0
    {
      this.generation, created := generation, 0;
    }

    method CreateTexture() returns (h: Native)
      modifies this
      ensures h == Handle(generation, old(created)) && created == old(created) + 1
    {
      h := Handle(generation, created);
      created := created + 1;
    }
  }

  class Texture2D {
    var texture: Native
    var pairedTexture: Texture2D?
    var chroma: bool
    var isShared: bool
    ghost var released: nat   // how often, since the device was lost
    ghost var rebuilt: nat

    constructor (texture: Native, isShared: bool)
      ensures this.texture == texture && this.isShared == isShared && pairedTexture == null && !chroma
      ensures released == 0 && rebuilt == 0
    {
      this.texture, this.isShared, pairedTexture, chroma := texture, isShared, null, false;
      released, rebuilt := 0, 0;
    }

    /** One of a pair, the one that is rebuilt by the other. */
    predicate Follows()
      reads `pairedTexture, `chroma
    {
      pairedTexture != null && chroma
    }

    method Release()
      modifies `texture, `released
      ensures texture == Nothing && released == old(released) + 1
    {
      texture := Nothing;
      released := released + 1;
    }

    /** A shared texture is shareable again; if that fails, a new one takes its place. */
    method Rebuild(dev: NativeDevice, shareable: bool)
      modifies `texture, `rebuilt, `isShared, dev
      ensures texture == Handle(dev.generation, old(dev.created)) && dev.created == old(dev.created) + 1
      ensures rebuilt == old(rebuilt) + 1
    {
      if isShared && !shareable {
        isShared := false;
      }
      texture := dev.CreateTexture();
      rebuilt := rebuilt + 1;
    }

    /** The luma texture of a pair rebuilds its partner, too. */
    method RebuildPairedY(dev: NativeDevice)
      requires pairedTexture != null && pairedTexture != this && pairedTexture.pairedTexture == this
      modifies `texture, `rebuilt, pairedTexture`texture, pairedTexture`rebuilt, dev
      ensures texture == Handle(dev.generation, old(dev.created)) && dev.created == old(dev.created) + 1
      ensures rebuilt == old(rebuilt) + 1
      ensures pairedTexture.texture == texture && pairedTexture.rebuilt == old(pairedTexture.rebuilt) + 1
    {
      texture := dev.CreateTexture();
      rebuilt := rebuilt + 1;
      pairedTexture.RebuildPairedUV();
    }

    method RebuildPairedUV()
      requires pairedTexture != null
      modifies `texture, `rebuilt
      ensures texture == old(pairedTexture.texture) && rebuilt == old(rebuilt) + 1
    {
      texture := pairedTexture.texture;
      rebuilt := rebuilt + 1;
    }
  }

  /** Two textures made into a pair, as for the planes of NV12 and P010 frames. */
  method Pair(y: Texture2D, uv: Texture2D)
    requires y != uv
    modifies y, uv
    ensures y.pairedTexture == uv && uv.pairedTexture == y && uv.chroma && !y.chroma
    ensures uv.texture == y.texture == old(y.texture)
  {
    y.pairedTexture, uv.pairedTexture := uv, y;
    y.chroma, uv.chroma := false, true;
    uv.texture := y.texture;
  }

  /** Pairs are symmetric and live: both partners are in the list, one of them the chroma texture. */
  ghost predicate Paired(objects: seq<Texture2D>)
    reads objects`pairedTexture, objects`chroma
  {
    forall t :: t in objects && t.pairedTexture != null ==>
      && t.pairedTexture in objects && t.pairedTexture != t
      && t.pairedTexture.pairedTexture == t && t.pairedTexture.chroma == !t.chroma
  }

  predicate Distinct(objects: seq<Texture2D>) {
    forall i, j :: 0 <= i < j < |objects| ==> objects[i] != objects[j]
  }

  /** Rebuilding a device releases every texture once and then rebuilds it once, wherever it is in the list. Every
      texture then belongs to the new device and has a native texture of its own, but pairs share theirs. */
  method RebuildDevice(objects: seq<Texture2D>, dev: NativeDevice, shareable: seq<bool>)
    requires Paired(objects) && Distinct(objects) && |shareable| == |objects|
    requires forall t :: t in objects ==> t.released == 0 && t.rebuilt == 0
    modifies objects`texture, objects`released, objects`rebuilt, objects`isShared, dev
    ensures forall t :: t in objects ==> t.released == 1 && t.rebuilt == 1
    ensures forall t :: t in objects ==> t.texture.Handle? && t.texture.device == dev.generation
    ensures forall t, u :: t in objects && u in objects && t != u ==> (t.texture == u.texture <==> t.pairedTexture == u)
  {
    ReleaseAll(objects);
    ghost var made := RebuildAll(objects, dev, shareable);
  }

  /** The second walk over the objects of the device. `made` are the numbers of the native textures, by the textures
      that they were made for. */
  method RebuildAll(objects: seq<Texture2D>, dev: NativeDevice, shareable: seq<bool>)
    returns (ghost made: map<Texture2D, nat>)
    requires Paired(objects) && Distinct(objects) && |shareable| == |objects|
    requires forall t :: t in objects ==> t.rebuilt == 0
    modifies objects`texture, objects`rebuilt, objects`isShared, dev
    ensures forall t :: t in objects ==> t.rebuilt == 1 && Leader(t) in made
    ensures forall t :: t in objects && Leader(t) in made ==> t.texture == Handle(dev.generation, made[Leader(t)])
    ensures forall t, u :: t in made && u in made && t != u ==> made[t] != made[u]
  {
    made := map[];
    for i := 0 to |objects|
      invariant forall t :: t in objects ==> t.rebuilt == if Leader(t) in made then 1 else 0
      invariant forall t :: t in objects && Leader(t) in made ==> t.texture == Handle(dev.generation, made[Leader(t)])
      invariant forall t :: t in made ==> made[t] < dev.created
      invariant forall t, u :: t in made && u in made && t != u ==> made[t] != made[u]
      invariant forall j :: 0 <= j < i ==> objects[j].Follows() || objects[j] in made
      invariant forall j :: i <= j < |objects| ==> objects[j] !in made
    {
      made := RebuildNext(objects, objects[i], dev, made, shareable[i]);
    }
    forall t | t in objects ensures Leader(t) in made {
      var j :| 0 <= j < |objects| && objects[j] == Leader(t);
    }
  }

  /** One round of the loop over the objects of the device. `made` are the numbers of the native textures so far. */
  method RebuildNext(objects: seq<Texture2D>, tex: Texture2D, dev: NativeDevice, ghost made: map<Texture2D, nat>,
                     shareable: bool) returns (ghost now: map<Texture2D, nat>)
    requires Paired(objects) && tex in objects && tex !in made
    requires forall t :: t in objects ==> t.rebuilt == if Leader(t) in made then 1 else 0
    requires forall t :: t in objects && Leader(t) in made ==> t.texture == Handle(dev.generation, made[Leader(t)])
    modifies tex`texture, tex`rebuilt, tex`isShared, dev
    modifies Partner(tex)`texture, Partner(tex)`rebuilt
    ensures now == if tex.Follows() then made else made[tex := old(dev.created)]
    ensures dev.created == old(dev.created) + if tex.Follows() then 0 else 1
    ensures forall t :: t in objects ==> t.rebuilt == if Leader(t) in now then 1 else 0
    ensures forall t :: t in objects && Leader(t) in now ==> t.texture == Handle(dev.generation, now[Leader(t)])
  {
    now := made;
    if tex.pairedTexture == null {
      now := made[tex := dev.created];
      tex.Rebuild(dev, shareable);
    } else if !tex.chroma {
      now := made[tex := dev.created];
      tex.RebuildPairedY(dev);
    }
  }

  ghost function Partner(t: Texture2D): set<Texture2D>
    reads t`pairedTexture
  {
    if t.pairedTexture == null then {} else {t.pairedTexture}
  }

  /** The texture whose turn it is when `t` is rebuilt. */
  function Leader(t: Texture2D): Texture2D
    reads t`pairedTexture, t`chroma
  {
    if t.Follows() then t.pairedTexture else t
  }

  method ReleaseAll(objects: seq<Texture2D>)
    requires Distinct(objects)
    modifies objects`texture, objects`released
    ensures forall t :: t in objects ==> t.released == old(t.released) + 1 && t.texture == Nothing
  {
    for i := 0 to |objects|
      invariant forall j :: 0 <= j < i ==>
        objects[j].released == old(objects[j].released) + 1 && objects[j].texture == Nothing
      invariant forall j :: i <= j < |objects| ==> objects[j].released == old(objects[j].released)
    {
      objects[i].Release();
    }
  }
}
