/**
 The framebuffer pool of libwlblur/src/framebuffer.c: at most sixteen framebuffers, reused by
 exact size, never destroyed before the pool is.
 */
module Framebuffer {
  import opened Gpu

  const POOL_SIZE := 16

  class Fbo {
    const texture: nat
    const width: int
    const height: int
    var inUse: bool

    constructor (texture: nat, width: int, height: int)
      ensures this.texture == texture && this.width == width && this.height == height
      ensures !inUse
    {
      this.texture, this.width, this.height, inUse := texture, width, height, false;
    }
  }

  /** The texture names behind a list of framebuffers. */
  ghost function Textures(fbos: seq<Fbo>): set<nat> {
    set f | f in fbos :: f.texture
  }

  ghost predicate DistinctTextures(fbos: seq<Fbo>) {
    forall i, j | 0 <= i < j < |fbos| :: fbos[i].texture != fbos[j].texture
  }

  lemma {:induction false} TextureCount(fbos: seq<Fbo>)
    ensures |Textures(fbos)| <= |fbos|
    ensures DistinctTextures(fbos) ==> |Textures(fbos)| == |fbos|
  {
    if fbos != [] {
      var init, last := fbos[..|fbos| - 1], fbos[|fbos| - 1];
      TextureCount(init);
      assert fbos == init + [last];
      assert Textures(fbos) == Textures(init) + {last.texture};
    }
  }

  lemma AppendTexture(fbos: seq<Fbo>, f: Fbo)
    ensures Textures(fbos + [f]) == Textures(fbos) + {f.texture}
    ensures f.texture !in Textures(fbos) && DistinctTextures(fbos) ==> DistinctTextures(fbos + [f])
  {
    assert forall g | g in fbos :: g.texture in Textures(fbos);
    assert forall g :: g in fbos + [f] <==> g in fbos || g == f;
  }

  /** What never changes about a slot once it is occupied. */
  datatype Buffer = Buffer(texture: nat, width: int, height: int)

  ghost function Buffers(fbos: seq<Fbo>): set<Buffer> {
    set f | f in fbos :: Buffer(f.texture, f.width, f.height)
  }

  lemma {:induction false} BufferCount(fbos: seq<Fbo>)
    ensures |Buffers(fbos)| <= |fbos|
    ensures DistinctTextures(fbos) ==> |Buffers(fbos)| == |fbos|
  {
    if fbos != [] {
      var init, last := fbos[..|fbos| - 1], fbos[|fbos| - 1];
      BufferCount(init);
      assert fbos == init + [last];
      assert Buffers(fbos) == Buffers(init) + {Buffer(last.texture, last.width, last.height)};
      assert forall f | f in init && DistinctTextures(fbos) :: f.texture != last.texture;
    }
  }

  class FboPool {
    const slots: array<Fbo?>
    var count: nat
    ghost var fbos: seq<Fbo>  // the occupied slots, in order

    ghost predicate Valid()
      reads this, slots
    {
      && slots.Length == POOL_SIZE
      && count == |fbos| <= POOL_SIZE
      && (forall i | 0 <= i < count :: slots[i] == fbos[i])
      && DistinctTextures(fbos)
      && 0 !in Textures(fbos)
    }

    ghost function Members(): set<Fbo>
      reads this
    {
      set f | f in fbos
    }

    /** Every texture the pool owns, and those that are acquired at the moment. */
    ghost function Owned(): set<nat>
      reads this
    {
      Textures(fbos)
    }

    ghost function Busy(): set<nat>
      reads this, Members()
    {
      set f | f in fbos && f.inUse :: f.texture
    }

    /** Occupied slots stay, and those that join are new. */
    twostate predicate Grown()
      reads this
    {
      && old(fbos) <= fbos && old(Members()) <= Members()
      && (forall f | f in Members() :: f in old(Members()) || fresh(f))
    }

    /** Whether a framebuffer can be handed out again for the given size. */
    ghost predicate Reusable(f: Fbo, width: int, height: int)
      reads f
    {
      !f.inUse && f.width == width && f.height == height
    }

    ghost predicate HasFree(width: int, height: int)
      reads this, Members()
    {
      exists f | f in fbos :: Reusable(f, width, height)
    }

    constructor ()
      ensures Valid() && fresh(slots)
      ensures fbos == []
    {
      slots := new Fbo?[POOL_SIZE](_ => null);
      count, fbos := 0, [];
    }

    /** wlblur_fbo_create: a failing driver leaves no texture behind. */
    method CreateFbo(gpu: Driver, width: int, height: int) returns (f: Fbo?)
      modifies gpu`memory
      ensures f == null ==> gpu.memory == old(gpu.memory) && (!gpu.caps.reliable || width <= 0 || height <= 0)
      ensures f != null ==>
                && fresh(f) && f.width == width > 0 && f.height == height > 0 && !f.inUse
                && f.texture != 0 && f.texture !in old(gpu.memory)
                && gpu.memory == old(gpu.memory)[f.texture := Unwritten]
    {
      if width <= 0 || height <= 0 {
        return null;
      }
      var texture := gpu.GenTexture();
      var complete: bool := *;
      if !complete && !gpu.caps.reliable {
        gpu.DeleteTexture(texture);
        return null;
      }
      f := new Fbo(texture, width, height);
    }

    /** The search of wlblur_fbo_pool_acquire. */
    method FindReusable(width: int, height: int) returns (f: Fbo?)
      requires Valid()
      ensures f == null ==> forall g | g in fbos :: !Reusable(g, width, height)
      ensures f != null ==>
                exists i | 0 <= i < |fbos| ::
                  && f == fbos[i] && Reusable(f, width, height)
                  && forall k | 0 <= k < i :: !Reusable(fbos[k], width, height)
    {
      for i := 0 to count
        invariant forall k | 0 <= k < i :: !Reusable(fbos[k], width, height)
      {
        var candidate := slots[i];
        if candidate != null && !candidate.inUse && candidate.width == width && candidate.height == height {
          assert candidate == fbos[i];
          return candidate;
        }
      }
      return null;
    }

    /** wlblur_fbo_pool_acquire: the first reusable framebuffer, or a new one, or none. */
    method Acquire(gpu: Driver, width: int, height: int) returns (f: Fbo?)
      requires Valid() && Owned() <= gpu.memory.Keys
      modifies this, slots, Members(), gpu`memory
      ensures Valid() && Grown()
      ensures f == null ==>
                && fbos == old(fbos) && gpu.memory == old(gpu.memory) && Busy() == old(Busy())
                && !HasFree(width, height)
                && (!gpu.caps.reliable || width <= 0 || height <= 0 || |fbos| == POOL_SIZE)
      ensures forall g | g in old(fbos) && g != f :: g.inUse == old(g.inUse)
      ensures f != null ==>
                && f in fbos && f.inUse && f.width == width && f.height == height
                && f.texture !in old(Busy()) && Busy() == old(Busy()) + {f.texture}
      ensures f != null && f in old(fbos) ==>
                && fbos == old(fbos) && gpu.memory == old(gpu.memory)
                && exists i | 0 <= i < |fbos| ::
                     fbos[i] == f && forall k | 0 <= k < i :: !old(Reusable(fbos[k], width, height))
      ensures f != null && f !in old(fbos) ==>
                && fbos == old(fbos) + [f] && f.texture !in old(gpu.memory) && f.texture != 0
                && gpu.memory == old(gpu.memory)[f.texture := Unwritten]
                && |old(fbos)| < POOL_SIZE && !old(HasFree(width, height))
    {
      f := FindReusable(width, height);
      if f != null {
        f.inUse := true;
        return;
      }
      if count >= POOL_SIZE {
        return null;
      }
      f := CreateFbo(gpu, width, height);
      if f == null {
        return;
      }
      f.inUse := true;
      slots[count] := f;
      count, fbos := count + 1, fbos + [f];
    }

    /** wlblur_fbo_pool_release */
    method Release(f: Fbo)
      requires Valid() && f in Members()
      modifies f
      ensures Valid() && !f.inUse
      ensures Busy() == old(Busy()) - {f.texture}
    {
      f.inUse := false;
    }
  }
}
