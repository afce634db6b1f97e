/**
 The GL and EGL state the library drives. Passes are kept as uninterpreted terms, so an equation
 between images holds for every shader. What the driver decides (texture names, failures) is
 left open by the contracts: callers are verified against any choice that meets them.
 */
module Gpu {
  import opened CTypes

  /** One shader invocation: the target size and the uniforms that reach the fragment shader. */
  datatype Shader =
    | Downsample(width: int, height: int, radius: real)
    | Upsample(width: int, height: int, radius: real)
    | Finish(width: int, height: int, brightness: real, contrast: real, saturation: real, noise: real)

  /** Texture contents. `Feedback` is what a draw leaves when it samples its own target. */
  datatype Image =
    | Unwritten
    | Feedback
    | Imported(attributes: seq<int>)
    | Shaded(shader: Shader, source: Image)

  /** What an EGLImage was made from: a buffer described by an attribute list, or a texture. */
  datatype Source = FromBuffer(attributes: seq<int>) | FromTexture(texture: nat)

  /** What the driver offers, and whether none of its calls ever goes wrong. */
  datatype Capabilities = Capabilities(reliable: bool, imports: bool, exports: bool)

  /** What the driver reports about a buffer to export: in general, and then plane by plane. */
  datatype Report =
    | Queried(format: uint32, numPlanes: int32, modifier: uint64)
    | Laid(strides: seq<uint32>, offsets: seq<uint32>)

  datatype Draw = Draw(target: nat, source: nat)

  /** Sampling a name that is not a live texture yields unspecified contents. */
  function Sample(memory: map<nat, Image>, texture: nat): Image {
    if texture in memory then memory[texture] else Unwritten
  }

  /** For every finite set there is an integer from `low` up that is not in it. */
  lemma FreshExists(s: set<int>, low: int)
    ensures exists n :: n >= low && n !in s
  {
    if x: int :| x in s {
      FreshExists(s - {x}, if x < low then low else x + 1);
    } else {
      assert low !in s;
    }
  }

  class Driver {
    var memory: map<nat, Image>  // live texture names and their contents
    var images: map<int, Source> // live EGLImages
    ghost var draws: seq<Draw>   // every draw issued so far
    ghost var reports: seq<Report> // every report so far
    const caps: Capabilities

    constructor (caps: Capabilities)
      ensures memory == map[] && images == map[] && draws == [] && reports == [] && this.caps == caps
    {
      memory, images, draws, reports := map[], map[], [], [];
      this.caps := caps;
    }

    method GenTexture() returns (texture: nat)
      modifies this`memory
      ensures texture != 0 && texture !in old(memory)
      ensures memory == old(memory)[texture := Unwritten]
    {
      FreshExists(set t: nat | t in memory.Keys :: t as int, 1);
      var name: int :| name >= 1 && name !in (set t: nat | t in memory.Keys :: t as int);
      texture := name;
      memory := memory[texture := Unwritten];
    }

    method DeleteTexture(texture: nat)
      modifies this`memory
      ensures memory == old(memory) - {texture}
    {
      memory := memory - {texture};
    }

    /** glEGLImageTargetTexture2DOES */
    method BindImage(texture: nat, image: int)
      requires texture in memory && image in images && images[image].FromBuffer?
      modifies this`memory
      ensures memory == old(memory)[texture := Imported(images[image].attributes)]
    {
      memory := memory[texture := Imported(images[image].attributes)];
    }

    method DrawQuad(target: nat, source: nat, shader: Shader)
      requires target in memory
      modifies this`memory, this`draws
      ensures memory == old(memory)[target :=
                        if source == target then Feedback else Shaded(shader, Sample(old(memory), source))]
      ensures draws == old(draws) + [Draw(target, source)]
    {
      var image := if source == target then Feedback else Shaded(shader, Sample(memory, source));
      memory := memory[target := image];
      draws := draws + [Draw(target, source)];
    }

    /** eglCreateImageKHR: None is EGL_NO_IMAGE_KHR. */
    method CreateImage(source: Source) returns (ok: bool, image: int)
      modifies this`images
      ensures ok ==> image !in old(images) && images == old(images)[image := source]
      ensures !ok ==> images == old(images) && !caps.reliable
    {
      ok := *;
      ok := ok || caps.reliable;
      image := 0;
      if ok {
        FreshExists(images.Keys, 0);
        image :| image >= 0 && image !in images.Keys;
        images := images[image := source];
      }
    }

    /** eglExportDMABUFImageQueryMESA */
    method QueryBuffer(image: int) returns (ok: bool, format: uint32, numPlanes: int32, modifier: uint64)
      requires image in images && images[image].FromTexture?
      modifies this`reports
      ensures ok ==> reports == old(reports) + [Queried(format, numPlanes, modifier)]
      ensures !ok ==> reports == old(reports)
      ensures caps.reliable ==> ok && 1 <= numPlanes <= 4
    {
      ok, format, numPlanes, modifier := *, *, *, *;
      if caps.reliable {
        ok, numPlanes := true, if 1 <= numPlanes <= 4 then numPlanes else 1;
      }
      if ok {
        reports := reports + [Queried(format, numPlanes, modifier)];
      }
    }

    /** The arrays that eglExportDMABUFImageMESA fills besides the descriptors. */
    method LayOut(image: int, numPlanes: nat) returns (ok: bool, strides: seq<uint32>, offsets: seq<uint32>)
      requires image in images && images[image].FromTexture?
      modifies this`reports
      ensures ok ==> |strides| == |offsets| == numPlanes && reports == old(reports) + [Laid(strides, offsets)]
      ensures !ok ==> reports == old(reports) && !caps.reliable
    {
      ok := *;
      ok := ok || caps.reliable;
      strides, offsets := [], [];
      if ok {
        for i := 0 to numPlanes
          invariant |strides| == |offsets| == i
        {
          var stride: uint32, offset: uint32 := *, *;
          strides, offsets := strides + [stride], offsets + [offset];
        }
        reports := reports + [Laid(strides, offsets)];
      }
    }

    /** An image may be destroyed only while it is live, so never twice. */
    method DestroyImage(image: int)
      requires image in images
      modifies this`images
      ensures images == old(images) - {image}
    {
      images := images - {image};
    }
  }
}
