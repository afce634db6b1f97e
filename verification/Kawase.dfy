/**
 The dual Kawase blur of libwlblur/src/blur_kawase.c. `Pipeline` is the pure nested blur the
 algorithm is meant to compute; `Renderer.Blur` is the code, which downsamples into pooled
 buffers and then upsamples back into the very same buffers.

 Here and in other modules a clause `P(x) == true` says what `P(x)` says: in this form the verifier
 takes the predicate as a whole where it would otherwise split it into its conjuncts.
 */
module Kawase {
  import opened BlurParams
  import opened Gpu
  import opened Framebuffer
  import opened Layers
  import opened Wrappers

  const MAX_PASSES := 8

  // ----- sizes of the pyramid -----

  function Half(size: int): int {
    if size / 2 < 1 then 1 else size / 2
  }

  /** The size at a level: halved once more per level, never below one pixel. */
  function LevelSize(size: int, level: nat): int {
    if level == 0 then Half(size) else Half(LevelSize(size, level - 1))
  }

  /** size >> n, for sizes that are not negative */
  function ShiftRight(size: int, n: nat): int
    requires size >= 0
  {
    size / Pow2(n)
  }

  /** Shifting by one more bit is one more division by two. */
  lemma ShiftOnce(size: int, n: nat)
    requires size >= 0
    ensures ShiftRight(size, n + 1) == ShiftRight(size, n) / 2
  {
    var p, q := Pow2(n), ShiftRight(size, n + 1);
    var r := size - q * (2 * p);
    assert 0 <= r < 2 * p;
    assert size == (2 * q) * p + r;
    QuotientIs(size, p, if r < p then 2 * q else 2 * q + 1, if r < p then r else r - p);
  }

  lemma QuotientIs(size: int, divisor: int, quotient: int, rest: int)
    requires divisor > 0 && 0 <= rest < divisor && size == quotient * divisor + rest
    ensures size / divisor == quotient
  {
    var k, m := size / divisor - quotient, size % divisor;
    assert k * divisor == rest - m;
    if k >= 1 {
      AtLeastOnce(k, divisor);
    } else if k <= -1 {
      AtLeastOnce(-k, divisor);
    }
  }

  lemma AtLeastOnce(k: int, divisor: int)
    requires k >= 1 && divisor > 0
    ensures k * divisor >= divisor
  {
  }

  /** What the code computes: one shift by level + 1, then a clamp. */
  function ClampedShift(size: int, level: nat): (r: int)
    requires size > 0
    ensures r == LevelSize(size, level)
  {
    ShiftIsHalving(size, level);
    var shifted := ShiftRight(size, level + 1);
    if shifted < 1 then 1 else shifted
  }

  lemma {:induction false} ShiftIsHalving(size: int, level: nat)
    requires size > 0
    ensures LevelSize(size, level) == if ShiftRight(size, level + 1) < 1 then 1 else ShiftRight(size, level + 1)
  {
    ShiftOnce(size, level);
    if level == 0 {
      assert ShiftRight(size, 0) == size;
    } else {
      ShiftIsHalving(size, level - 1);
    }
  }

  lemma {:induction false} LevelsShrink(size: int, level: nat, deeper: nat)
    requires size > 0 && level <= deeper
    ensures 1 <= LevelSize(size, deeper) <= LevelSize(size, level) <= size
    decreases deeper
  {
    if level < deeper {
      LevelsShrink(size, level, deeper - 1);
    } else if level > 0 {
      LevelsShrink(size, level - 1, level - 1);
    }
  }

  function PyramidPixels(width: int, height: int, levels: nat): int {
    if levels == 0 then 0
    else PyramidPixels(width, height, levels - 1) + LevelSize(width, levels - 1) * LevelSize(height, levels - 1)
  }

  lemma Wider(narrow: int, wide: int, height: int)
    requires narrow <= wide && height >= 0
    ensures narrow * height <= wide * height
  {
  }

  lemma HalfArea(width: int, height: int)
    requires width >= 1 && height >= 1
    ensures 2 * (Half(width) * Half(height)) <= width * height + 1
  {
    var w, h := Half(width), Half(height);
    if width >= 2 {
      Wider(2 * w, width, h);
      Wider(h, height, width);
      assert 2 * (w * h) == (2 * w) * h;
    } else {
      assert w == 1 && width == 1;
    }
  }

  /** All levels together hold no more pixels than the image, but for one per level. */
  lemma {:induction false} PyramidFitsImage(width: int, height: int, levels: nat)
    requires width > 0 && height > 0
    ensures PyramidPixels(width, height, levels) <= width * height + levels
    ensures levels > 0 ==>
              PyramidPixels(width, height, levels) + LevelSize(width, levels - 1) * LevelSize(height, levels - 1)
              <= width * height + levels
  {
    if levels == 1 {
      HalfArea(width, height);
    } else if levels > 1 {
      PyramidFitsImage(width, height, levels - 1);
      LevelsShrink(width, levels - 2, levels - 2);
      LevelsShrink(height, levels - 2, levels - 2);
      HalfArea(LevelSize(width, levels - 2), LevelSize(height, levels - 2));
    }
    if levels > 0 {
      LevelsShrink(width, levels - 1, levels - 1);
      LevelsShrink(height, levels - 1, levels - 1);
      assert LevelSize(width, levels - 1) * LevelSize(height, levels - 1) >= 0;
    }
  }

  /** The size an upsample pass renders to: the level above, or the full size. */
  function AboveSize(size: int, level: nat): int {
    if level == 0 then size else LevelSize(size, level - 1)
  }

  /** The radius uniform of a pass. */
  function PassRadius(radius: real, pass: nat): real {
    radius + pass as real
  }

  // ----- the pure pipeline -----

  datatype Job = Job(width: int, height: int, params: Params) {
    ghost predicate Valid() {
      width > 0 && height > 0 && LibraryValid(params)
    }

    ghost function Down(level: nat, image: Image): Image
      requires Valid()
    {
      Shaded(Downsample(LevelSize(width, level), LevelSize(height, level), PassRadius(params.radius, level)), image)
    }

    ghost function Up(level: nat, image: Image): Image
      requires Valid()
    {
      Shaded(Upsample(AboveSize(width, level), AboveSize(height, level), PassRadius(params.radius, level)), image)
    }

    /** Up_level(... Up_n-1(Down_n-1(... Down_level(image)))) with n the number of passes */
    ghost function Nested(level: nat, image: Image): Image
      requires Valid() && level <= params.numPasses
      decreases params.numPasses - level
    {
      if level == params.numPasses then image
      else Up(level, Nested(level + 1, Down(level, image)))
    }

    /** The result of the first `passes` downsample passes. */
    ghost function Downs(passes: nat, image: Image): Image
      requires Valid()
    {
      if passes == 0 then image else Down(passes - 1, Downs(passes - 1, image))
    }

    ghost function Finished(image: Image): Image {
      Shaded(Finish(width, height, params.brightness, params.contrast, params.saturation, params.noise), image)
    }

    ghost function Pipeline(image: Image): Image
      requires Valid()
    {
      Finished(Nested(0, image))
    }
  }

  // ----- what the pipeline draws -----

  /** The sizes the passes render to. */
  lemma LevelIsScaled(size: int, level: nat)
    requires size > 0
    ensures LevelSize(size, level) == Scaled(size, level + 1) && AboveSize(size, level) == Scaled(size, level)
  {
    ShiftIsHalving(size, level);
    if level > 0 {
      ShiftIsHalving(size, level - 1);
    }
  }

  lemma PassOfLevel(job: Job, level: nat, image: Image)
    requires job.Valid() && level < job.params.numPasses
    ensures LastPass(job.Up(level, image)) == Some(Pass(job.width, job.height, job.params, level + 1))
    ensures LastPass(job.Down(level, image))
            == Some(Pass(job.width, job.height, job.params, 2 * job.params.numPasses - level))
  {
    LevelIsScaled(job.width, level);
    LevelIsScaled(job.height, level);
  }

  lemma {:induction false} NestedSource(job: Job, level: nat, image: Image)
    requires job.Valid() && level <= job.params.numPasses
    ensures Under(job.Nested(level, image), 2 * (job.params.numPasses - level)) == image
    decreases job.params.numPasses - level
  {
    if level < job.params.numPasses {
      var down, rest := job.Down(level, image), 2 * (job.params.numPasses - level - 1);
      NestedSource(job, level + 1, down);
      assert Under(down, 1) == image;
      UnderUnder(job.Nested(level + 1, down), rest, 1);
    }
  }

  /** The passes of the levels from this one down, counted from the outside. */
  lemma {:induction false} NestedPass(job: Job, level: nat, image: Image, i: nat)
    requires job.Valid() && level <= job.params.numPasses && i < 2 * (job.params.numPasses - level)
    ensures LastPass(Under(job.Nested(level, image), i))
            == Some(Pass(job.width, job.height, job.params, level + 1 + i))
    decreases job.params.numPasses - level
  {
    var down := job.Down(level, image);
    var inner := job.Nested(level + 1, down);
    if i == 0 {
      PassOfLevel(job, level, inner);
    } else if i == 2 * (job.params.numPasses - level) - 1 {
      NestedSource(job, level + 1, down);
      PassOfLevel(job, level, image);
    } else {
      NestedPass(job, level + 1, down, i - 1);
    }
  }

  /** The pipeline is the blur written down pass by pass: sizes, radii and order. */
  lemma PipelineIsBlurred(job: Job, image: Image)
    requires job.Valid()
    ensures Blurred(job.width, job.height, job.params, image, job.Pipeline(image))
  {
    var result, inner := job.Pipeline(image), job.Nested(0, image);
    NestedSource(job, 0, image);
    forall i: nat | i <= 2 * job.params.numPasses
      ensures LastPass(Under(result, i)) == Some(Pass(job.width, job.height, job.params, i))
    {
      if i > 0 {
        NestedPass(job, 0, image, i - 1);
        assert Under(result, i) == Under(inner, i - 1);
      }
    }
  }

  // ----- what one blur call does to the pool, as seen from outside -----

  /** The six ways out of a blur call, in source order. */
  datatype Exit = Rejected | NoLevel | NoUpTarget | NoFinal | GlError | Done

  /** Framebuffers still acquired after each exit. */
  function Retained(exit: Exit): nat {
    match exit
    case NoFinal => 1
    case GlError => 1
    case Done => 2
    case _ => 0
  }

  /** The pool's slots and their textures, the acquired ones among them, texture contents and the draws so far. */
  datatype View = View(
    slots: set<Buffer>, owned: set<nat>, busy: set<nat>, memory: map<nat, Image>, draws: seq<Draw>,
    caps: Capabilities)

  /** One call: what for, how it ended, and the texture it returned. */
  datatype Call = Call(exit: Exit, texture: nat, job: Job) {
    function Passes(): int {
      job.params.numPasses
    }

    function Levels(): nat {
      if Passes() < 0 then 0 else Passes()
    }
  }

  /**
   From `pre` to `post` the pool only grows, other textures come and go with nobody, contents
   change at `targets` alone, and every new draw goes there and samples another texture.
   */
  ghost predicate Painted(pre: View, post: View, targets: set<nat>) {
    && pre.owned <= post.owned <= post.memory.Keys
    && post.memory.Keys - post.owned == pre.memory.Keys - pre.owned
    && (forall t | t in pre.memory && t !in targets :: t in post.memory && post.memory[t] == pre.memory[t])
    && pre.draws <= post.draws
    && (forall i | |pre.draws| <= i < |post.draws| ::
          post.draws[i].target in targets && post.draws[i].source != post.draws[i].target)
  }

  lemma PaintedThen(a: View, b: View, c: View, first: set<nat>, second: set<nat>, all: set<nat>)
    requires Painted(a, b, first) && Painted(b, c, second)
    requires first <= all && second <= all && a.memory.Keys <= b.memory.Keys
    ensures Painted(a, c, all)
  {
  }

  /** What is acquired plays no part. */
  lemma StillPainted(pre: View, post: View, later: View)
    requires Painted(pre, post, {}) && later == post.(busy := later.busy)
    ensures Painted(pre, later, {}) == true
  {
  }

  /** Only textures that nobody held before the call may have changed. */
  ghost predicate Frame(pre: View, post: View) {
    Painted(pre, post, post.owned - pre.busy)
  }

  lemma FrameThen(a: View, b: View, c: View)
    requires Frame(a, b) && Frame(b, c)
    requires a.busy <= b.busy && a.owned <= a.memory.Keys
    ensures Frame(a, c)
  {
    PaintedThen(a, b, c, b.owned - a.busy, c.owned - b.busy, c.owned - a.busy);
  }

  /** The whole outside effect of one call. */
  ghost predicate BlurStep(pre: View, call: Call, post: View) {
    && Frame(pre, post)
    && pre.busy <= post.busy <= post.owned && |post.owned| <= POOL_SIZE
    && |post.busy| == |pre.busy| + Retained(call.exit)
    && (call.exit.Done? <==> call.texture != 0)
    && (call.exit.Done? ==>
          && 1 <= call.Passes() <= MAX_PASSES
          && call.texture in post.busy - pre.busy
          && |pre.busy| + call.Passes() + 2 <= POOL_SIZE
          && |post.draws| == |pre.draws| + 2 * call.Passes() + 1)
  }

  /** Slots are only added, and a success returns one of the size asked for. */
  ghost predicate SlotsStep(pre: View, call: Call, post: View) {
    && pre.slots <= post.slots && |post.slots| <= POOL_SIZE && post.caps == pre.caps
    && (call.exit.Done? ==> Buffer(call.texture, call.job.width, call.job.height) in post.slots)
  }

  /** Where the acquisitions leave the accounts: `current` is never given back. */
  lemma Accounts(pre: View, full: View, post: View, levels: set<nat>, current: nat, call: Call)
    requires Frame(pre, post) && post.busy <= post.owned && |post.owned| <= POOL_SIZE
    requires pre.busy <= post.owned && full.busy <= post.owned
    requires levels !! pre.busy && |levels| == call.Passes() && 1 <= call.Passes() <= MAX_PASSES
    requires full.busy == pre.busy + levels + {current} && current !in pre.busy + levels
    requires call.exit.NoFinal? || call.exit.GlError? || call.exit.Done?
    requires !call.exit.Done? ==> call.texture == 0 && post.busy == full.busy - levels
    requires call.exit.Done? ==>
               && call.texture != 0 && call.texture in post.owned && call.texture !in full.busy
               && post.busy == full.busy - levels + {call.texture}
               && |post.draws| == |pre.draws| + 2 * call.Passes() + 1
    ensures BlurStep(pre, call, post)
  {
    RetainedCount(pre.busy, levels, current, call, post.busy);
    if call.exit.Done? {
      Capacity(pre.busy, levels, current, call.texture, post.owned);
    }
  }

  /** The levels come and go; what is left is the full-size buffer, and the result of a success. */
  lemma RetainedCount(busy: set<nat>, levels: set<nat>, current: nat, call: Call, left: set<nat>)
    requires levels !! busy && current !in busy + levels
    requires call.exit.NoFinal? || call.exit.GlError? || call.exit.Done?
    requires !call.exit.Done? ==> left == busy + levels + {current} - levels
    requires call.exit.Done? ==>
               call.texture !in busy + levels + {current}
                   && left == busy + levels + {current} - levels + {call.texture}
    ensures busy <= left && |left| == |busy| + Retained(call.exit)
  {
    assert busy + levels + {current} - levels == busy + {current};
  }

  /** The exits that give everything back. */
  lemma NothingKept(pre: View, post: View, call: Call)
    requires Frame(pre, post) && post.busy == pre.busy <= post.owned && |post.owned| <= POOL_SIZE
    requires (call.exit.NoLevel? || call.exit.NoUpTarget?) && call.texture == 0
    ensures BlurStep(pre, call, post) == true
  {
  }

  lemma Capacity(busy: set<nat>, levels: set<nat>, current: nat, texture: nat, owned: set<nat>)
    requires levels !! busy && current !in busy + levels && texture !in busy + levels + {current}
    requires busy + levels + {current} + {texture} <= owned && |owned| <= POOL_SIZE
    ensures |busy| + |levels| + 2 <= POOL_SIZE
  {
    assert |busy + levels + {current} + {texture}| == |busy + levels| + 2;
    SubsetCount(busy + levels + {current} + {texture}, owned);
  }

  lemma SubsetCount(a: set<nat>, b: set<nat>)
    requires a <= b
    ensures |a| <= |b|
  {
    assert b == a + (b - a);
  }

  /** The buffers of the first levels of the pyramid: pairwise different and of the level sizes. */
  ghost predicate LevelsFrom(levels: seq<Fbo>, job: Job)
    requires job.Valid()
  {
    && DistinctTextures(levels)
    && forall i {:trigger levels[i]} | 0 <= i < |levels| ::
         levels[i].width == LevelSize(job.width, i) && levels[i].height == LevelSize(job.height, i)
  }

  ghost predicate Levels(levels: seq<Fbo>, job: Job)
    requires job.Valid()
  {
    |levels| == job.params.numPasses && LevelsFrom(levels, job)
  }

  /** At most so many new levels and two buffers more; with a reliable driver only a full pool makes a blur fail. */
  ghost predicate Growth(before: nat, exit: Exit, levels: nat, after: nat, reliable: bool) {
    && after <= before + levels + (if exit.Done? || exit.GlError? then 2 else 1)
    && (reliable && !exit.Done? ==> after == POOL_SIZE && !exit.GlError?)
  }

  // ----- buffers that wait for the next pyramid -----

  /** How many levels, from this one on, have that size. */
  ghost function Need(job: Job, level: nat, width: int, height: int): nat
    decreases job.params.numPasses - level
  {
    if level >= job.params.numPasses then 0
    else
      (if LevelSize(job.width, level) == width && LevelSize(job.height, level) == height then 1 else 0)
      + Need(job, level + 1, width, height)
  }

  ghost function Free(slots: set<Buffer>, busy: set<nat>, width: int, height: int): set<Buffer> {
    set b | b in slots && b.texture !in busy && b.width == width && b.height == height
  }

  /** Of every size there are as many free buffers as the levels from this one on need. */
  ghost predicate Waiting(slots: set<Buffer>, busy: set<nat>, job: Job, level: nat) {
    forall width, height :: |Free(slots, busy, width, height)| >= Need(job, level, width, height)
  }

  /** The texture names of the slots differ. */
  ghost predicate Named(slots: set<Buffer>) {
    forall a, b | a in slots && b in slots && a.texture == b.texture :: a == b
  }

  lemma OneWaits(slots: set<Buffer>, busy: set<nat>, job: Job, level: nat)
    requires Waiting(slots, busy, job, level) && level < job.params.numPasses
    ensures exists b :: b in Free(slots, busy, LevelSize(job.width, level), LevelSize(job.height, level))
  {
    var free := Free(slots, busy, LevelSize(job.width, level), LevelSize(job.height, level));
    assert |free| >= Need(job, level, LevelSize(job.width, level), LevelSize(job.height, level));
    if b :| b in free {
    }
  }

  /** Taking a buffer of its size for a level leaves enough for those below. */
  lemma OneTaken(slots: set<Buffer>, busy: set<nat>, b: Buffer, job: Job, level: nat)
    requires Waiting(slots, busy, job, level) && level < job.params.numPasses && Named(slots)
    requires b in Free(slots, busy, LevelSize(job.width, level), LevelSize(job.height, level))
    ensures Waiting(slots, busy + {b.texture}, job, level + 1)
  {
    forall width, height
      ensures |Free(slots, busy + {b.texture}, width, height)| >= Need(job, level + 1, width, height)
    {
      var before, after := Free(slots, busy, width, height), Free(slots, busy + {b.texture}, width, height);
      assert |before| >= Need(job, level, width, height);
      if b.width == width && b.height == height {
        assert after == before - {b};
      } else {
        assert after == before;
      }
    }
  }

  ghost function Sized(levels: seq<Buffer>, width: int, height: int): set<Buffer> {
    set b | b in levels && b.width == width && b.height == height
  }

  /** The buffers of a pyramid, from a level on, are enough for the next one. */
  lemma {:induction false} SizedIsNeed(levels: seq<Buffer>, job: Job, level: nat, width: int, height: int)
    requires level + |levels| == job.params.numPasses
    requires forall i | 0 <= i < |levels| ::
               && levels[i].width == LevelSize(job.width, level + i)
               && levels[i].height == LevelSize(job.height, level + i)
    requires forall i, j | 0 <= i < j < |levels| :: levels[i] != levels[j]
    ensures |Sized(levels, width, height)| == Need(job, level, width, height)
  {
    if levels == [] {
      assert Sized(levels, width, height) == {};
    } else {
      var first, rest := levels[0], levels[1..];
      SizedIsNeed(rest, job, level + 1, width, height);
      assert first !in rest && forall b :: b in levels <==> b == first || b in rest;
      SizedCons(levels, first, rest, width, height);
    }
  }

  lemma SizedCons(levels: seq<Buffer>, first: Buffer, rest: seq<Buffer>, width: int, height: int)
    requires first !in rest && forall b :: b in levels <==> b == first || b in rest
    ensures |Sized(levels, width, height)|
            == |Sized(rest, width, height)| + if first.width == width && first.height == height then 1 else 0
  {
    if first.width == width && first.height == height {
      assert Sized(levels, width, height) == Sized(rest, width, height) + {first};
    } else {
      assert Sized(levels, width, height) == Sized(rest, width, height);
    }
  }

  lemma AllLevelsWait(slots: set<Buffer>, busy: set<nat>, levels: seq<Buffer>, job: Job)
    requires |levels| == job.params.numPasses
    requires forall i | 0 <= i < |levels| ::
               && levels[i] in slots && levels[i].texture !in busy
               && levels[i].width == LevelSize(job.width, i) && levels[i].height == LevelSize(job.height, i)
    requires forall i, j | 0 <= i < j < |levels| :: levels[i] != levels[j]
    ensures Waiting(slots, busy, job, 0)
  {
    forall width, height
      ensures |Free(slots, busy, width, height)| >= Need(job, 0, width, height)
    {
      SizedIsNeed(levels, job, 0, width, height);
      var sized, free := Sized(levels, width, height), Free(slots, busy, width, height);
      assert free == sized + (free - sized);
    }
  }

  /** How one call makes the pool grow, and what it leaves for the next one of the same size. */
  ghost predicate LiveStep(pre: View, call: Call, post: View) {
    && Growth(|pre.slots|, call.exit, if Waiting(pre.slots, pre.busy, call.job, 0) then 0 else call.Levels(),
              |post.slots|, pre.caps.reliable)
    && (call.exit.Done? ==> Waiting(post.slots, post.busy, call.job, 0))
  }

  class Renderer {
    const pool: FboPool
    const gpu: Driver

    ghost predicate Valid()
      reads pool, pool.slots, gpu
    {
      pool.Valid() && pool.Owned() <= gpu.memory.Keys
    }

    ghost function Now(): View
      reads pool, pool.Members(), gpu
    {
      View(Buffers(pool.fbos), pool.Owned(), pool.Busy(), gpu.memory, gpu.draws, gpu.caps)
    }

    constructor (gpu: Driver)
      ensures Valid() && fresh(pool) && fresh(pool.slots) && this.gpu == gpu
      ensures pool.fbos == []
    {
      this.gpu := gpu;
      pool := new FboPool();
    }

    lemma OwnedCount()
      requires pool.Valid()
      ensures |Now().owned| <= POOL_SIZE && Now().busy <= Now().owned && 0 !in Now().owned
      ensures |Now().slots| == |pool.fbos| <= POOL_SIZE
    {
      TextureCount(pool.fbos);
      BufferCount(pool.fbos);
    }

    /** Releases every framebuffer of the list. */
    method ReleaseAll(levels: seq<Fbo>)
      requires Valid() && (forall f | f in levels :: f in pool.Members())
      modifies levels
      ensures Valid()
      ensures pool.Busy() == old(pool.Busy()) - Textures(levels)
    {
      for i := 0 to |levels|
        invariant Valid()
        invariant pool.Busy() == old(pool.Busy()) - Textures(levels[..i])
      {
        pool.Release(levels[i]);
        assert levels[..i + 1] == levels[..i] + [levels[i]];
        assert Textures(levels[..i + 1]) == Textures(levels[..i]) + {levels[i].texture};
      }
      assert levels[..|levels|] == levels;
    }

    /** Acquires one framebuffer; what the pool did to serve it no longer matters. */
    method Take(width: int, height: int) returns (f: Fbo?)
      requires Valid()
      modifies pool, pool.slots, pool.Members(), gpu`memory
      ensures Valid() && pool.Grown()
      ensures Painted(old(Now()), Now(), {}) && gpu.draws == old(gpu.draws)
      ensures f == null ==> pool.Busy() == old(pool.Busy())
      ensures f != null ==>
                && f in pool.Members() && f.width == width && f.height == height
                && f.texture !in old(pool.Busy()) && pool.Busy() == old(pool.Busy()) + {f.texture}
      ensures |pool.fbos| <= |old(pool.fbos)| + if f == null then 0 else 1
      ensures f == null && gpu.caps.reliable && width > 0 && height > 0 ==> |pool.fbos| == POOL_SIZE
      ensures old(pool.HasFree(width, height)) ==> f != null && pool.fbos == old(pool.fbos)
      ensures forall g | g in old(pool.fbos) && g != f :: g.inUse == old(g.inUse)
    {
      f := pool.Acquire(gpu, width, height);
      if f != null && f !in old(pool.fbos) {
        assert Textures(pool.fbos) == Textures(old(pool.fbos)) + {f.texture};
      }
    }

    /** A free buffer waits for every level from this one on. */
    ghost predicate Prepared(job: Job, level: nat)
      reads pool, pool.Members()
    {
      Waiting(Buffers(pool.fbos), pool.Busy(), job, level)
    }

    lemma SlotsAreNamed()
      requires pool.Valid()
      ensures Named(Buffers(pool.fbos))
    {
    }

    /** A free slot is one that can be handed out again. */
    lemma FreeIsReusable(b: Buffer, width: int, height: int)
      requires pool.Valid() && b in Free(Buffers(pool.fbos), pool.Busy(), width, height)
      ensures pool.HasFree(width, height)
    {
      var f :| f in pool.fbos && b == Buffer(f.texture, f.width, f.height);
      assert pool.Reusable(f, width, height);
    }

    /** Acquires the buffer of one level; a free one leaves those that wait for other levels alone. */
    method TakeLevel(job: Job, level: nat) returns (f: Fbo?)
      requires Valid() && job.Valid() && level < job.params.numPasses
      modifies pool, pool.slots, pool.Members(), gpu`memory
      ensures Valid() && pool.Grown()
      ensures Painted(old(Now()), Now(), {}) && gpu.draws == old(gpu.draws)
      ensures f == null ==> pool.Busy() == old(pool.Busy())
      ensures f != null ==>
                && f in pool.Members() && f.width == LevelSize(job.width, level)
                   && f.height == LevelSize(job.height, level)
                && f.texture !in old(pool.Busy()) && pool.Busy() == old(pool.Busy()) + {f.texture}
      ensures |pool.fbos| <= |old(pool.fbos)| + if f == null then 0 else 1
      ensures f == null && gpu.caps.reliable ==> |pool.fbos| == POOL_SIZE
      ensures old(Prepared(job, level)) ==>
                f != null && pool.fbos == old(pool.fbos) && Prepared(job, level + 1) == true
    {
      ghost var slots, busy := Buffers(pool.fbos), pool.Busy();
      ghost var width, height := LevelSize(job.width, level), LevelSize(job.height, level);
      LevelsShrink(job.width, level, level);
      LevelsShrink(job.height, level, level);
      SlotsAreNamed();
      ghost var prepared := Prepared(job, level);
      if prepared {
        OneWaits(slots, busy, job, level);
        ghost var b :| b in Free(slots, busy, width, height);
        FreeIsReusable(b, width, height);
      }
      f := Take(ClampedShift(job.width, level), ClampedShift(job.height, level));
      if prepared {
        OneTaken(slots, busy, Buffer(f.texture, f.width, f.height), job, level);
      }
    }

    /** The levels acquired so far, and nothing else, have been added to what was busy before. */
    ghost predicate Reserved(pre: View, levels: seq<Fbo>, job: Job)
      reads pool, pool.Members(), gpu
      requires job.Valid()
    {
      && (forall f | f in levels :: f in pool.Members()) && LevelsFrom(levels, job)
      && Painted(pre, Now(), {}) && gpu.draws == pre.draws
      && Textures(levels) !! pre.busy && pool.Busy() == pre.busy + Textures(levels)
    }

    /** One more level; if there is none, all of them are given back. */
    method AddLevel(job: Job, levels: seq<Fbo>, ghost pre: View) returns (more: seq<Fbo>, ok: bool)
      requires Valid() && job.Valid() && |levels| < job.params.numPasses && Reserved(pre, levels, job)
      modifies pool, pool.slots, pool.Members(), gpu`memory
      ensures Valid() == true && pool.Grown()
      ensures Painted(pre, Now(), {}) == true && gpu.draws == pre.draws
      ensures !ok ==> pool.Busy() == pre.busy
      ensures ok ==> |more| == |levels| + 1 && Reserved(pre, more, job) == true
      ensures |pool.fbos| <= |old(pool.fbos)| + if ok then 1 else 0
      ensures !ok && gpu.caps.reliable ==> |pool.fbos| == POOL_SIZE
      ensures old(Prepared(job, |levels|)) ==>
                ok && pool.fbos == old(pool.fbos) && Prepared(job, |levels| + 1) == true
    {
      ghost var mid := Now();
      var f := TakeLevel(job, |levels|);
      PaintedThen(pre, mid, Now(), {}, {}, {});
      more, ok := levels, f != null;
      if f == null {
        ghost var taken := Now();
        ReleaseAll(levels);
        StillPainted(pre, taken, Now());
      } else {
        OneLevelMore(levels, f, job);
        more := levels + [f];
      }
    }

    method AcquireLevels(job: Job) returns (levels: seq<Fbo>, ok: bool)
      requires Valid() && job.Valid()
      modifies pool, pool.slots, pool.Members(), gpu`memory
      ensures Valid() && pool.Grown()
      ensures Painted(old(Now()), Now(), {}) == true && gpu.draws == old(gpu.draws)
      ensures !ok ==> pool.Busy() == old(pool.Busy())
      ensures ok ==>
                && Levels(levels, job) && (forall f | f in levels :: f in pool.Members())
                && Textures(levels) !! old(pool.Busy())
                && pool.Busy() == old(pool.Busy()) + Textures(levels)
      ensures |pool.fbos| <= |old(pool.fbos)| + if ok then job.params.numPasses else job.params.numPasses - 1
      ensures !ok && gpu.caps.reliable ==> |pool.fbos| == POOL_SIZE
      ensures old(Prepared(job, 0)) ==> ok && pool.fbos == old(pool.fbos)
    {
      ghost var prepared, pre := Prepared(job, 0), Now();
      levels, ok := [], true;
      for i := 0 to job.params.numPasses
        invariant Valid() == true && pool.Grown() && |levels| == i
        invariant Reserved(pre, levels, job) == true
        invariant |pool.fbos| <= |old(pool.fbos)| + |levels|
        invariant prepared ==> pool.fbos == old(pool.fbos) && Prepared(job, |levels|) == true
      {
        levels, ok := AddLevel(job, levels, pre);
        if !ok {
          return;
        }
      }
    }

    lemma OneLevelMore(levels: seq<Fbo>, f: Fbo, job: Job)
      requires job.Valid() && LevelsFrom(levels, job) && f.texture !in Textures(levels)
      requires f.width == LevelSize(job.width, |levels|) && f.height == LevelSize(job.height, |levels|)
      requires f in pool.Members() && forall g | g in levels :: g in pool.Members()
      ensures LevelsFrom(levels + [f], job) && Textures(levels + [f]) == Textures(levels) + {f.texture}
      ensures forall g | g in levels + [f] :: g in pool.Members()
    {
      AppendTexture(levels, f);
    }

    /** One pass: bind the target, set the uniforms, bind the source, draw the quad. */
    method RunPass(target: Fbo, source: nat, shader: Shader, ghost pre: View, ghost targets: set<nat>)
      returns (current: nat)
      requires Valid() && target.texture in pool.Owned() && source in gpu.memory && source != target.texture
      requires Painted(pre, Now(), targets) && target.texture in targets
      modifies gpu`memory, gpu`draws
      ensures Valid() && Painted(pre, Now(), targets)
      ensures current == target.texture && current in gpu.memory
      ensures gpu.memory[current] == Shaded(shader, old(gpu.memory[source]))
      ensures |gpu.draws| == |old(gpu.draws)| + 1
    {
      gpu.DrawQuad(target.texture, source, shader);
      current := target.texture;
    }

    method DownsamplePasses(job: Job, levels: seq<Fbo>, input: nat) returns (current: nat)
      requires Valid() && job.Valid() && Levels(levels, job) && Textures(levels) <= pool.Owned()
      requires input in gpu.memory && input !in Textures(levels)
      modifies gpu`memory, gpu`draws
      ensures Valid() && Painted(old(Now()), Now(), Textures(levels))
      ensures |gpu.draws| == |old(gpu.draws)| + job.params.numPasses
      ensures current == levels[job.params.numPasses - 1].texture
      ensures gpu.memory[current] == job.Downs(job.params.numPasses, old(gpu.memory[input]))
    {
      ghost var pre := Now();
      current := input;
      for pass := 0 to job.params.numPasses
        invariant Valid() && Painted(pre, Now(), Textures(levels))
        invariant |gpu.draws| == |pre.draws| + pass
        invariant current == if pass == 0 then input else levels[pass - 1].texture
        invariant current in gpu.memory
        invariant gpu.memory[current] == job.Downs(pass, pre.memory[input])
      {
        var target := levels[pass];
        assert target.texture in Textures(levels);
        var shader := Downsample(target.width, target.height, PassRadius(job.params.radius, pass));
        current := RunPass(target, current, shader, pre, Textures(levels));
      }
    }

    /** The way up has reached this level: its buffer holds the pipeline from the level below on. */
    ghost predicate Climbed(job: Job, levels: seq<Fbo>, pass: nat, current: nat, image: Image)
      requires job.Valid() && Levels(levels, job) && pass < job.params.numPasses
      reads gpu
    {
      && current == levels[pass].texture && current in gpu.memory
      && gpu.memory[current] == job.Nested(pass + 1, job.Downs(pass + 1, image))
    }

    /** The upsample pass into the buffer of a level, from the level below. */
    method UpsamplePass(job: Job, levels: seq<Fbo>, level: nat, source: nat, ghost image: Image, ghost pre: View)
      returns (current: nat)
      requires Valid() && job.Valid() && Levels(levels, job) && Textures(levels) <= pool.Owned()
      requires Painted(pre, Now(), Textures(levels)) && level + 1 < job.params.numPasses
      requires Climbed(job, levels, level + 1, source, image)
      modifies gpu`memory, gpu`draws
      ensures Valid() && Painted(pre, Now(), Textures(levels)) && |gpu.draws| == |old(gpu.draws)| + 1
      ensures Climbed(job, levels, level, current, image) == true
    {
      var target := levels[level];
      assert target.texture in Textures(levels);
      var shader := Upsample(target.width, target.height, PassRadius(job.params.radius, level + 1));
      current := RunPass(target, source, shader, pre, Textures(levels));
    }

    /** The upsample passes above the last: each overwrites the buffer of the level above. */
    method UpsamplePasses(job: Job, levels: seq<Fbo>, start: nat, ghost image: Image) returns (current: nat)
      requires Valid() && job.Valid() && Levels(levels, job) && Textures(levels) <= pool.Owned()
      requires start == levels[job.params.numPasses - 1].texture && start in gpu.memory
      requires gpu.memory[start] == job.Downs(job.params.numPasses, image)
      modifies gpu`memory, gpu`draws
      ensures Valid() && Painted(old(Now()), Now(), Textures(levels))
      ensures |gpu.draws| == |old(gpu.draws)| + job.params.numPasses - 1
      ensures Climbed(job, levels, 0, current, image)
    {
      ghost var pre := Now();
      current := start;
      for level := job.params.numPasses - 1 downto 0
        invariant Valid() && Painted(pre, Now(), Textures(levels))
        invariant |gpu.draws| == |pre.draws| + job.params.numPasses - 1 - level
        invariant Climbed(job, levels, level, current, image) == true
      {
        current := UpsamplePass(job, levels, level, current, image, pre);
      }
    }

    /** A pass into a newly acquired buffer. */
    method PaintNew(width: int, height: int, shader: Shader, source: nat) returns (target: Fbo?)
      requires Valid() && source in pool.Busy()
      modifies pool, pool.slots, pool.Members(), gpu`memory, gpu`draws
      ensures Valid() && pool.Grown()
      ensures Frame(old(Now()), Now())
      ensures target == null ==> pool.Busy() == old(pool.Busy())
      ensures target != null ==>
                && target in pool.Members() && target.texture !in old(pool.Busy())
                && pool.Busy() == old(pool.Busy()) + {target.texture}
                && target.texture in gpu.memory
                && target.width == width && target.height == height
                && gpu.memory[target.texture] == Shaded(shader, old(gpu.memory[source]))
                && |gpu.draws| == |old(gpu.draws)| + 1
      ensures |pool.fbos| <= |old(pool.fbos)| + if target == null then 0 else 1
      ensures target == null && gpu.caps.reliable && width > 0 && height > 0 ==> |pool.fbos| == POOL_SIZE
    {
      ghost var pre := Now();
      target := Take(width, height);
      if target != null {
        var _ := RunPass(target, source, shader, pre, pool.Owned() - pre.busy);
      }
    }

    /** The last upsample pass, into a buffer of the full size. */
    method FullSizePass(job: Job, levels: seq<Fbo>, source: nat) returns (current: nat, ok: bool)
      requires Valid() && job.Valid() && (forall f | f in levels :: f in pool.Members())
      requires source in pool.Busy()
      modifies pool, pool.slots, pool.Members(), gpu`memory, gpu`draws
      ensures Valid() && pool.Grown()
      ensures Frame(old(Now()), Now())
      ensures !ok ==> pool.Busy() == old(pool.Busy()) - Textures(levels)
      ensures ok ==>
                && current in pool.Owned() && current !in old(pool.Busy())
                && pool.Busy() == old(pool.Busy()) + {current}
                && current in gpu.memory && gpu.memory[current] == job.Up(0, old(gpu.memory[source]))
                && |gpu.draws| == |old(gpu.draws)| + 1
      ensures |pool.fbos| <= |old(pool.fbos)| + if ok then 1 else 0
      ensures !ok && gpu.caps.reliable ==> |pool.fbos| == POOL_SIZE
    {
      var shader := Upsample(job.width, job.height, PassRadius(job.params.radius, 0));
      var target := PaintNew(job.width, job.height, shader, source);
      if target == null {
        ReleaseAll(levels);
        return 0, false;
      }
      current, ok := target.texture, true;
    }

    /** glGetError after the last draw: an error gives the result buffer back to the pool. */
    method CheckErrors(target: Fbo) returns (texture: nat, ghost exit: Exit)
      requires Valid() && target in pool.Members()
      modifies target
      ensures Valid()
      ensures exit == Done || (exit == GlError && !gpu.caps.reliable)
      ensures exit == Done ==> texture == target.texture && pool.Busy() == old(pool.Busy())
      ensures exit == GlError ==> texture == 0 && pool.Busy() == old(pool.Busy()) - {target.texture}
    {
      var glError: bool := *;
      if glError && !gpu.caps.reliable {
        pool.Release(target);
        return 0, GlError;
      }
      texture, exit := target.texture, Done;
    }

    /** Post-processing into another new buffer, release of the pyramid, and the final error check. */
    method FinishPass(job: Job, levels: seq<Fbo>, source: nat) returns (texture: nat, ghost exit: Exit)
      requires Valid() && job.Valid() && (forall f | f in levels :: f in pool.Members())
      requires source in pool.Busy() && Textures(levels) <= pool.Busy()
      modifies pool, pool.slots, pool.Members(), gpu`memory, gpu`draws
      ensures Valid() && pool.Grown()
      ensures Frame(old(Now()), Now())
      ensures exit.NoFinal? || exit.GlError? || exit.Done?
      ensures !exit.Done? ==> texture == 0 && pool.Busy() == old(pool.Busy()) - Textures(levels)
      ensures exit.Done? ==>
                && texture in pool.Owned() && texture !in old(pool.Busy())
                && pool.Busy() == old(pool.Busy()) - Textures(levels) + {texture}
                && Buffer(texture, job.width, job.height) in Buffers(pool.fbos)
                && texture in gpu.memory && gpu.memory[texture] == job.Finished(old(gpu.memory[source]))
                && |gpu.draws| == |old(gpu.draws)| + 1
      ensures |pool.fbos| <= |old(pool.fbos)| + if exit.NoFinal? then 0 else 1
      ensures exit.NoFinal? && gpu.caps.reliable ==> |pool.fbos| == POOL_SIZE
      ensures exit.GlError? ==> !gpu.caps.reliable
    {
      var p := job.params;
      var shader := Finish(job.width, job.height, p.brightness, p.contrast, p.saturation, p.noise);
      var target := PaintNew(job.width, job.height, shader, source);
      ReleaseAll(levels);
      if target == null {
        return 0, NoFinal;
      }
      assert pool.Busy() == old(pool.Busy()) - Textures(levels) + {target.texture};
      texture, exit := CheckErrors(target);
    }

    /** Down the pyramid and back up to level 0, all within the acquired buffers. */
    method DownAndUp(job: Job, levels: seq<Fbo>, input: nat) returns (current: nat)
      requires Valid() && job.Valid() && Levels(levels, job) && Textures(levels) <= pool.Owned()
      requires input in gpu.memory && input !in Textures(levels)
      modifies gpu`memory, gpu`draws
      ensures Valid() && Painted(old(Now()), Now(), Textures(levels))
      ensures |gpu.draws| == |old(gpu.draws)| + 2 * job.params.numPasses - 1
      ensures current in Textures(levels) && current in gpu.memory
      ensures gpu.memory[current] == job.Nested(1, job.Downs(1, old(gpu.memory[input])))
    {
      ghost var pre := Now();
      current := DownsamplePasses(job, levels, input);
      ghost var down := Now();
      current := UpsamplePasses(job, levels, current, pre.memory[input]);
      PaintedThen(pre, down, Now(), Textures(levels), Textures(levels), Textures(levels));
    }

    /** Everything up to the full-size pass. */
    method Pyramid(job: Job, input: nat) returns (levels: seq<Fbo>, current: nat, ok: bool)
      requires Valid() && job.Valid() && input in gpu.memory && input !in pool.Owned() - pool.Busy()
      modifies pool, pool.slots, pool.Members(), gpu`memory, gpu`draws
      ensures Valid() && pool.Grown()
      ensures Frame(old(Now()), Now())
      ensures !ok ==> pool.Busy() == old(pool.Busy())
      ensures |pool.fbos| <= |old(pool.fbos)| + if ok then job.params.numPasses else job.params.numPasses - 1
      ensures !ok && gpu.caps.reliable ==> |pool.fbos| == POOL_SIZE
      ensures old(Prepared(job, 0)) ==> ok && pool.fbos == old(pool.fbos)
      ensures ok ==>
                && Levels(levels, job)
                && (forall f | f in levels :: f in pool.Members())
                && Textures(levels) !! old(pool.Busy())
                && pool.Busy() == old(pool.Busy()) + Textures(levels)
                && current in Textures(levels) && current in gpu.memory
                && gpu.memory[current] == job.Nested(1, job.Downs(1, old(gpu.memory[input])))
                && |gpu.draws| == |old(gpu.draws)| + 2 * job.params.numPasses - 1
    {
      ghost var pre := Now();
      current := 0;
      levels, ok := AcquireLevels(job);
      if !ok {
        return;
      }
      ghost var acquired := Now();
      assert Textures(levels) <= acquired.owned - pre.busy && input !in Textures(levels);
      current := DownAndUp(job, levels, input);
      assert pool.Busy() == acquired.busy;
      PaintedThen(pre, acquired, Now(), {}, Textures(levels), acquired.owned - pre.busy);
    }

    /** The finish after a successful full-size pass; `pre` is the state before the pyramid was acquired. */
    method FinishAndAccount(job: Job, levels: seq<Fbo>, source: nat, ghost pre: View)
      returns (texture: nat, ghost exit: Exit)
      requires Valid() && job.Valid() && (forall f | f in levels :: f in pool.Members())
      requires |levels| == job.params.numPasses && DistinctTextures(levels) && Textures(levels) !! pre.busy
      requires Frame(pre, Now()) && pre.busy <= pre.owned <= pre.memory.Keys
      requires pool.Busy() == pre.busy + Textures(levels) + {source} && source !in pre.busy + Textures(levels)
      requires |gpu.draws| == |pre.draws| + 2 * job.params.numPasses
      modifies pool, pool.slots, pool.Members(), gpu`memory, gpu`draws
      ensures Valid() && pool.Grown()
      ensures exit.NoFinal? || exit.GlError? || exit.Done?
      ensures BlurStep(pre, Call(exit, texture, job), Now()) == true
      ensures exit.Done? ==>
                && gpu.memory[texture] == job.Finished(old(gpu.memory[source]))
                && Buffer(texture, job.width, job.height) in Buffers(pool.fbos)
      ensures |pool.fbos| <= |old(pool.fbos)| + if exit.NoFinal? then 0 else 1
      ensures gpu.caps.reliable && !exit.Done? ==> |pool.fbos| == POOL_SIZE && !exit.GlError?
      ensures exit.Done? ==> Textures(levels) !! pool.Busy()
    {
      ghost var full := Now();
      texture, exit := FinishPass(job, levels, source);
      FrameThen(pre, full, Now());
      OwnedCount();
      TextureCount(levels);
      Accounts(pre, full, Now(), Textures(levels), source, Call(exit, texture, job));
    }

    /** The full-size pass and the finish. */
    method UpAndFinish(job: Job, levels: seq<Fbo>, source: nat, ghost pre: View)
      returns (texture: nat, ghost exit: Exit)
      requires Valid() && job.Valid() && (forall f | f in levels :: f in pool.Members())
      requires |levels| == job.params.numPasses && DistinctTextures(levels) && Textures(levels) !! pre.busy
      requires Frame(pre, Now()) && pre.busy <= pre.owned <= pre.memory.Keys
      requires pool.Busy() == pre.busy + Textures(levels)
      requires source in pool.Busy() && |gpu.draws| == |pre.draws| + 2 * job.params.numPasses - 1
      modifies pool, pool.slots, pool.Members(), gpu`memory, gpu`draws
      ensures Valid() && pool.Grown()
      ensures !exit.Rejected? && BlurStep(pre, Call(exit, texture, job), Now()) == true
      ensures exit.Done? ==>
                && gpu.memory[texture] == job.Finished(job.Up(0, old(gpu.memory[source])))
                && Buffer(texture, job.width, job.height) in Buffers(pool.fbos)
      ensures |pool.fbos| <= |old(pool.fbos)| + if exit.Done? || exit.GlError? then 2 else 1
      ensures gpu.caps.reliable && !exit.Done? ==> |pool.fbos| == POOL_SIZE && !exit.GlError?
      ensures exit.Done? ==> Textures(levels) !! pool.Busy()
    {
      ghost var pyramid := Now();
      var current, ok := FullSizePass(job, levels, source);
      FrameThen(pre, pyramid, Now());
      if !ok {
        OwnedCount();
        assert pool.Busy() == pre.busy;
        NothingKept(pre, Now(), Call(NoUpTarget, 0, job));
        return 0, NoUpTarget;
      }
      texture, exit := FinishAndAccount(job, levels, current, pre);
    }

    /** Once released, the buffers of a pyramid wait for the next one. */
    lemma LevelsAreFree(levels: seq<Fbo>, job: Job)
      requires job.Valid() && Levels(levels, job) && forall f | f in levels :: f in pool.Members()
      requires Textures(levels) !! pool.Busy()
      ensures Prepared(job, 0)
    {
      var buffers := seq(|levels|, i requires 0 <= i < |levels| =>
                           Buffer(levels[i].texture, levels[i].width, levels[i].height));
      forall i | 0 <= i < |buffers|
        ensures buffers[i] in Buffers(pool.fbos) && buffers[i].texture !in pool.Busy()
      {
        assert levels[i] in pool.Members() && levels[i].texture in Textures(levels);
      }
      AllLevelsWait(Buffers(pool.fbos), pool.Busy(), buffers, job);
    }

    /** The blur of a validated job. */
    method Render(job: Job, input: nat) returns (texture: nat, ghost exit: Exit)
      requires Valid() && job.Valid() && input in gpu.memory && input !in pool.Owned() - pool.Busy()
      modifies pool, pool.slots, pool.Members(), gpu`memory, gpu`draws
      ensures Valid() && pool.Grown()
      ensures !exit.Rejected? && BlurStep(old(Now()), Call(exit, texture, job), Now())
      ensures exit.Done? ==>
                && gpu.memory[texture] == job.Pipeline(old(gpu.memory[input]))
                && Buffer(texture, job.width, job.height) in Buffers(pool.fbos)
      ensures Growth(|old(pool.fbos)|, exit, if old(Prepared(job, 0)) then 0 else job.params.numPasses, |pool.fbos|,
              gpu.caps.reliable)
      ensures exit.Done? ==> Prepared(job, 0)
    {
      ghost var pre := Now();
      var levels, current, ok := Pyramid(job, input);
      if !ok {
        OwnedCount();
        NothingKept(pre, Now(), Call(NoLevel, 0, job));
        return 0, NoLevel;
      }
      texture, exit := UpAndFinish(job, levels, current, pre);
      if exit.Done? {
        LevelsAreFree(levels, job);
      }
    }

    /**
     wlblur_kawase_blur. A non-zero input is a live texture other than a free pool buffer; the
     one caller passes a texture it has just imported.
     */
    method Blur(input: nat, width: int, height: int, params: Params) returns (texture: nat, ghost exit: Exit)
      requires Valid()
      requires input != 0 ==> input in gpu.memory && input !in pool.Owned() - pool.Busy()
      modifies pool, pool.slots, pool.Members(), gpu`memory, gpu`draws
      ensures Valid() && pool.Grown()
      ensures exit.Rejected? <==> input == 0 || width <= 0 || height <= 0 || !LibraryValid(params)
      ensures exit.Rejected? ==> Now() == old(Now())
      ensures BlurStep(old(Now()), Call(exit, texture, Job(width, height, params)), Now())
      ensures SlotsStep(old(Now()), Call(exit, texture, Job(width, height, params)), Now())
      ensures exit.Done? ==> gpu.memory[texture] == Job(width, height, params).Pipeline(old(gpu.memory[input]))
      ensures exit.Done? ==> Blurred(width, height, params, old(gpu.memory[input]), gpu.memory[texture]) == true
      ensures !exit.Rejected? ==>
                LiveStep(old(Now()), Call(exit, texture, Job(width, height, params)), Now()) == true
    {
      if input == 0 || width <= 0 || height <= 0 {
        OwnedCount();
        return 0, Rejected;
      }
      if !LibraryValid(params) {
        OwnedCount();
        return 0, Rejected;
      }
      OwnedCount();
      texture, exit := Render(Job(width, height, params), input);
      PipelineIsBlurred(Job(width, height, params), old(gpu.memory[input]));
      OwnedCount();
    }
  }
}
