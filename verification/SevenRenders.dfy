/** The bound on answered renders is reached: a run of a daemon that answers seven of them. */
module SevenRenders {
  import opened CTypes
  import opened Wrappers
  import opened Protocol
  import opened Kernel
  import opened Gpu
  import opened Framebuffer
  import opened Kawase
  import opened PoolRuns
  import opened BlurContext
  import opened Config
  import opened DaemonState
  import opened DaemonRuns
  import opened DaemonRenders
  import opened DaemonLimits
  import Dmabuf
  import PresetTable

  /** A blur of one pixel in one pass. */
  const PIXEL := Job(1, 1, BUILTIN.(numPasses := 1))

  function Pixel(texture: nat): Buffer {
    Buffer(texture, 1, 1)
  }

  /**
   The next blur: texture 1 is the level, and two more stay acquired, of which the second shows the
   result. What the other two hold plays no part.
   */
  ghost function Grow(p: View, blurs: nat, picture: Image): View {
    var current, result := 2 * blurs + 2, Result(blurs);
    View(p.slots + {Pixel(1), Pixel(current), Pixel(result)},
         p.owned + {1, current, result}, p.busy + {current, result},
         p.memory[1 := Unwritten][current := Unwritten][result := picture],
         p.draws + Passes(result + 1, current, result), p.caps)
  }

  /** Down into the level, up into the full-size buffer, and the finish. */
  ghost function Passes(input: nat, current: nat, result: nat): seq<Draw> {
    [Draw(1, input), Draw(current, 1), Draw(result, current)]
  }

  function Result(blurs: nat): nat {
    2 * blurs + 3
  }

  /** The pool of a new context whose driver never fails. */
  const EMPTY_POOL := View({}, {}, {}, map[], [], Capabilities(true, true, true))

  /** So many blurs leave only textures below the next one. */
  ghost predicate Below(p: View, blurs: nat) {
    && p.busy <= p.owned == p.memory.Keys && p.caps == Capabilities(true, true, true)
    && (if blurs == 0 then p.slots == {} && p.owned == {} else Pixel(1) in p.slots && 1 in p.owned)
    && (forall b | b in p.slots :: 1 <= b.texture < 2 * blurs + 2)
    && (forall t | t in p.owned :: 1 <= t < 2 * blurs + 2)
    && (forall t | t in p.busy :: 2 <= t < 2 * blurs + 2)
  }

  ghost predicate Counted(p: View, blurs: nat) {
    |p.slots| == |p.owned| == (if blurs == 0 then 0 else 2 * blurs + 1) && |p.busy| == 2 * blurs
  }

  lemma AddTwo<T>(s: set<T>, a: T, b: T)
    requires a !in s && b !in s && a != b
    ensures |s + {a, b}| == |s| + 2
  {
    assert s + {a, b} == s + {a} + {b};
  }

  lemma GrowBelow(p: View, blurs: nat, picture: Image)
    requires Below(p, blurs)
    ensures Below(Grow(p, blurs, picture), blurs + 1) == true
  {
    var q, current, result, next := Grow(p, blurs, picture), 2 * blurs + 2, Result(blurs), blurs + 1;
    assert q.memory.Keys == p.memory.Keys + {1, current, result} == q.owned;
    assert 2 * next + 2 == current + 2;
    assert forall b | b in q.slots :: 1 <= b.texture < 2 * next + 2;
    assert forall t | t in q.owned :: 1 <= t < 2 * next + 2;
    assert forall t | t in q.busy :: 2 <= t < 2 * next + 2;
  }

  /** A set that has its first element from the first blur on, and gains two more with every one. */
  lemma GainsTwo<T>(s: set<T>, first: T, a: T, b: T, blurs: nat)
    requires a !in s && b !in s && a != b && first != a && first != b
    requires if blurs == 0 then s == {} else first in s && |s| == 2 * blurs + 1
    ensures |s + {first, a, b}| == 2 * (blurs + 1) + 1
  {
    var with := s + {first};
    if blurs > 0 {
      assert with == s;
    }
    assert s + {first, a, b} == with + {a, b};
    AddTwo(with, a, b);
  }

  lemma SlotsGrow(p: View, blurs: nat, picture: Image)
    requires Below(p, blurs) && Counted(p, blurs)
    ensures |Grow(p, blurs, picture).slots| == 2 * (blurs + 1) + 1
  {
    GainsTwo(p.slots, Pixel(1), Pixel(2 * blurs + 2), Pixel(Result(blurs)), blurs);
  }

  lemma OwnedGrow(p: View, blurs: nat)
    requires Below(p, blurs) && Counted(p, blurs)
    ensures |p.owned + {1, 2 * blurs + 2, Result(blurs)}| == 2 * (blurs + 1) + 1
  {
    GainsTwo(p.owned, 1, 2 * blurs + 2, Result(blurs), blurs);
  }

  lemma BusyGrow(p: View, blurs: nat, picture: Image)
    requires Below(p, blurs) && Counted(p, blurs)
    ensures |Grow(p, blurs, picture).busy| == 2 * (blurs + 1)
  {
    AddTwo(p.busy, 2 * blurs + 2, Result(blurs));
  }

  lemma GrowKeeps(p: View, blurs: nat, picture: Image)
    requires Below(p, blurs) == true && Counted(p, blurs) == true
    ensures Below(Grow(p, blurs, picture), blurs + 1) == true && Counted(Grow(p, blurs, picture), blurs + 1) == true
  {
    GrowBelow(p, blurs, picture);
    SlotsGrow(p, blurs, picture);
    OwnedGrow(p, blurs);
    BusyGrow(p, blurs, picture);
  }

  /** The next blur leaves alone what is in use, and uses new textures besides the level. */
  ghost predicate Apart(p: View, q: View, result: nat) {
    && p.owned <= q.owned && p.busy <= q.busy <= q.owned && result in q.busy - p.busy
    && (forall t | t in p.busy :: Sample(q.memory, t) == Sample(p.memory, t))
    && p.draws <= q.draws
    && (forall i | |p.draws| <= i < |q.draws| ::
          q.draws[i].target !in p.busy && q.draws[i].source != q.draws[i].target)
  }

  ghost predicate Roomy(p: View, q: View) {
    |q.owned| <= POOL_SIZE && |q.busy| == |p.busy| + 2 && |p.busy| + 3 <= POOL_SIZE
  }

  lemma GrowIsApart(p: View, blurs: nat, picture: Image)
    requires Below(p, blurs)
    ensures Apart(p, Grow(p, blurs, picture), Result(blurs)) == true
  {
  }

  lemma GrowIsRoomy(p: View, blurs: nat, picture: Image)
    requires Below(p, blurs) == true && Counted(p, blurs) == true && blurs < 7
    ensures SlotsStep(p, Call(Done, Result(blurs), PIXEL), Grow(p, blurs, picture)) == true
    ensures Roomy(p, Grow(p, blurs, picture)) == true
  {
    GrowKeeps(p, blurs, picture);
  }

  lemma ApartIsCall(p: View, q: View, result: nat)
    requires Apart(p, q, result) && Roomy(p, q) && SlotsStep(p, Call(Done, result, PIXEL), q) == true
    ensures CallStep(p, Call(Done, result, PIXEL), q)
  {
  }

  lemma GrowIsCall(p: View, blurs: nat, picture: Image)
    requires Below(p, blurs) == true && Counted(p, blurs) == true && blurs < 7
    ensures CallStep(p, Call(Done, Result(blurs), PIXEL), Grow(p, blurs, picture)) == true
  {
    GrowIsRoomy(p, blurs, picture);
    GrowIsApart(p, blurs, picture);
    ApartIsCall(p, Grow(p, blurs, picture), Result(blurs));
  }

  lemma PixelNeeds(width: int, height: int)
    ensures Need(PIXEL, 0, width, height) == if width == 1 && height == 1 then 1 else 0
  {
    var level := 0;
    assert LevelSize(1, level) == 1;
    assert Need(PIXEL, level + 1, width, height) == 0;
  }

  lemma PixelWaits(p: View, blurs: nat)
    requires Below(p, blurs)
    ensures Waiting(p.slots, p.busy, PIXEL, 0) <==> blurs > 0
  {
    if blurs > 0 {
      forall width, height
        ensures |Free(p.slots, p.busy, width, height)| >= Need(PIXEL, 0, width, height)
      {
        PixelNeeds(width, height);
        if width == 1 && height == 1 {
          var free := Free(p.slots, p.busy, 1, 1);
          assert Pixel(1) in free && free == {Pixel(1)} + (free - {Pixel(1)});
        }
      }
    } else {
      PixelNeeds(1, 1);
      assert Free(p.slots, p.busy, 1, 1) == {};
    }
  }

  lemma GrowIsLive(p: View, blurs: nat, picture: Image)
    requires Below(p, blurs) && Counted(p, blurs)
    ensures LiveStep(p, Call(Done, Result(blurs), PIXEL), Grow(p, blurs, picture)) == true
  {
    GrowKeeps(p, blurs, picture);
    PixelWaits(p, blurs);
    PixelWaits(Grow(p, blurs, picture), blurs + 1);
  }

  /** No texture is outside the pool, and the result shows the picture. */
  lemma ThatIsAll(p: View, blurs: nat, picture: Image)
    requires p.owned == p.memory.Keys
    ensures var q := Grow(p, blurs, picture);
            q.memory.Keys - q.owned == p.memory.Keys - p.owned && Sample(q.memory, Result(blurs)) == picture
  {
    assert Grow(p, blurs, picture).memory.Keys == p.memory.Keys + {1, 2 * blurs + 2, Result(blurs)};
  }

  lemma OneBlur(p: View, blurs: nat, image: Image)
    requires Below(p, blurs) == true && Counted(p, blurs) == true && blurs < 7
    ensures ApplyStep(p, Call(Done, Result(blurs), PIXEL), image, Grow(p, blurs, PIXEL.Pipeline(image))) == true
  {
    var picture := PIXEL.Pipeline(image);
    GrowIsCall(p, blurs, picture);
    GrowIsLive(p, blurs, picture);
    ThatIsAll(p, blurs, picture);
  }

  // ----- the run -----

  const ASKED := Request(PROTOCOL_VERSION, OP_RENDER_BLUR, 1, 1, 1, 0, 0, 0, 0, [], 0, BUILTIN.(numPasses := 1))

  ghost function Seen(input: int32): Image {
    ImageOf(InputAttribs(ASKED, input))
  }

  ghost function Picture(input: int32): Image {
    PIXEL.Pipeline(Seen(input))
  }

  function Output(fd: int32): Dmabuf.Attribs {
    var none := Dmabuf.Plane(0, 0, 0);
    Dmabuf.Attribs(1, 1, 0, 0, 1, [Dmabuf.Plane(fd, 0, 0), none, none, none])
  }

  ghost function RenderOn(p: View, fd: int32, input: int32, output: int32, blurs: nat): Event {
    Data(fd, Message(Some(ASKED), input, -1), true,
         Blur(Some(Output(output)), Call(Done, Result(blurs), PIXEL), Grow(p, blurs, Picture(input))))
  }

  /** One client with its node. */
  ghost predicate Serving(s: State, fd: int32) {
    |s.clients| == MAX_CLIENTS && s.clients[0] == Slot(fd, 1, true) && Owns(s, 1, 1) && s.hasContext
  }

  /** The same, after so many renders. */
  ghost predicate Rendering(s: State, fd: int32, input: int32, output: int32, blurs: nat) {
    && Serving(s, fd) && |s.settings.presets| == PresetTable.BUCKETS
    && Below(s.pool, blurs) && Counted(s.pool, blurs)
    && input >= 0 && output >= 0 && input != output && input !in s.open && output !in s.open
  }

  lemma OneBlurs(s: State, fd: int32, input: int32, output: int32, blurs: nat)
    requires Rendering(s, fd, input, output, blurs) && blurs < 7
    ensures Blurs(s, ASKED, input, s.open + Fds([input, -1]), RenderOn(s.pool, fd, input, output, blurs).blur) == true
  {
    assert Dmabuf.HeldFds(Output(output)) == [output];
    OneBlur(s.pool, blurs, Seen(input));
  }

  lemma OneIsPossible(s: State, fd: int32, input: int32, output: int32, blurs: nat)
    requires Rendering(s, fd, input, output, blurs) && blurs < 7
    ensures Possible(s, RenderOn(s.pool, fd, input, output, blurs)) == true
  {
    assert SlotOf(s.clients, fd) == 0;
    assert Carried(RenderOn(s.pool, fd, input, output, blurs).message) == [input, -1];
    OneBlurs(s, fd, input, output, blurs);
  }

  lemma OneRenders(s: State, fd: int32, input: int32, output: int32, blurs: nat)
    requires Rendering(s, fd, input, output, blurs)
    ensures Renders(s, RenderOn(s.pool, fd, input, output, blurs))
  {
    assert SlotOf(s.clients, fd) == 0;
  }

  lemma RenderLeaves(s: State, fd: int32, input: int32, output: int32, blurs: nat)
    requires Serving(s, fd) && input >= 0
    ensures var t := Step(s, RenderOn(s.pool, fd, input, output, blurs));
            && t.clients == s.clients && t.nodes == s.nodes && t.hasContext && t.settings == s.settings
            && t.pool == Grow(s.pool, blurs, Picture(input))
  {
    assert SlotOf(s.clients, fd) == 0;
  }

  lemma RenderCloses(s: State, fd: int32, input: int32, output: int32, blurs: nat)
    requires Serving(s, fd) && input >= 0 && output >= 0 && input !in s.open && output !in s.open
    ensures Step(s, RenderOn(s.pool, fd, input, output, blurs)).open == s.open
  {
    assert SlotOf(s.clients, fd) == 0;
    assert Dmabuf.HeldFds(Output(output)) == [output] && Fds([-1]) == {};
  }

  lemma OneRendered(s: State, fd: int32, input: int32, output: int32, blurs: nat)
    requires Rendering(s, fd, input, output, blurs)
    ensures Rendering(Step(s, RenderOn(s.pool, fd, input, output, blurs)), fd, input, output, blurs + 1) == true
  {
    RenderLeaves(s, fd, input, output, blurs);
    RenderCloses(s, fd, input, output, blurs);
    GrowKeeps(s.pool, blurs, Picture(input));
  }

  /** A run that has answered so many renders. */
  ghost predicate Brings(s: State, evs: seq<Event>, fd: int32, input: int32, output: int32, blurs: nat) {
    Feasible(s, evs) && RenderCount(s, evs) == blurs && Rendering(After(s, evs), fd, input, output, blurs)
  }

  lemma OneRenderMore(s: State, evs: seq<Event>, fd: int32, input: int32, output: int32, blurs: nat)
    returns (all: seq<Event>)
    requires Brings(s, evs, fd, input, output, blurs) && blurs < 7
    ensures Brings(s, all, fd, input, output, blurs + 1) == true
  {
    var ev := RenderOn(After(s, evs).pool, fd, input, output, blurs);
    OneIsPossible(After(s, evs), fd, input, output, blurs);
    OneRenders(After(s, evs), fd, input, output, blurs);
    OneRendered(After(s, evs), fd, input, output, blurs);
    Append(s, evs, ev);
    assert (evs + [ev])[..|evs|] == evs;
    all := evs + [ev];
  }

  lemma {:induction false} SoManyRenders(s: State, evs: seq<Event>, fd: int32, input: int32, output: int32,
      blurs: nat)
    returns (all: seq<Event>)
    requires Brings(s, evs, fd, input, output, 0) == true && blurs <= 7
    ensures Brings(s, all, fd, input, output, blurs) == true
  {
    all := evs;
    if blurs > 0 {
      all := SoManyRenders(s, evs, fd, input, output, blurs - 1);
      all := OneRenderMore(s, all, fd, input, output, blurs - 1);
    }
  }

  lemma OneNode(s: State, fd: int32, input: int32, output: int32)
    requires Lonely(s, fd, 1) && s.hasContext && |s.settings.presets| == PresetTable.BUCKETS
    requires s.pool == EMPTY_POOL && input >= 0 && output >= 0 && input != output
    requires input !in s.open && output !in s.open
    ensures Possible(s, CreateOn(fd)) && !Renders(s, CreateOn(fd))
    ensures Rendering(Step(s, CreateOn(fd)), fd, input, output, 0)
  {
    assert SlotOf(s.clients, fd) == 0;
    assert Fds([-1]) == {};
  }

  /** From a start with an empty pool and a driver that never fails there is a run that answers seven renders. */
  lemma SevenRendersHappen(base: set<int32>, settings: Settings, granted: seq<bool>, fd: int32, input: int32,
      output: int32)
    returns (evs: seq<Event>)
    requires |settings.presets| == PresetTable.BUCKETS
    requires fd >= 0 && input >= 0 && output >= 0 && fd != input && fd != output && input != output
    requires fd !in base && input !in base && output !in base
    ensures var s := Started(base, settings, true, EMPTY_POOL, granted);
            Feasible(s, evs) && RenderCount(s, evs) == 7
  {
    var s := Started(base, settings, true, EMPTY_POOL, granted);
    evs := FirstClient(s, fd);
    OneNode(After(s, evs), fd, input, output);
    Append(s, evs, CreateOn(fd));
    assert (evs + [CreateOn(fd)])[..|evs|] == evs;
    evs := SoManyRenders(s, evs + [CreateOn(fd)], fd, input, output, 7);
  }
}
