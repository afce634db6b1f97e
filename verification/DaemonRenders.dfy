/** Rendering over whole runs: how often a daemon renders, at which sizes, and what clients get and keep. */
module DaemonRenders {
  import opened BlurParams
  import opened CTypes
  import opened Gpu
  import opened Kernel
  import opened Kawase
  import opened PoolRuns
  import opened BlurContext
  import opened Config
  import opened Protocol
  import opened DaemonState
  import opened DaemonRuns
  import PresetTable
  import Framebuffer

  // ----- how often a daemon renders -----

  /** A render request that is answered with an exported buffer. */
  ghost predicate Renders(s: State, ev: Event) {
    && ev.Data? && Dispatched(s, ev.fd, ev.message)
    && Reply(s, s.clients[SlotOf(s.clients, ev.fd)].id, ev.message.request.value, ev.message.inputFd,
             ev.memory, ev.blur).Rendered?
  }

  /** If it is one, then for at least so many passes. */
  ghost predicate Asks(s: State, ev: Event, passes: int) {
    Renders(s, ev) ==> ev.blur.call.Passes() >= passes
  }

  ghost function RenderCount(s: State, evs: seq<Event>): nat {
    if evs == [] then 0
    else RenderCount(s, evs[..|evs| - 1]) + if Renders(After(s, evs[..|evs| - 1]), evs[|evs| - 1]) then 1 else 0
  }

  /** A render takes two framebuffers; whatever else happens, the pool is left alone or blurred with. */
  lemma RenderTakesTwo(s: State, ev: Event)
    requires Possible(s, ev)
    ensures Step(s, ev).pool == s.pool || (ev.Data? && CallStep(s.pool, ev.blur.call, Step(s, ev).pool) == true)
    ensures Asks(s, ev, 1)
    ensures Renders(s, ev) ==>
              && ev.blur.call.exit.Done? && CallStep(s.pool, ev.blur.call, Step(s, ev).pool) == true
              && Blurs(s, ev.message.request.value, ev.message.inputFd, s.open + Fds(Carried(ev.message)),
                 ev.blur) == true
              && Step(s, ev).pool == ev.blur.pool
  {
    PoolStep(s, ev);
    if Renders(s, ev) {
      RenderBlurs(s, ev);
    }
  }

  lemma PoolStep(s: State, ev: Event)
    requires Possible(s, ev)
    ensures Step(s, ev).pool == s.pool || (ev.Data? && CallStep(s.pool, ev.blur.call, Step(s, ev).pool) == true)
  {
  }

  lemma RenderBlurs(s: State, ev: Event)
    requires Possible(s, ev) && Renders(s, ev)
    ensures Blurs(s, ev.message.request.value, ev.message.inputFd, s.open + Fds(Carried(ev.message)), ev.blur) == true
    ensures Step(s, ev).pool == ev.blur.pool
  {
  }

  /**
   With a driver that never fails, a render of an owned node with valid parameters and a positive size is
   answered with a blur whenever the pool has room for its levels and two more.
   */
  lemma RoomIsEnough(s: State, ev: Event, p: Params)
    requires ev.Data? && Possible(s, ev) && Dispatched(s, ev.fd, ev.message) && s.hasContext
    requires ev.message.request.value.op == 3 && ev.message.inputFd >= 0
    requires Owns(s, s.clients[SlotOf(s.clients, ev.fd)].id, ev.message.request.value.nodeId)
    requires |s.settings.presets| == PresetTable.BUCKETS && AskedFor(s, ev.message.request.value, p)
             && LibraryValid(p)
    requires ToInt32(ev.message.request.value.width) > 0 && ToInt32(ev.message.request.value.height) > 0
    requires s.pool.caps == Capabilities(true, true, true) && |s.pool.slots| + p.numPasses + 2 <= 16
    ensures Renders(s, ev)
  {
    assert RenderParams(s, ev.message.request.value) == p;
  }

  /** Each answered render costs two framebuffers for good, and needs room for its passes besides. */
  lemma {:induction false} RenderAccounting(s: State, evs: seq<Event>, passes: int)
    requires Feasible(s, evs)
    requires forall i | 0 <= i < |evs| :: Asks(After(s, evs[..i]), evs[i], passes)
    ensures |s.pool.busy| + 2 * RenderCount(s, evs) <= |After(s, evs).pool.busy|
    ensures RenderCount(s, evs) > 0 ==> |s.pool.busy| + 2 * RenderCount(s, evs) + passes <= Framebuffer.POOL_SIZE
  {
    if evs != [] {
      var init, ev := evs[..|evs| - 1], evs[|evs| - 1];
      forall i | 0 <= i < |init|
        ensures Asks(After(s, init[..i]), init[i], passes)
      {
        assert init[..i] == evs[..i] && init[i] == evs[i];
      }
      RenderAccounting(s, init, passes);
      RenderTakesTwo(After(s, init), ev);
      assert Asks(After(s, evs[..|init|]), evs[|init|], passes);
    }
  }

  lemma {:induction false} FeasiblePrefix(s: State, evs: seq<Event>, i: nat)
    requires Feasible(s, evs) && i < |evs|
    ensures Feasible(s, evs[..i]) && Possible(After(s, evs[..i]), evs[i])
  {
    if i < |evs| - 1 {
      FeasiblePrefix(s, evs[..|evs| - 1], i);
      assert evs[..|evs| - 1][..i] == evs[..i];
    }
  }

  /**
   However long it runs, whoever connects and whatever is asked for, sent along or reloaded: from
   a start with an idle pool a daemon answers at most seven render requests with a blur.
   */
  lemma AtMostSevenRenders(base: set<int32>, settings: Settings, hasContext: bool, pool: View, granted: seq<bool>,
      evs: seq<Event>)
    requires Feasible(Started(base, settings, hasContext, pool, granted), evs) && pool.busy == {}
    ensures RenderCount(Started(base, settings, hasContext, pool, granted), evs) <= 7
  {
    var s := Started(base, settings, hasContext, pool, granted);
    forall i | 0 <= i < |evs|
      ensures Asks(After(s, evs[..i]), evs[i], 1)
    {
      FeasiblePrefix(s, evs, i);
      RenderTakesTwo(After(s, evs[..i]), evs[i]);
    }
    RenderAccounting(s, evs, 1);
  }

  /** Once the pool has no room for so many passes, no run ever answers such a request again. */
  lemma {:induction false} ExhaustedForGood(s: State, evs: seq<Event>)
    requires Feasible(s, evs)
    ensures |s.pool.busy| <= |After(s, evs).pool.busy|
    ensures forall ev | Possible(After(s, evs), ev) && Renders(After(s, evs), ev) ::
              |s.pool.busy| + ev.blur.call.Passes() + 2 <= Framebuffer.POOL_SIZE
  {
    if evs != [] {
      var init := evs[..|evs| - 1];
      ExhaustedForGood(s, init);
      RenderTakesTwo(After(s, init), evs[|evs| - 1]);
    }
  }

  /** Once the pool is full, no run ever answers a request of a size that none of its framebuffers has. */
  lemma {:induction false} FullPoolFixesSizes(s: State, evs: seq<Event>)
    requires Feasible(s, evs) && |s.pool.slots| == Framebuffer.POOL_SIZE
    ensures After(s, evs).pool.slots == s.pool.slots
    ensures forall ev | Possible(After(s, evs), ev) && Renders(After(s, evs), ev) ::
              exists b | b in s.pool.slots ::
                b.width == ToInt32(ev.message.request.value.width)
                    && b.height == ToInt32(ev.message.request.value.height)
  {
    if evs != [] {
      var init, ev := evs[..|evs| - 1], evs[|evs| - 1];
      FullPoolFixesSizes(s, init);
      SlotsOnlyGrow(After(s, init), ev);
    }
    forall ev | Possible(After(s, evs), ev) && Renders(After(s, evs), ev)
      ensures exists b | b in s.pool.slots ::
                b.width == ToInt32(ev.message.request.value.width)
                    && b.height == ToInt32(ev.message.request.value.height)
    {
      SlotsOnlyGrow(After(s, evs), ev);
    }
  }

  lemma SlotsOnlyGrow(s: State, ev: Event)
    requires Possible(s, ev) && |s.pool.slots| == Framebuffer.POOL_SIZE
    ensures Step(s, ev).pool.slots == s.pool.slots
    ensures Renders(s, ev) ==>
              Framebuffer.Buffer(ev.blur.call.texture, ToInt32(ev.message.request.value.width),
                  ToInt32(ev.message.request.value.height))
              in s.pool.slots
  {
    RenderTakesTwo(s, ev);
    if Step(s, ev).pool != s.pool || Renders(s, ev) {
      SameCount(s.pool.slots, Step(s, ev).pool.slots);
    }
  }

  // ----- what clients get, and keep -----

  /** One reply for every dispatched message, in order, and none otherwise. */
  ghost function DispatchCount(s: State, evs: seq<Event>): nat {
    if evs == [] then 0
    else
      var last := evs[|evs| - 1];
      DispatchCount(s, evs[..|evs| - 1])
      + if last.Data? && Dispatched(After(s, evs[..|evs| - 1]), last.fd, last.message) then 1 else 0
  }

  lemma StepReplies(s: State, ev: Event)
    ensures Step(s, ev).sent ==
              s.sent + if ev.Data? && Dispatched(s, ev.fd, ev.message)
                       then [Sent(ev.fd, Reply(s, s.clients[SlotOf(s.clients, ev.fd)].id, ev.message.request.value,
                                               ev.message.inputFd, ev.memory, ev.blur), BufferSent(ev.blur))]
                       else []
  {
  }

  lemma {:induction false} OneReplyEach(s: State, evs: seq<Event>)
    ensures s.sent <= After(s, evs).sent
    ensures |After(s, evs).sent| == |s.sent| + DispatchCount(s, evs)
  {
    if evs != [] {
      OneReplyEach(s, evs[..|evs| - 1]);
      StepReplies(After(s, evs[..|evs| - 1]), evs[|evs| - 1]);
    }
  }

  /** What is acquired stays so, with the same contents. */
  lemma StepHolds(s: State, ev: Event, texture: nat)
    requires Possible(s, ev) && texture in s.pool.busy
    ensures texture in Step(s, ev).pool.busy
    ensures Sample(Step(s, ev).pool.memory, texture) == Sample(s.pool.memory, texture)
    ensures Renders(s, ev) ==> ev.blur.call.texture != texture
  {
    RenderTakesTwo(s, ev);
  }

  /** The blur a request asks for. */
  function JobOf(s: State, r: Request): Job
    requires |s.settings.presets| == PresetTable.BUCKETS
  {
    Job(ToInt32(r.width), ToInt32(r.height), RenderParams(s, r))
  }

  /**
   The reply to a render request, and what its buffer shows later: the blur of the buffer that came
   with the request, described by the request's own fields and drawn with the parameters it asked for.
   */
  ghost predicate Delivered(s: State, ev: Event, later: State)
    requires ev.Data? && ev.message.request.Some? && ev.blur.output.Some?
  {
    var r := ev.message.request.value;
    && |s.settings.presets| == PresetTable.BUCKETS
    && |s.sent| < |later.sent|
    && later.sent[|s.sent|] == Sent(ev.fd, Rendered(ev.blur.output.value), BufferSent(ev.blur))
    && ev.blur.call.texture in later.pool.busy && ev.blur.call.texture !in s.pool.busy
    && JobOf(s, r).Valid()
    && ev.blur.output.value.width == ToInt32(r.width) && ev.blur.output.value.height == ToInt32(r.height)
    && Shows(s, r, ev.message.inputFd, Sample(later.pool.memory, ev.blur.call.texture))
    && Sample(later.pool.memory, ev.blur.call.texture)
       == JobOf(s, r).Pipeline(ImageOf(InputAttribs(r, ev.message.inputFd)))
  }

  lemma RenderDelivers(s: State, ev: Event)
    requires Possible(s, ev) && Renders(s, ev)
    ensures Delivered(s, ev, Step(s, ev)) == true
  {
    RenderTakesTwo(s, ev);
    BlurShows(s, ev.message.request.value, ev.message.inputFd, s.open + Fds(Carried(ev.message)), ev.blur);
    StepReplies(s, ev);
  }

  lemma DeliveredStays(s: State, ev: Event, now: State, last: Event)
    requires ev.Data? && ev.message.request.Some? && ev.blur.output.Some?
    requires Delivered(s, ev, now) && Possible(now, last)
    ensures Delivered(s, ev, Step(now, last)) == true
  {
    StepHolds(now, last, ev.blur.call.texture);
    StepReplies(now, last);
  }

  /** It still does at the end of the run, whatever was rendered, reloaded or destroyed since. */
  lemma {:induction false} SentBuffersStay(s: State, evs: seq<Event>, i: nat)
    requires Feasible(s, evs) && i < |evs| && Renders(After(s, evs[..i]), evs[i])
    ensures Delivered(After(s, evs[..i]), evs[i], After(s, evs)) == true
  {
    var init, last := evs[..|evs| - 1], evs[|evs| - 1];
    if i < |init| {
      assert init[..i] == evs[..i];
      SentBuffersStay(s, init, i);
      DeliveredStays(After(s, evs[..i]), evs[i], After(s, init), last);
    } else {
      RenderDelivers(After(s, init), last);
    }
  }

  /** No two replies share a buffer. */
  lemma SentBuffersDiffer(s: State, evs: seq<Event>, i: nat, j: nat)
    requires Feasible(s, evs) && i < j < |evs|
    requires Renders(After(s, evs[..i]), evs[i]) && Renders(After(s, evs[..j]), evs[j])
    ensures evs[i].blur.call.texture != evs[j].blur.call.texture
  {
    FeasiblePrefix(s, evs, j);
    assert evs[..j][..i] == evs[..i];
    SentBuffersStay(s, evs[..j], i);
    StepHolds(After(s, evs[..j]), evs[j], evs[i].blur.call.texture);
  }
}
