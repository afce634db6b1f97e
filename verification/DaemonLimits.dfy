/** Limits of the shipped daemon, each with an input that meets it. */
module DaemonLimits {
  import opened CTypes
  import opened Wrappers
  import opened NodeList
  import opened Kawase
  import opened Config
  import opened Protocol
  import opened DaemonState
  import opened DaemonRuns
  import opened DaemonTheorems
  import opened DaemonRenders
  import opened EventRuns
  import opened Kernel
  import Reload
  import PresetTable

  /** A preset beyond the library's noise limit resolves, and an owner's render with it is always refused. */
  lemma NoisyPresetNeverRenders(s: State, fd: int32, m: Message, memory: bool, blur: Blur)
    requires Possible(s, Data(fd, m, memory, blur)) && Dispatched(s, fd, m)
    requires |s.settings.presets| == PresetTable.BUCKETS && RenderParams(s, m.request.value).noise > 0.1
    ensures !Renders(s, Data(fd, m, memory, blur))
  {
  }

  const GRAINY: PresetTable.Name := [103, 114, 97, 105, 110]

  const GRAINY_FILE := Parsed(None, [RawPreset(GRAINY, Some(UNSET.(noise := Some(0.5))))])

  /** A file with one preset of noise 0.5 loads, and the preset is found under its name. */
  lemma GrainyIsAccepted()
    ensures |LoadedSettings(GRAINY_FILE).presets| == PresetTable.BUCKETS
    ensures PresetTable.Lookup(LoadedSettings(GRAINY_FILE).presets, GRAINY) == Some(BUILTIN.(noise := 0.5))
  {
    var presets := GRAINY_FILE.presets;
    var op := PresetTable.Op(GRAINY, BUILTIN.(noise := 0.5));
    assert Accepted(presets[0].table.value) == Some(op.params);
    assert presets[..0] == [];
    assert AcceptedOps(presets) == AcceptedOps(presets[..0]) + [op];
    assert AcceptedOps(presets) == [op];
    PresetTable.AddOne(PresetTable.Empty(), STANDARD, op);
    PresetTable.TableIsKeyMap(STANDARD);
    PresetTable.FoundIffShort(PresetTable.AddAll(PresetTable.Empty(), STANDARD), GRAINY, op.params);
  }

  /** A request may name it, and no render with it succeeds. */
  lemma GrainyIsRefused(s: State, fd: int32, m: Message, memory: bool, blur: Blur)
    requires s.settings == LoadedSettings(GRAINY_FILE)
    requires Possible(s, Data(fd, m, memory, blur)) && Dispatched(s, fd, m)
    requires m.request.value.usePreset != 0 && m.request.value.presetName == GRAINY
    ensures RenderParams(s, m.request.value) == BUILTIN.(noise := 0.5)
    ensures !Renders(s, Data(fd, m, memory, blur))
  {
    GrainyIsAccepted();
    NoisyPresetNeverRenders(s, fd, m, memory, blur);
  }

  /** main.c never creates the blur context, so no run from such a start ever renders. */
  lemma {:induction false} WithoutContextNothingRenders(s: State, evs: seq<Event>)
    requires !s.hasContext
    ensures !After(s, evs).hasContext && RenderCount(s, evs) == 0
  {
    if evs != [] {
      WithoutContextNothingRenders(s, evs[..|evs| - 1]);
      NoContextNoRender(After(s, evs[..|evs| - 1]), evs[|evs| - 1]);
    }
  }

  lemma NoContextNoRender(s: State, ev: Event)
    requires !s.hasContext
    ensures !Step(s, ev).hasContext && !Renders(s, ev)
  {
  }

  /** A create request is refused though the node is stored exactly when the id counter has wrapped to 0. */
  lemma StoredButRefused(s: State, client: uint32, r: Request, inputFd: int32, memory: bool, blur: Blur)
    requires r.op == OP_CREATE_NODE
    ensures (Reply(s, client, r, inputFd, memory, blur) == Plain(OutOfMemory)
             && RequestStep(s, client, r, inputFd, memory, blur).nodes != s.nodes)
            <==> (s.nextNode == 0 && memory && CountOf(s.nodes, client) < MAX_NODES_PER_CLIENT)
  {
    var t := RequestStep(s, client, r, inputFd, memory, blur);
    if CountOf(s.nodes, client) < MAX_NODES_PER_CLIENT && memory {
      assert |t.nodes| == |s.nodes| + 1;
    }
  }

  /** A message with nothing but an operation and a node. */
  function Plainly(op: uint32, node: uint32): Message {
    Message(Some(Request(PROTOCOL_VERSION, op, node, 1, 1, 0, 0, 0, 0, [], 0, BUILTIN)), -1, -1)
  }

  function CreateOn(fd: int32): Event {
    Data(fd, Plainly(OP_CREATE_NODE, 0), true, NO_BLUR)
  }

  function DestroyOn(fd: int32, node: uint32): Event {
    Data(fd, Plainly(OP_DESTROY_NODE, node), true, NO_BLUR)
  }

  /** One client, and no nodes. */
  ghost predicate Lonely(s: State, fd: int32, nextNode: uint32) {
    && s.nodes == [] && s.nextNode == nextNode && |s.clients| == MAX_CLIENTS && s.clients[0] == Slot(fd, 1, true)
  }

  lemma CreateAndDestroy(s: State, fd: int32)
    requires Lonely(s, fd, s.nextNode)
    ensures Possible(s, CreateOn(fd))
    ensures var t := Step(s, CreateOn(fd));
            Possible(t, DestroyOn(fd, s.nextNode))
                && Lonely(Step(t, DestroyOn(fd, s.nextNode)), fd, NextId(s.nextNode))
  {
    assert SlotOf(s.clients, fd) == 0;
    var t := Step(s, CreateOn(fd));
    assert t.nodes[1..] == [];
    assert FindNode(t.nodes, s.nextNode) == Some(t.nodes[0]);
  }

  lemma Append(s: State, evs: seq<Event>, ev: Event)
    requires Feasible(s, evs) && Possible(After(s, evs), ev)
    ensures Feasible(s, evs + [ev]) && After(s, evs + [ev]) == Step(After(s, evs), ev)
  {
    assert (evs + [ev])[..|evs|] == evs;
  }

  lemma FirstClient(s: State, fd: int32) returns (evs: seq<Event>)
    requires s.nodes == [] && s.nextNode == s.nextClient == 1 && |s.clients| == MAX_CLIENTS
    requires !s.clients[0].active && fd >= 0 && fd !in s.open
    ensures Feasible(s, evs) && Lonely(After(s, evs), fd, 1)
    ensures var t := After(s, evs);
            && t.open == s.open + {fd} && t.pool == s.pool && t.settings == s.settings && t.hasContext == s.hasContext
            && RenderCount(s, evs) == 0
  {
    evs := [];
    Append(s, evs, Accept(fd, true));
    evs := evs + [Accept(fd, true)];
  }

  lemma NextIdWraps(n: nat)
    ensures NextId(ToUint32(n)) == ToUint32(1 + n)
  {
    var q := n / TWO32;
    assert n == q * TWO32 + ToUint32(n);
    if ToUint32(n) + 1 == TWO32 {
      assert 1 + n == (q + 1) * TWO32;
    } else {
      assert 1 + n == q * TWO32 + (ToUint32(n) + 1);
    }
  }

  lemma OneMore(s: State, evs: seq<Event>, fd: int32, nextNode: uint32) returns (more: seq<Event>)
    requires Feasible(s, evs) && Lonely(After(s, evs), fd, nextNode)
    ensures Feasible(s, more) && Lonely(After(s, more), fd, NextId(nextNode))
  {
    CreateAndDestroy(After(s, evs), fd);
    Append(s, evs, CreateOn(fd));
    more := evs + [CreateOn(fd)];
    Append(s, more, DestroyOn(fd, nextNode));
    more := more + [DestroyOn(fd, nextNode)];
  }

  /** One client that creates a node and destroys it again, n times, takes the id counter anywhere. */
  lemma {:induction false} CounterGoesAnywhere(base: set<int32>, settings: Settings, hasContext: bool, pool: View,
      granted: seq<bool>, fd: int32, n: nat)
    returns (evs: seq<Event>)
    requires fd >= 0 && fd !in base
    ensures Feasible(Started(base, settings, hasContext, pool, granted), evs) == true
    ensures Lonely(After(Started(base, settings, hasContext, pool, granted), evs), fd, ToUint32(1 + n)) == true
  {
    var s := Started(base, settings, hasContext, pool, granted);
    if n == 0 {
      evs := FirstClient(s, fd);
    } else {
      evs := CounterGoesAnywhere(base, settings, hasContext, pool, granted, fd, n - 1);
      evs := OneMore(s, evs, fd, ToUint32(n));
      NextIdWraps(n);
    }
  }

  /** So there is a run after which a client's create request is refused and its node stored. */
  lemma StoredButRefusedHappens(base: set<int32>, settings: Settings, hasContext: bool, pool: View,
      granted: seq<bool>, fd: int32)
    returns (evs: seq<Event>)
    requires fd >= 0 && fd !in base
    ensures Feasible(Started(base, settings, hasContext, pool, granted), evs)
    ensures
      var s := After(Started(base, settings, hasContext, pool, granted), evs);
      && Possible(s, CreateOn(fd)) && Dispatched(s, fd, CreateOn(fd).message)
      && Step(s, CreateOn(fd)).sent == s.sent + [Sent(fd, Plain(OutOfMemory), None)]
      && |Step(s, CreateOn(fd)).nodes| == |s.nodes| + 1
  {
    var n := TWO32 - 1;
    evs := CounterGoesAnywhere(base, settings, hasContext, pool, granted, fd, n);
    assert ToUint32(1 + n) == 0;
    RefusedAtZero(After(Started(base, settings, hasContext, pool, granted), evs), fd);
  }

  lemma RefusedAtZero(s: State, fd: int32)
    requires Lonely(s, fd, 0)
    ensures Possible(s, CreateOn(fd)) && Dispatched(s, fd, CreateOn(fd).message)
    ensures Step(s, CreateOn(fd)).sent == s.sent + [Sent(fd, Plain(OutOfMemory), None)]
    ensures |Step(s, CreateOn(fd)).nodes| == |s.nodes| + 1
  {
    assert SlotOf(s.clients, fd) == 0;
  }

  // ----- a second descriptor -----

  /** A client that connects and sends one message with two descriptors leaves one of them open for good. */
  lemma SecondDescriptorStaysOpen(base: set<int32>, settings: Settings, hasContext: bool, pool: View,
      granted: seq<bool>, fd: int32, input: int32, extra: int32)
    returns (evs: seq<Event>)
    requires fd >= 0 && input >= 0 && extra >= 0 && fd !in base && input !in base && extra !in base
    requires fd != input && fd != extra && input != extra
    ensures Feasible(Started(base, settings, hasContext, pool, granted), evs)
    ensures extra in LeakedBy(evs) && extra in After(Started(base, settings, hasContext, pool, granted), evs).open
    ensures input !in After(Started(base, settings, hasContext, pool, granted), evs).open
  {
    var s := Started(base, settings, hasContext, pool, granted);
    evs := FirstClient(s, fd);
    var ev := Data(fd, Plainly(OP_DESTROY_NODE, 0).(inputFd := input, extraFd := extra), true, NO_BLUR);
    TwoDescriptors(After(s, evs), fd, input, extra);
    Append(s, evs, ev);
    assert (evs + [ev])[..|evs|] == evs;
    evs := evs + [ev];
  }

  lemma TwoDescriptors(s: State, fd: int32, input: int32, extra: int32)
    requires Lonely(s, fd, 1) && input >= 0 && extra >= 0 && input !in s.open && extra !in s.open && input != extra
    ensures var ev := Data(fd, Plainly(OP_DESTROY_NODE, 0).(inputFd := input, extraFd := extra), true, NO_BLUR);
            && Possible(s, ev) && extra in LeakedIn(ev) && Step(s, ev).open == s.open + {extra}
  {
    var m := Plainly(OP_DESTROY_NODE, 0).(inputFd := input, extraFd := extra);
    assert SlotOf(s.clients, fd) == 0;
    assert Carried(m) == [input, extra] && Fds([extra]) == {extra};
  }

  // ----- a configuration named on the command line -----

  const EMPTY_FILE := Parsed(None, [])

  lemma NoGrainy()
    ensures |LoadedSettings(EMPTY_FILE).presets| == PresetTable.BUCKETS
    ensures PresetTable.Lookup(LoadedSettings(EMPTY_FILE).presets, GRAINY) == None
  {
    assert FileOps(EMPTY_FILE) == STANDARD;
    assert forall op | op in STANDARD :: op.name in {WINDOW, PANEL, HUD, TOOLTIP};
    NeverAdded(EMPTY_FILE, GRAINY);
  }

  /**
   A reload reads the default path, not the file named with --config: once it has, with every allocation
   granted, what only that file said is gone, though nobody edited or removed it.
   */
  lemma NamedFileIsDropped(settings: Settings, allocations: seq<bool>, history: seq<File>, r: Reload.State)
    requires InForce(settings, allocations, history, r) && Granted(allocations) && r.began > 1
    requires history[r.read] == EMPTY_FILE
    ensures |LoadedSettings(GRAINY_FILE).presets| == |settings.presets| == PresetTable.BUCKETS
    ensures PresetTable.Lookup(LoadedSettings(GRAINY_FILE).presets, GRAINY).Some?
    ensures PresetTable.Lookup(settings.presets, GRAINY) == None
  {
    GrainyIsAccepted();
    NoGrainy();
  }
}
