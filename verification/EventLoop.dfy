/** The event loop and the configuration in force (wlblurd/src/main.c). */
module EventLoop {
  import opened CTypes
  import opened Wrappers
  import opened Kernel
  import opened Kawase
  import opened BlurContext
  import opened Config
  import opened DaemonState
  import opened DaemonRuns
  import opened DaemonTheorems
  import opened Connections
  import opened Requests
  import opened EventRuns
  import Reload

  class Server {
    const table: Table
    const handler: Handler
    const reloader: Reload.Reloader
    const epoll: Epoll
    var config: DaemonConfig

    /** Everything but the configuration. */
    ghost predicate Serving()
      reads table.nodes, table.nodes.Heap()
      reads if handler.context == null then {} else handler.context.Repr()
    {
      handler.table == table && handler.process == table.process && handler.ContextOk() && table.Valid()
    }

    ghost predicate Valid()
      reads this, table.nodes, table.nodes.Heap(), config, config.presets, config.presets.buckets
      reads if handler.context == null then {} else handler.context.Repr()
    {
      Serving() && config.Valid()
    }

    /** The state, given the settings. */
    ghost function Seen(settings: Settings): State
      reads table, table.nodes, table.clients, table.process
      reads if handler.context == null then {}
            else {handler.context.renderer.pool, handler.context.renderer.gpu}
                 + handler.context.renderer.pool.Members()
    {
      table.Abs(settings, handler.context != null, handler.Pool())
    }

    ghost function Abs(): State
      requires config.Valid()
      reads this, table, table.nodes, table.clients, table.process
      reads if handler.context == null then {}
            else {handler.context.renderer.pool, handler.context.renderer.gpu}
                 + handler.context.renderer.pool.Members()
      reads config, config.presets, config.presets.buckets, config.presets.heap
    {
      Seen(config.View())
    }

    /** What main hands over to the event loop; `disk` is the file that reloads will read. */
    constructor (config: DaemonConfig, disk: File, process: Process, base: set<int32>, context: Context?)
      requires config.Valid() && (context != null ==> context.Valid() && context.process == process)
      requires process.watched == {} && process.open == base && process.decisions == []
      requires context != null ==> context.renderer.pool.Busy() == {}
      ensures Valid() && this.config == config && handler.context == context && table.process == process
      ensures Abs() == DaemonRuns.Started(base, config.View(), context != null, handler.Pool(), process.allocations)
      ensures handler.Pool().busy == {}
      ensures fresh(table) && fresh(table.clients) && fresh(table.nodes) && table.nodes.Heap() == {}
      ensures fresh(reloader) && reloader.Valid() && reloader.state == Reload.Started(0) && reloader.history == [disk]
      ensures fresh(epoll) && epoll.polls == [] && reloader.run == []
    {
      var t := new Table(process);
      table := t;
      handler := new Handler(t, context);
      reloader := new Reload.Reloader(disk);
      epoll := new Epoll();
      this.config := config;
      new;
      assert context != null ==> context.renderer.pool.Members() == old(context.renderer.pool.Members());
      assert context != null ==> forall f | f in context.renderer.pool.Members() :: f.inUse == old(f.inUse);
      assert context != null ==> context.renderer.pool.Busy() == {};
      assert handler.Pool().busy == {};
      assert table.clients[..] == DaemonRuns.Started(base, config.View(), context != null, handler.Pool(),
                                                     process.allocations).clients;
    }

    /** The pointer swap; the settings that were in force are freed. */
    method Swap(next: DaemonConfig)
      requires Valid() && next.Valid() && next.presets != config.presets
               && next.presets.buckets != config.presets.buckets
      modifies this`config, config.presets, config.presets.buckets
      ensures config == next && next.Valid() && next.View() == old(next.View())
      ensures Valid() && Abs() == old(Abs()).(settings := old(next.View())) && Touched() == old(Touched())
    {
      var last := config;
      config := next;
      last.Free();
      assert next.View() == old(next.View());
      handler.PoolSame();
    }

    /** The presets in force are not those of the start. */
    twostate predicate Renewed()
      reads this
    {
      fresh(config.presets) && fresh(config.presets.buckets)
    }

    /** The branch of a pending reload. */
    method HandleReload() returns (ghost m: Memory)
      requires Valid() && reloader.Valid() && reloader.state.pc.Clearing?
      modifies this`config, reloader, config.presets, config.presets.buckets, table.process`allocations
      ensures Valid() == true && reloader.Valid() == true && reloader.state.pc.Waiting?
      ensures old(reloader.history) <= reloader.history
      ensures reloader.state.read < |reloader.history| && reloader.state.began > 1
      ensures Reload.Later(old(reloader.Now()), reloader.Now(), 3) == true
      ensures reloader.state.began >= old(reloader.state.now) && reloader.state.read >= old(reloader.state.file)
      ensures Abs() == Step(old(Abs()), Reloading(m))
      ensures Touched() == old(Touched()) && (config == old(config) || Renewed())
    {
      ghost var before, start := Abs(), reloader.Now();
      var next: DaemonConfig?;
      next, m := LoadNext();
      ghost var ev, loaded := Reloading(m), reloader.Now();
      Install(next);
      Reload.LaterThen(start, loaded, reloader.Now(), 2, 1);
      assert Reloading(m) == ev;
      ReloadTakes(before, ev.loaded, ev.allocations, Abs());
    }

    static lemma ReloadTakes(before: State, loaded: Option<Settings>, allocations: seq<bool>, after: State)
      requires after == before.(allocations := before.allocations + allocations,
                                settings := if loaded.Some? then loaded.value else before.settings)
      ensures after == Step(before, ReloadDone(loaded, allocations))
    {
    }

    /** The event of a reload that has read the version of the file it has read. */
    ghost function Reloading(m: Memory): Event
      reads reloader
      requires reloader.state.read < |reloader.history|
    {
      var file := reloader.history[reloader.state.read];
      ReloadDone(LoadedWith(file, m), LoadOutcomes(file, m))
    }

    method Install(next: DaemonConfig?)
      requires Valid() && reloader.Valid() && reloader.state.pc.Swapping?
      requires next != null ==>
                 next.Valid() && next.presets != config.presets && next.presets.buckets != config.presets.buckets
      modifies this`config, reloader, config.presets, config.presets.buckets
      ensures reloader.Valid() && reloader.state.pc.Waiting? && reloader.history == old(reloader.history)
      ensures reloader.state.read == old(reloader.state.read) && reloader.state.began == old(reloader.state.began)
      ensures Reload.Later(old(reloader.Now()), reloader.Now(), 1) == true
      ensures config == (if next == null then old(config) else next)
      ensures Valid() && Touched() == old(Touched())
      ensures Abs() == old(Abs()).(settings := if next == null then old(config.View()) else old(next.View()))
    {
      if next != null {
        Swap(next);
      }
      FinishReload();
    }

    method LoadNext() returns (next: DaemonConfig?, ghost m: Memory)
      requires Valid() && reloader.Valid() && reloader.state.pc.Clearing?
      modifies reloader, table.process`allocations
      ensures Valid() && Touched() == old(Touched()) && config.View() == old(config.View())
      ensures reloader.Valid() && reloader.state.pc.Swapping? && old(reloader.history) <= reloader.history
      ensures reloader.state.read < |reloader.history| && reloader.state.began > 1
      ensures Reload.Later(old(reloader.Now()), reloader.Now(), 2) == true
      ensures reloader.state.began >= old(reloader.state.now) && reloader.state.read >= old(reloader.state.file)
      ensures Abs() == old(Abs()).(allocations := old(Abs()).allocations + Reloading(m).allocations)
      ensures next == null <==> Reloading(m).loaded == None
      ensures next != null ==> FreshConfig(next) && next.Valid() && Reloading(m).loaded == Some(next.View())
    {
      next, m := reloader.HandleConfigReload(table.process);
      handler.PoolSame();
      assert config.View() == old(config.View());
    }

    ghost method FinishReload()
      requires Valid() && reloader.Valid() && reloader.state.pc.Swapping?
      modifies reloader
      ensures Valid() && Abs() == old(Abs()) && Touched() == old(Touched())
      ensures reloader.Valid() && reloader.state.pc.Waiting? && reloader.history == old(reloader.history)
      ensures reloader.state.read == old(reloader.state.read) && reloader.state.began == old(reloader.state.began)
      ensures Reload.Later(old(reloader.Now()), reloader.Now(), 1) == true
    {
      reloader.Swapped();
      handler.PoolSame();
    }

    ghost function Loop(): Loop
      reads reloader, epoll
    {
      EventRuns.Loop(epoll.polls, reloader.Now(), reloader.requested)
    }

    /** The settings are those the latest reload has read, unless an allocation has failed. */
    ghost predicate UpToDate()
      requires config.Valid()
      reads this, config, config.presets, config.presets.buckets, config.presets.heap, reloader, table.process
    {
      InForce(config.View(), table.process.allocations, reloader.history, reloader.state)
    }

    /** The top of the loop; signals may come between any two statements of it. */
    method CheckReload() returns (ghost ev: Event)
      requires Valid() && reloader.Valid() && reloader.state.pc.Checking? && UpToDate()
      modifies this`config, reloader, config.presets, config.presets.buckets, table.process`allocations
      ensures Valid() && reloader.Valid() && reloader.state.pc.Waiting? && UpToDate() == true
      ensures reloader.requested || reloader.state.began > reloader.state.signalled
      ensures Reload.Later(old(reloader.Now()), reloader.Now(), 1) == true
      ensures old(reloader.requested) ==>
                reloader.state.began >= old(reloader.state.now) && reloader.state.read >= old(reloader.state.file)
      ensures ev.ReloadDone? && Possible(old(Abs()), ev) && Abs() == Step(old(Abs()), ev)
      ensures old(reloader.requested) ==>
                exists m :: reloader.state.read < |reloader.history| && ev == Reloading(m)
      ensures Touched() == old(Touched()) && (config == old(config) || Renewed())
    {
      ghost var s, history, state, start := Abs(), reloader.history, reloader.state, reloader.Now();
      var pending := Pending();
      ghost var asked := reloader.Now();
      if !pending {
        StillInForce(s.settings, s.allocations, history, state, s.allocations, reloader.history, reloader.state);
        return ReloadDone(None, []);
      }
      ghost var m := HandleReload();
      Reload.LaterThen(start, asked, reloader.Now(), 1, 0);
      ev := Reloading(m);
      LoadedIsClean(reloader.history[reloader.state.read], m);
      ReloadedIsInForce(s.settings, s.allocations, reloader.history, reloader.state, m);
    }

    /** reload_pending, after whatever signals have come. */
    method Pending() returns (pending: bool)
      requires Valid() && reloader.Valid() && reloader.state.pc.Checking?
      modifies reloader
      ensures Valid() && Abs() == old(Abs()) && Touched() == old(Touched())
      ensures reloader.Valid() && (old(reloader.requested) ==> pending) && old(reloader.history) <= reloader.history
      ensures reloader.state.read == old(reloader.state.read) && reloader.state.began == old(reloader.state.began)
      ensures if pending then reloader.state.pc.Clearing? else reloader.state.pc.Waiting?
      ensures Reload.Later(old(reloader.Now()), reloader.Now(), 1) == true
    {
      pending := reloader.CheckPending();
      handler.PoolSame();
    }

    /** The objects an event may change; the configuration is none of them. */
    ghost function Touched(): set<object>
      reads table.nodes
      reads if handler.context == null then {} else {handler.context.renderer.pool}
    {
      handler.Repr() + {table, table.clients, table.process, table.nodes} + table.nodes.Heap()
    }

    ghost function ConfigObjects(): set<object>
      reads this, config.presets
    {
      {this, reloader, epoll, config, config.presets, config.presets.buckets} + config.presets.heap
    }

    lemma PresetsApart()
      ensures config.presets.heap !! Touched()
    {
      forall p | p in config.presets.heap
        ensures p as object !in table.nodes.Heap()
        ensures handler.context != null ==> p as object !in handler.context.renderer.pool.Members()
      {
      }
    }

    lemma ConfigApart()
      ensures ConfigObjects() !! Touched()
    {
      PresetsApart();
      assert this as object !in Touched() && reloader as object !in Touched() && config as object !in Touched();
      assert epoll as object !in Touched();
      assert config.presets as object !in Touched() && config.presets.buckets as object !in Touched();
    }

    lemma ContextApart()
      ensures handler.context != null ==>
                handler.context.Repr() + handler.context.renderer.pool.Members()
                !! {table, table.clients, table.nodes} + table.nodes.Heap()
    {
      if handler.context != null {
        forall n | n in table.nodes.Heap()
          ensures n as object !in handler.context.renderer.pool.Members()
        {
        }
      }
    }

    method OnConnection(ghost settings: Settings) returns (ghost ev: Event)
      requires Serving()
      modifies table, table.clients, table.process
      ensures handler.NewOnly() && Serving()
      ensures ev.Accept? && Possible(old(Seen(settings)), ev) == true
              && Seen(settings) == Step(old(Seen(settings)), ev)
    {
      ContextApart();
      ev := table.HandleNewConnection(settings, handler.context != null, handler.Pool());
      handler.PoolSame();
    }

    method OnBroken(fd: int32, ghost settings: Settings)
      requires Serving() && fd in table.process.open
      modifies table.nodes, table.nodes.Heap(), table.clients, table.process
      ensures handler.NewOnly() && Serving()
      ensures Seen(settings) == HangUpStep(old(Seen(settings)), fd)
    {
      ContextApart();
      table.HandleHangUp(fd, settings, handler.context != null, handler.Pool());
      handler.PoolSame();
    }

    method OnReadable(fd: int32, ghost settings: Settings) returns (ghost ev: Event)
      requires Serving() && config.Valid() && config.View() == settings
      modifies Touched()
      ensures handler.NewOnly() && Serving()
      ensures ev.Data? && ev.fd == fd && Possible(old(Seen(settings)), ev) == true
      ensures Seen(settings) == Step(old(Seen(settings)), ev)
    {
      ghost var s := Seen(settings);
      var reply: Option<Response>;
      ev, reply := handler.HandleRequest(fd, config, s);
    }

    /** The body of the loop over the reported descriptors. */
    method HandleReady(r: Ready, ghost settings: Settings) returns (ghost ev: Event)
      requires Serving() && config.Valid() && config.View() == settings
      requires r.Broken? ==> r.fd in table.process.open
      modifies Touched()
      ensures handler.NewOnly() && Serving()
      ensures Leads(r, ev) && Possible(old(Seen(settings)), ev) == true
              && Seen(settings) == Step(old(Seen(settings)), ev)
    {
      match r
      case NewConnection => ev := OnConnection(settings);
      case Broken(fd) => OnBroken(fd, settings); ev := HangUp(fd);
      case Readable(fd) => ev := OnReadable(fd, settings);
    }

    /** What may be changed now could be changed at the start, or is new. */
    twostate lemma TouchedGrows()
      requires handler.NewOnly() && handler.table == table
      ensures forall o | o in Touched() :: o in old(Touched()) || fresh(o)
    {
      forall o | o in Touched()
        ensures o in old(Touched()) || fresh(o)
      {
        if o in table.nodes.Heap() {
        } else if handler.context != null && o in handler.context.renderer.pool.Members() {
        }
      }
    }

    /** One reported descriptor, as the next event of a run. */
    method Advance(ready: seq<Ready>, r: Ready, ghost s: State, ghost evs: seq<Event>)
      returns (ghost longer: seq<Event>)
      requires Valid() && Abs() == After(s, evs) && Reached(s, evs)
      requires LeadTo(ready, evs) && |evs| < |ready| && r == ready[|evs|]
      requires Once(ready) && StillWatched(table.process.watched, ready, |evs|)
      modifies Touched()
      ensures forall o | o in Touched() :: o in old(Touched()) || fresh(o)
      ensures Valid() && config == old(config)
      ensures |longer| == |evs| + 1 && LeadTo(ready, longer) == true
      ensures Abs() == After(s, longer) && Reached(s, longer) == true
      ensures StillWatched(table.process.watched, ready, |longer|) == true
    {
      ghost var settings := config.View();
      ConfigApart();
      ghost var ev := HandleReady(r, settings);
      assert config.Valid() && config.View() == settings;
      TouchedGrows();
      Extend(s, evs, ev);
      OneReportLess(s, evs, ev, ready);
      LeadToNext(ready, evs, ev);
      longer := evs + [ev];
    }

    /** One round of the event loop over what epoll_wait returned. */
    method RunBatch(ready: seq<Ready>) returns (ghost evs: seq<Event>)
      requires Valid() && Tidy(Abs()) && Reported(table.process.watched, ready)
      modifies Touched()
      ensures config == old(config) && forall o | o in Touched() :: o in old(Touched()) || fresh(o)
      ensures Valid() && Abs() == After(old(Abs()), evs) && Reached(old(Abs()), evs) == true
      ensures Batch(old(Abs()), evs) && |evs| == |ready| && LeadTo(ready, evs) == true
    {
      ghost var s := Abs();
      ReachedNow(s);
      evs := [];
      for i := 0 to |ready|
        invariant Valid() && config == old(config)
        invariant forall o | o in Touched() :: o in old(Touched()) || fresh(o)
        invariant |evs| == i && LeadTo(ready, evs) == true
        invariant StillWatched(table.process.watched, ready, |evs|) == true
        invariant Abs() == After(s, evs) && Reached(s, evs) == true
      {
        evs := Advance(ready, ready[i], s, evs);
      }
      ReportedIsBatch(s, ready, evs);
    }

    /** The top of a round, as a run of its own. */
    method ReloadPhase() returns (ghost evs: seq<Event>)
      requires Valid() && reloader.Valid() && reloader.state.pc.Checking? && UpToDate() && Tidy(Abs())
      modifies this`config, reloader, config.presets, config.presets.buckets, table.process`allocations
      ensures reloader.Valid() && reloader.state.pc.Waiting?
      ensures Touched() == old(Touched()) && (config == old(config) || Renewed())
      ensures Valid() && Abs() == After(old(Abs()), evs) && Reached(old(Abs()), evs) == true && UpToDate() == true
      ensures Polled(epoll.polls, epoll.polls, evs) == true
      ensures Reload.Later(old(reloader.Now()), reloader.Now(), 1) == true
      ensures old(reloader.requested) ==>
                reloader.state.began >= old(reloader.state.now) && reloader.state.read >= old(reloader.state.file)
    {
      ghost var s := Abs();
      ghost var ev := CheckReload();
      evs := Alone(s, ev, Abs());
      NotPolled(epoll.polls, evs);
    }

    /** epoll_wait changes nothing but its log. */
    method Poll() returns (poll: Poll)
      requires Valid()
      modifies epoll
      ensures Valid() && Abs() == old(Abs()) && Touched() == old(Touched())
      ensures epoll.polls == old(epoll.polls) + [poll]
      ensures poll.Reports? ==> Reported(table.process.watched, poll.ready)
    {
      poll := epoll.Wait(table.process);
      handler.PoolSame();
    }

    /** epoll_wait, and the events it reports. */
    method BatchPhase() returns (ghost evs: seq<Event>, poll: Poll)
      requires Valid() && Tidy(Abs())
      modifies epoll, Touched()
      ensures config == old(config) && forall o | o in Touched() :: o in old(Touched()) || fresh(o)
      ensures Valid() && Abs() == After(old(Abs()), evs) && Reached(old(Abs()), evs) == true
      ensures config.View() == old(config.View()) && old(table.process.allocations) <= table.process.allocations
      ensures epoll.polls == old(epoll.polls) + [poll] && Polled(old(epoll.polls), epoll.polls, evs) == true
    {
      ghost var s, before := Abs(), epoll.polls;
      ConfigApart();
      poll := Poll();
      if poll.Reports? {
        evs := RunBatch(poll.ready);
      } else {
        evs := [];
        ReachedNow(s);
      }
      PolledOnce(before, poll, evs);
      AllocationsGrow(s, evs);
    }

    /** One round of the event loop: a reload if a signal has come, and what epoll_wait returns. */
    method Round() returns (ghost evs: seq<Event>, poll: Poll)
      requires Valid() && reloader.Valid() && reloader.state.pc.Checking? && UpToDate() && Tidy(Abs())
      modifies this`config, reloader, epoll, config.presets, config.presets.buckets, Touched()
      ensures Valid() && Abs() == After(old(Abs()), evs) && Reached(old(Abs()), evs) == true
      ensures reloader.Valid() && reloader.state.pc.Checking? && UpToDate() == true
      ensures forall o | o in Touched() :: o in old(Touched()) || fresh(o)
      ensures config.presets == old(config.presets) || Renewed()
      ensures epoll.polls == old(epoll.polls) + [poll] && Turned(old(Loop()), Loop(), evs) == true
    {
      ghost var s, start := Abs(), Loop();
      ghost var reload := ReloadPhase();
      ghost var mid := reloader.Now();
      ConfigApart();
      ghost var batch;
      batch, poll := RestOfRound();
      evs := Join(s, reload, batch);
      TurnedOnce(start, mid, poll, Loop(), reload, batch);
    }

    method RestOfRound() returns (ghost evs: seq<Event>, poll: Poll)
      requires Valid() && reloader.Valid() && reloader.state.pc.Waiting? && UpToDate() && Tidy(Abs())
      modifies reloader, epoll, Touched()
      ensures Valid() && Abs() == After(old(Abs()), evs) && Reached(old(Abs()), evs) == true
      ensures reloader.Valid() && reloader.state.pc.Checking? && UpToDate() == true
      ensures config == old(config) && forall o | o in Touched() :: o in old(Touched()) || fresh(o)
      ensures epoll.polls == old(epoll.polls) + [poll] && Polled(old(epoll.polls), epoll.polls, evs) == true
      ensures Reload.Later(old(reloader.Now()), reloader.Now(), 1) == true
    {
      ghost var settings, granted, history, state := config.View(), table.process.allocations, reloader.history,
          reloader.state;
      ConfigApart();
      evs, poll := BatchPhase();
      WakeUp();
      StillInForce(settings, granted, history, state, table.process.allocations, reloader.history, reloader.state);
    }

    ghost method WakeUp()
      requires Valid() && reloader.Valid() && reloader.state.pc.Waiting?
      modifies reloader
      ensures Valid() && reloader.Valid() && reloader.state.pc.Checking?
      ensures reloader.history == old(reloader.history)
      ensures reloader.state.read == old(reloader.state.read) && reloader.state.began == old(reloader.state.began)
      ensures Abs() == old(Abs()) && Touched() == old(Touched())
      ensures Reload.Later(old(reloader.Now()), reloader.Now(), 1) == true
    {
      reloader.Wake();
      handler.PoolSame();
    }

    /** One round more of a run. */
    method AnotherRound(ghost s: State, ghost start: Loop, ghost evs: seq<Event>)
      returns (ghost more: seq<Event>, poll: Poll)
      requires Valid() && reloader.Valid() && reloader.state.pc.Checking? && UpToDate()
      requires Abs() == After(s, evs) && Reached(s, evs) && Turned(start, Loop(), evs)
      modifies this`config, reloader, epoll, config.presets, config.presets.buckets, Touched()
      ensures Valid() && Abs() == After(s, more) && Reached(s, more) == true
      ensures reloader.Valid() && reloader.state.pc.Checking? && UpToDate() == true
      ensures forall o | o in Touched() :: o in old(Touched()) || fresh(o)
      ensures config.presets == old(config.presets) || Renewed()
      ensures epoll.polls == old(epoll.polls) + [poll] && Turned(start, Loop(), more) == true
    {
      ghost var before := Loop();
      ghost var round;
      round, poll := Round();
      TurnedThen(start, before, Loop(), evs, round);
      more := Join(s, evs, round);
    }

    /**
     run_event_loop, for any number of rounds: each asks epoll once, and an error of epoll ends the loop.
     Everything reported is handled, in order, and a signal that has come before is served.
     */
    method RunEventLoop(rounds: nat) returns (ghost evs: seq<Event>)
      requires Valid() && reloader.Valid() && reloader.state.pc.Checking? && UpToDate() && Tidy(Abs())
      modifies this`config, reloader, epoll, config.presets, config.presets.buckets, Touched()
      ensures Valid() && Abs() == After(old(Abs()), evs) && Reached(old(Abs()), evs) == true
      ensures reloader.Valid() && reloader.state.pc.Checking? && UpToDate() == true
      ensures Rounds(old(epoll.polls), epoll.polls, rounds) == true
      ensures Turned(old(Loop()), Loop(), evs) == true
    {
      ghost var s, start := Abs(), Loop();
      ReachedNow(s);
      NotTurned(start);
      evs := [];
      for i := 0 to rounds
        invariant reloader.Valid() && reloader.state.pc.Checking? && Valid() && UpToDate() == true
        invariant forall o | o in Touched() :: o in old(Touched()) || fresh(o)
        invariant config.presets == old(config.presets) || Renewed()
        invariant Abs() == After(s, evs) && Reached(s, evs) == true
        invariant Going(start.polls, epoll.polls, i) == true && Turned(start, Loop(), evs) == true
      {
        ghost var polls := epoll.polls;
        var poll;
        evs, poll := AnotherRound(s, start, evs);
        OneRoundMore(start.polls, polls, poll, i, rounds);
        if poll.Failed? {
          return;
        }
      }
    }

    /**
     The rounds from the start are one run, in which every poll was answered; and the settings in force are
     those the latest reload has read.
     */
    ghost predicate HasRun(start: State, base: set<int32>, evs: seq<Event>, rounds: nat, begin: Loop)
      reads this, table, table.nodes, table.nodes.Heap(), table.clients, table.process, reloader, epoll
      reads if handler.context == null then {}
            else handler.context.Repr() + handler.context.renderer.pool.Members()
      reads config, config.presets, config.presets.buckets, config.presets.heap
    {
      && Valid() && Lived(start, base, evs, Abs())
      && Rounds(begin.polls, epoll.polls, rounds) && Turned(begin, Loop(), evs)
      && reloader.Valid() && reloader.state.pc.Checking? && UpToDate()
    }

    /** The loop from the start, seen from outside. */
    method RunFromStart(rounds: nat, base: set<int32>, ghost start: State) returns (ghost evs: seq<Event>)
      requires Valid() && start == Abs() && CleanSettings(start.settings) && start.pool.busy == {}
      requires start == Started(base, start.settings, handler.context != null, start.pool, start.allocations)
      requires reloader.Valid() && reloader.state == Reload.Started(0) && epoll.polls == []
      modifies this`config, reloader, epoll, config.presets, config.presets.buckets, Touched()
      ensures HasRun(start, base, evs, rounds, old(Loop())) == true
    {
      evs := RunEventLoop(rounds);
      Life(base, start.settings, handler.context != null, start.pool, start.allocations, evs, Abs());
    }
  }

  /** The allocations of the loads at the start. */
  function StartOutcomes(file: File, m: Memory, fallback: File, n: Memory): seq<bool> {
    LoadOutcomes(file, m) + if NoConfig(file, m) then LoadOutcomes(fallback, n) else []
  }

  /** What the program starts with: the file asked for, or else the default one. */
  function StartSettings(file: File, m: Memory, fallback: File, n: Memory): Option<Settings> {
    if NoConfig(file, m) then LoadedWith(fallback, n) else LoadedWith(file, m)
  }

  /** The start: idle, with the file asked for in force or else the default one, and whatever their loads took. */
  ghost predicate Begun(file: File, m: Memory, fallback: File, n: Memory, before: seq<bool>, base: set<int32>,
      hasContext: bool, start: State)
  {
    && Some(start.settings) == StartSettings(file, m, fallback, n)
    && CleanSettings(start.settings)
    && start.allocations == before + StartOutcomes(file, m, fallback, n)
    && start == Started(base, start.settings, hasContext, start.pool, start.allocations) && start.pool.busy == {}
  }

  lemma Begins(file: File, m: Memory, fallback: File, n: Memory, before: seq<bool>, base: set<int32>,
      hasContext: bool, settings: Settings, pool: View, granted: seq<bool>)
    requires Some(settings) == StartSettings(file, m, fallback, n) && CleanSettings(settings) && pool.busy == {}
    requires granted == before + StartOutcomes(file, m, fallback, n)
    ensures Begun(file, m, fallback, n, before, base, hasContext,
                  Started(base, settings, hasContext, pool, granted)) == true
  {
  }

  /** The configuration main starts with: the file asked for, or else the default one; null ends the program. */
  method InitialConfig(process: Process, file: File, fallback: File)
    returns (config: DaemonConfig?, ghost m: Memory, ghost n: Memory)
    modifies process`allocations
    ensures process.allocations == old(process.allocations) + StartOutcomes(file, m, fallback, n)
    ensures config == null <==> NoConfig(file, m) && NoConfig(fallback, n)
    ensures config != null ==>
              && FreshConfig(config) && config.Valid() && CleanSettings(config.View()) == true
              && Some(config.View()) == StartSettings(file, m, fallback, n)
  {
    config, m := Load(process, file);
    n := m;
    LoadedIsClean(file, m);
    if config == null {
      config, n := Load(process, fallback);
      LoadedIsClean(fallback, n);
      AppendTwice(old(process.allocations), LoadOutcomes(file, m), LoadOutcomes(fallback, n));
    }
  }

  /** Nothing polled, and the startup load done. */
  function LoopStart(disk: File): Loop {
    EventRuns.Loop([], Reload.Record([], [disk], Reload.Started(0)), false)
  }

  /** The event loop of a new server. */
  method Launch(config: DaemonConfig, disk: File, rounds: nat, process: Process, base: set<int32>, context: Context?)
    returns (server: Server, ghost start: State, ghost evs: seq<Event>)
    requires config.Valid() && CleanSettings(config.View())
    requires context != null ==> context.Valid() && context.process == process && context.renderer.pool.Busy() == {}
    requires process.watched == {} && process.open == base && process.decisions == []
    modifies process, config.presets, config.presets.buckets
    modifies if context == null then {} else context.Repr() + context.renderer.pool.Members()
    ensures server.table.process == process && start.pool.busy == {}
    ensures start == Started(base, old(config.View()), context != null, start.pool, old(process.allocations))
    ensures server.HasRun(start, base, evs, rounds, LoopStart(disk)) == true
  {
    server := new Server(config, disk, process, base, context);
    start := server.Abs();
    evs := server.RunFromStart(rounds, base, start);
  }

  /**
   main, with the sockets set up: unless it ends at once it is one run of the machine from its start.
   `file` is the configuration asked for; reloads read the default path, which now holds `disk`.
   */
  method RunDaemon(file: File, disk: File, rounds: nat, process: Process, base: set<int32>, context: Context?)
    returns (server: Server?, ghost m: Memory, ghost n: Memory, ghost start: State, ghost evs: seq<Event>)
    requires context != null ==> context.Valid() && context.process == process && context.renderer.pool.Busy() == {}
    requires process.watched == {} && process.open == base && process.decisions == []
    modifies process
    modifies if context == null then {} else context.Repr() + context.renderer.pool.Members()
    ensures server == null <==> NoConfig(file, m) && NoConfig(disk, n)
    ensures server != null ==>
              && server.table.process == process
              && Begun(file, m, disk, n, old(process.allocations), base, context != null, start) == true
              && server.HasRun(start, base, evs, rounds, LoopStart(disk)) == true
  {
    var config;
    config, m, n := InitialConfig(process, file, disk);
    if config == null {
      return null, m, n, Started({}, Settings(None, []), false, NO_POOL, []), [];
    }
    ghost var settings, granted := config.View(), process.allocations;
    server, start, evs := Launch(config, disk, rounds, process, base, context);
    Begins(file, m, disk, n, old(process.allocations), base, context != null, settings, start.pool, granted);
  }
}
