/**
 Hot reload by SIGUSR1 (wlblurd/src/reload.c and the loop of wlblurd/src/main.c): a machine whose
 steps interleave freely, and the code, which takes its steps in the machine's order.
 */
module Reload {
  import opened Wrappers
  import opened Kernel
  import opened Config

  // ----- the machine -----

  /** Where the main loop stands. */
  datatype Pc = Checking | Clearing | Loading | Swapping | Waiting

  /**
   `now` ticks with every step; `signalled` and `began` are the times of the latest signal and of
   the start of the latest load; `file` and `read` are versions of the file, on disk and loaded.
   */
  datatype State = State(pc: Pc, flag: bool, now: nat, signalled: nat, began: nat, file: nat, read: nat)

  datatype Step = Edit | Signal | Main

  function Next(s: State, step: Step): State {
    var t := s.(now := s.now + 1);
    match step
    case Edit => t.(file := s.file + 1)
    case Signal => t.(flag := true, signalled := s.now)
    case Main =>
      match s.pc
      case Checking => t.(pc := if s.flag then Clearing else Waiting)
      case Clearing => t.(flag := false, pc := Loading)
      case Loading => t.(began := s.now, read := s.file, pc := Swapping)
      case Swapping => t.(pc := Waiting)
      case Waiting => t.(pc := Checking)
  }

  /** After startup, which has loaded the file once. */
  function Started(file: nat): State {
    State(Checking, false, 2, 0, 1, file, file)
  }

  function After(s: State, steps: seq<Step>): State {
    if steps == [] then s else Next(After(s, steps[..|steps| - 1]), steps[|steps| - 1])
  }

  ghost predicate NothingLost(s: State) {
    && s.began < s.now && s.signalled < s.now && s.read <= s.file
    && (s.flag || s.pc == Loading || s.began > s.signalled)
    && (s.pc == Clearing ==> s.flag)
  }

  /** In every reachable state the flag is set, or a load is about to start, or one began after the last signal. */
  lemma {:induction false} NoLostReload(file: nat, steps: seq<Step>)
    ensures NothingLost(After(Started(file), steps))
  {
    if steps != [] {
      NoLostReload(file, steps[..|steps| - 1]);
    }
  }

  /** A load began after that time, and what it read is at least that new. */
  predicate Served(s: State, time: nat, version: nat) {
    s.began > time && s.read >= version
  }

  /** Main-loop steps until then. */
  function Pending(s: State, time: nat, version: nat): nat {
    if Served(s, time, version) then 0
    else match s.pc
      case Loading => 1
      case Clearing => 2
      case Checking => 3
      case Waiting => 4
      case Swapping => 5
  }

  function MainSteps(steps: seq<Step>): nat {
    if steps == [] then 0
    else MainSteps(steps[..|steps| - 1]) + if steps[|steps| - 1].Main? then 1 else 0
  }

  ghost predicate Owed(s: State, time: nat, version: nat) {
    && time < s.now && version <= s.file && s.read <= s.file
    && (s.flag || s.pc == Loading || Served(s, time, version))
    && (s.pc == Clearing ==> s.flag)
  }

  lemma {:induction false} EveryMainStepCounts(s: State, steps: seq<Step>, time: nat, version: nat)
    requires Owed(s, time, version)
    ensures
      var t := After(s, steps);
      && Owed(t, time, version)
      && (Served(t, time, version) || Pending(t, time, version) + MainSteps(steps) <= Pending(s, time, version))
  {
    if steps != [] {
      EveryMainStepCounts(s, steps[..|steps| - 1], time, version);
    }
  }

  /**
   From any reachable state, a signal is followed within five steps of the main loop by a load
   that begins after the signal, whatever edits and signals come in between.
   */
  lemma SignalIsServed(file: nat, before: seq<Step>, steps: seq<Step>)
    requires MainSteps(steps) >= 5
    ensures
      var s := After(Started(file), before);
      var t := After(Next(s, Signal), steps);
      Next(s, Signal).signalled == s.now && t.began > s.now && t.read >= s.file
  {
    var s := After(Started(file), before);
    NoLostReload(file, before);
    EveryMainStepCounts(Next(s, Signal), steps, s.now, s.file);
  }

  lemma {:induction false} Resume(s: State, steps: seq<Step>, i: nat)
    requires i <= |steps|
    ensures After(s, steps) == After(After(s, steps[..i]), steps[i..])
  {
    if i == |steps| {
      assert steps[..i] == steps;
    } else {
      var init := steps[..|steps| - 1];
      Resume(s, init, i);
      assert init[..i] == steps[..i];
      assert steps[i..][..|steps[i..]| - 1] == init[i..];
    }
  }

  /** In any run of the machine, so in the code's, every signal is served once five main steps have followed it. */
  lemma EverySignalIsServed(file: nat, run: seq<Step>, i: nat)
    requires i < |run| && run[i].Signal? && MainSteps(run[i + 1..]) >= 5
    ensures
      var before, now := After(Started(file), run[..i]), After(Started(file), run);
      now.began > before.now && now.read >= before.file
  {
    Resume(Started(file), run, i + 1);
    assert run[..i + 1][..i] == run[..i];
    SignalIsServed(file, run[..i], run[i + 1..]);
  }

  // ----- what the code records -----

  /** The steps taken so far, the versions of the file and where the machine stands. */
  datatype Record = Record(run: seq<Step>, history: seq<File>, state: State)

  /** A later record of the same machine, at least so many main steps further. */
  ghost predicate Later(before: Record, after: Record, steps: nat) {
    && before.run <= after.run && MainSteps(after.run) >= MainSteps(before.run) + steps
    && before.history <= after.history
    && before.state.now <= after.state.now && before.state.file <= after.state.file
    && before.state.began <= after.state.began && before.state.read <= after.state.read
  }

  lemma StepIsLater(before: Record, step: Step, after: Record)
    requires NothingLost(before.state) && before.history <= after.history
    requires after.run == before.run + [step] && after.state == Next(before.state, step)
    ensures Later(before, after, if step.Main? then 1 else 0) == true
  {
    assert (before.run + [step])[..|before.run|] == before.run;
  }

  lemma LaterThen(a: Record, b: Record, c: Record, first: nat, second: nat)
    requires Later(a, b, first) && Later(b, c, second)
    ensures Later(a, c, first + second) == true
  {
  }

  lemma {:induction false} StepsOfParts(run: seq<Step>, i: nat)
    requires i <= |run|
    ensures MainSteps(run) == MainSteps(run[..i]) + MainSteps(run[i..])
  {
    if i == |run| {
      assert run[..i] == run;
    } else {
      var init := run[..|run| - 1];
      StepsOfParts(init, i);
      assert init[..i] == run[..i];
      assert run[i..][..|run[i..]| - 1] == init[i..];
    }
  }

  /** Two main steps to a round: whatever signal had come before three rounds has been served after them. */
  lemma ServedInThreeRounds(before: Record, after: Record, i: nat)
    requires Later(before, after, 6) && after.state == After(Started(0), after.run)
    requires i < |before.run| && before.run[i].Signal?
    ensures
      var signalled := After(Started(0), after.run[..i]);
      after.state.began > signalled.now && after.state.read >= signalled.file
  {
    assert after.run[..|before.run|] == before.run;
    StepsOfParts(after.run, i + 1);
    StepsOfParts(before.run, i + 1);
    assert after.run[..i + 1] == before.run[..i + 1];
    EverySignalIsServed(0, after.run, i);
  }

  // ----- the code -----

  /** The flag of reload.c and the file it reads, with the machine they take through its steps. */
  class Reloader {
    var requested: bool          // reload_requested
    var disk: File               // what the default path holds
    ghost var history: seq<File> // its contents, version by version
    ghost var state: State       // where the machine stands
    ghost var run: seq<Step>     // and how it got there

    ghost predicate Valid()
      reads this
    {
      && requested == state.flag && NothingLost(state)
      && |history| == state.file + 1 && history[state.file] == disk
      && state == After(Started(0), run)
    }

    ghost function Now(): Record
      reads this
    {
      Record(run, history, state)
    }

    constructor (disk: File)
      ensures Valid() && run == [] && state == Started(0) && history == [disk]
    {
      requested, this.disk, history, state, run := false, disk, [disk], Started(0), [];
    }

    /** One step of the machine, beside the code that takes it. */
    ghost method Take(step: Step)
      requires state == After(Started(0), run)
      modifies this`state, this`run
      ensures state == Next(old(state), step) && run == old(run) + [step]
      ensures state == After(Started(0), run) && NothingLost(state)
      ensures Later(old(Now()), Now(), if step.Main? then 1 else 0) == true
    {
      ghost var before := Now();
      assert (run + [step])[..|run|] == run;
      NoLostReload(0, run);
      state, run := Next(state, step), run + [step];
      NoLostReload(0, run);
      StepIsLater(before, step, Now());
    }

    /** Somebody changes the file. */
    method OnEdit(contents: File)
      requires Valid()
      modifies this
      ensures Valid() && state == Next(old(state), Edit) && run == old(run) + [Edit]
      ensures disk == contents && history == old(history) + [contents]
      ensures Later(old(Now()), Now(), 0) == true
    {
      disk, history := contents, history + [contents];
      Take(Edit);
    }

    /** sigusr1_handler */
    method OnSignal()
      requires Valid()
      modifies this`requested, this`state, this`run
      ensures Valid() && requested && state == Next(old(state), Signal) && run == old(run) + [Signal]
      ensures Later(old(Now()), Now(), 0) == true
    {
      requested := true;
      Take(Signal);
    }

    /** One of the things that may happen between two statements of the main loop: a signal, or an edit of the
        file. */
    method InterruptOnce()
      requires Valid()
      modifies this
      ensures Valid() == true && state.pc == old(state.pc) && (old(requested) ==> requested)
      ensures state.began == old(state.began) && state.read == old(state.read)
      ensures Later(old(Now()), Now(), 0) == true
    {
      var signal: bool := *;
      if signal {
        OnSignal();
      } else {
        var contents: File := *;
        OnEdit(contents);
      }
    }

    /** Any number of them. */
    method Interrupt()
      requires Valid()
      modifies this
      ensures Valid() == true && state.pc == old(state.pc) && (old(requested) ==> requested)
      ensures state.began == old(state.began) && state.read == old(state.read) && old(history) <= history
      ensures Later(old(Now()), Now(), 0) == true
    {
      var left: int := *;
      ghost var before := Now();
      while left > 0
        invariant Valid() == true && state.pc == before.state.pc && (old(requested) ==> requested)
        invariant state.began == before.state.began && state.read == before.state.read
        invariant Later(before, Now(), 0) == true
      {
        left := left - 1;
        ghost var mid := Now();
        InterruptOnce();
        LaterThen(before, mid, Now(), 0, 0);
      }
    }

    /** reload_pending */
    method IsPending() returns (pending: bool)
      requires Valid() && state.pc == Checking
      modifies this`state, this`run
      ensures Valid() && pending == requested && state == Next(old(state), Main)
      ensures Later(old(Now()), Now(), 1) == true
    {
      pending := requested;
      Take(Main);
    }

    /** reload_pending, after whatever has come before it. */
    method CheckPending() returns (pending: bool)
      requires Valid() && state.pc == Checking
      modifies this
      ensures Valid() == true && (old(requested) ==> pending) && old(history) <= history
      ensures state.read == old(state.read) && state.began == old(state.began)
      ensures state.pc == if pending then Clearing else Waiting
      ensures Later(old(Now()), Now(), 1) == true
    {
      ghost var start := Now();
      Interrupt();
      ghost var mid := Now();
      pending := IsPending();
      LaterThen(start, mid, Now(), 0, 1);
    }

    /** reload_requested = 0 */
    method Clear()
      requires Valid() && state.pc == Clearing
      modifies this`requested, this`state, this`run
      ensures Valid() == true && state.pc == Loading && Later(old(Now()), Now(), 1) == true
    {
      requested := false;
      Take(Main);
    }

    /** The file as it is at this moment, for the machine and for the code. */
    method ReadFile() returns (file: File)
      requires Valid() && state.pc == Loading
      modifies this`state, this`run
      ensures Valid() == true && state == Next(old(state), Main) && state.pc == Swapping
      ensures state.read < |history| && file == history[state.read] && state.began > 1
      ensures Later(old(Now()), Now(), 1) == true
    {
      file := disk;
      Take(Main);
    }

    /** From the call to the load: signals may still come before and after the flag is cleared. */
    method ClearThenRead() returns (file: File)
      requires Valid() && state.pc == Clearing
      modifies this
      ensures Valid() == true && state.pc == Swapping && old(history) <= history
      ensures state.read < |history| && file == history[state.read] && state.began > 1
      ensures Later(old(Now()), Now(), 2) == true
      ensures state.began >= old(state.now) && state.read >= old(state.file)
    {
      ghost var before := Now();
      Interrupt();
      ghost var called := Now();
      Clear();
      LaterThen(before, called, Now(), 0, 1);
      ghost var cleared := Now();
      Interrupt();
      LaterThen(before, cleared, Now(), 1, 0);
      ghost var ready := Now();
      file := ReadFile();
      LaterThen(before, ready, Now(), 1, 1);
    }

    /** handle_config_reload: a signal after the flag is cleared is not lost, since the file is read later still. */
    method HandleConfigReload(process: Process) returns (c: DaemonConfig?, ghost m: Memory)
      requires Valid() && state.pc == Clearing
      modifies this, process`allocations
      ensures Valid() && state.pc == Swapping && old(history) <= history
      ensures requested || state.began > state.signalled
      ensures state.read < |history| && state.began > 1
      ensures Later(old(Now()), Now(), 2) == true
      ensures state.began >= old(state.now) && state.read >= old(state.file)
      ensures process.allocations == old(process.allocations) + LoadOutcomes(history[state.read], m)
      ensures c == null <==> NoConfig(history[state.read], m)
      ensures c != null ==> FreshConfig(c) && c.Valid() && LoadedWith(history[state.read], m) == Some(c.View())
    {
      ghost var before := Now();
      var file := ClearThenRead();
      c, m := LoadForReload(process, file);
      ghost var loaded := Now();
      Interrupt();
      LaterThen(before, loaded, Now(), 2, 0);
    }

    /** After the pointer swap, or without one. */
    ghost method Swapped()
      requires Valid() && state.pc == Swapping
      modifies this`state, this`run
      ensures Valid() && state.pc == Waiting && state == Next(old(state), Main)
      ensures Later(old(Now()), Now(), 1) == true
    {
      Take(Main);
    }

    /** After epoll_wait and its events. */
    ghost method Wake()
      requires Valid() && state.pc == Waiting
      modifies this`state, this`run
      ensures Valid() && state.pc == Checking && state == Next(old(state), Main)
      ensures Later(old(Now()), Now(), 1) == true
    {
      Take(Main);
    }
  }
}
