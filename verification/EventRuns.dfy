/**
 Runs of the machine as the event loop makes them: batches of what epoll reports, one after the
 other, and what holds at the end of a daemon's life.
 */
module EventRuns {
  import opened CTypes
  import opened Wrappers
  import opened Kernel
  import opened Kawase
  import opened Config
  import opened DaemonState
  import opened DaemonRuns
  import opened DaemonTheorems
  import opened DaemonRenders
  import Reload

  /** The event a report leads to. */
  ghost predicate Leads(r: Ready, ev: Event) {
    match r
    case NewConnection => ev.Accept?
    case Broken(fd) => ev == HangUp(fd)
    case Readable(fd) => ev.Data? && ev.fd == fd
  }

  /** Events for the reports so far, in order. */
  ghost predicate LeadTo(ready: seq<Ready>, evs: seq<Event>) {
    |evs| <= |ready| && forall i | 0 <= i < |evs| :: Leads(ready[i], evs[i])
  }

  lemma LeadToNext(ready: seq<Ready>, evs: seq<Event>, ev: Event)
    requires LeadTo(ready, evs) && |evs| < |ready| && Leads(ready[|evs|], ev)
    ensures LeadTo(ready, evs + [ev]) == true
  {
  }

  /** A reported batch leads to a batch of events. */
  lemma ReportedIsBatch(s: State, ready: seq<Ready>, evs: seq<Event>)
    requires Reported(s.watched, ready) && |evs| == |ready|
    requires LeadTo(ready, evs)
    ensures Batch(s, evs)
  {
    forall i, j | 0 <= i < j < |evs| && Target(evs[i]).Some?
      ensures Target(evs[i]) != Target(evs[j])
    {
      assert Leads(ready[i], evs[i]) && Leads(ready[j], evs[j]);
    }
  }

  // ----- what was polled -----

  /** All reports, poll by poll. */
  ghost function ReportsOf(polls: seq<Poll>): seq<Ready> {
    if polls == [] then []
    else ReportsOf(polls[..|polls| - 1]) + if polls[|polls| - 1].Reports? then polls[|polls| - 1].ready else []
  }

  /** The events that are not reloads. */
  ghost function Handled(evs: seq<Event>): seq<Event> {
    if evs == [] then []
    else Handled(evs[..|evs| - 1]) + if evs[|evs| - 1].ReloadDone? then [] else [evs[|evs| - 1]]
  }

  /** Every report of the polls since `before` has led to its event, in order, and no other event was handled. */
  ghost predicate Polled(before: seq<Poll>, after: seq<Poll>, evs: seq<Event>) {
    && before <= after
    && |Handled(evs)| == |ReportsOf(after[|before|..])|
    && LeadTo(ReportsOf(after[|before|..]), Handled(evs))
  }

  lemma {:induction false} ReportsConcat(a: seq<Poll>, b: seq<Poll>)
    ensures ReportsOf(a + b) == ReportsOf(a) + ReportsOf(b)
  {
    if b == [] {
      assert a + b == a;
    } else {
      var init := b[..|b| - 1];
      ReportsConcat(a, init);
      assert (a + b)[..|a + b| - 1] == a + init;
    }
  }

  lemma {:induction false} HandledConcat(a: seq<Event>, b: seq<Event>)
    ensures Handled(a + b) == Handled(a) + Handled(b)
  {
    if b == [] {
      assert a + b == a;
    } else {
      var init := b[..|b| - 1];
      HandledConcat(a, init);
      assert (a + b)[..|a + b| - 1] == a + init;
    }
  }

  lemma {:induction false} AllHandled(evs: seq<Event>)
    requires forall ev | ev in evs :: !ev.ReloadDone?
    ensures Handled(evs) == evs
  {
    if evs != [] {
      var init := evs[..|evs| - 1];
      AllHandled(init);
      assert evs[|evs| - 1] in evs && evs == init + [evs[|evs| - 1]];
    }
  }

  lemma PolledThen(a: seq<Poll>, b: seq<Poll>, c: seq<Poll>, first: seq<Event>, second: seq<Event>)
    requires Polled(a, b, first) && Polled(b, c, second)
    ensures Polled(a, c, first + second) == true
  {
    ReportsConcat(b[|a|..], c[|b|..]);
    HandledConcat(first, second);
    assert c[|a|..] == b[|a|..] + c[|b|..];
  }

  lemma NotPolled(polls: seq<Poll>, evs: seq<Event>)
    requires forall ev | ev in evs :: ev.ReloadDone?
    ensures Polled(polls, polls, evs) == true
  {
    NoneHandled(evs);
    assert polls[|polls|..] == [];
  }

  lemma {:induction false} NoneHandled(evs: seq<Event>)
    requires forall ev | ev in evs :: ev.ReloadDone?
    ensures Handled(evs) == []
  {
    if evs != [] {
      NoneHandled(evs[..|evs| - 1]);
      assert evs[|evs| - 1] in evs;
    }
  }

  /** One poll, and what was made of it. */
  lemma PolledOnce(before: seq<Poll>, poll: Poll, evs: seq<Event>)
    requires if poll.Reports? then |evs| == |poll.ready| && LeadTo(poll.ready, evs) else evs == []
    ensures Polled(before, before + [poll], evs) == true
    ensures forall ev | ev in evs :: !ev.ReloadDone?
  {
    forall ev | ev in evs
      ensures !ev.ReloadDone?
    {
      var i :| 0 <= i < |evs| && evs[i] == ev;
      assert Leads(poll.ready[i], evs[i]);
    }
    AllHandled(evs);
    assert (before + [poll])[|before|..] == [poll];
    assert [poll][..0] == [];
    assert ReportsOf([poll]) == ReportsOf([poll][..0]) + if poll.Reports? then poll.ready else [];
  }

  /** So many polls, unless one fails: that one is the last. */
  ghost predicate Rounds(before: seq<Poll>, after: seq<Poll>, rounds: nat) {
    && before <= after && |after| <= |before| + rounds
    && (forall i | |before| <= i < |after| - 1 :: !after[i].Failed?)
    && (|after| == |before| + rounds || (|after| > |before| && after[|after| - 1].Failed?))
  }

  /** Where the loop stands: the polls so far, the reload machine, and its flag. */
  datatype Loop = Loop(polls: seq<Poll>, machine: Reload.Record, requested: bool)

  /**
   From one round to a later one every report was handled, every round took two steps of the reload
   machine at least, and a signal that had come before was served: a load began since, and read the
   file as it was then or newer.
   */
  ghost predicate Turned(before: Loop, after: Loop, evs: seq<Event>) {
    && Polled(before.polls, after.polls, evs)
    && Reload.Later(before.machine, after.machine, 2 * (|after.polls| - |before.polls|))
    && (|after.polls| == |before.polls| ==> after == before)
    && (before.requested && after != before ==>
          && after.machine.state.began >= before.machine.state.now
          && after.machine.state.read >= before.machine.state.file)
  }

  lemma NotTurned(loop: Loop)
    ensures Turned(loop, loop, []) == true
  {
    NotPolled(loop.polls, []);
  }

  lemma TurnedThen(a: Loop, b: Loop, c: Loop, first: seq<Event>, second: seq<Event>)
    requires Turned(a, b, first) && Turned(b, c, second)
    ensures Turned(a, c, first + second) == true
  {
    PolledThen(a.polls, b.polls, c.polls, first, second);
    Reload.LaterThen(a.machine, b.machine, c.machine, 2 * (|b.polls| - |a.polls|), 2 * (|c.polls| - |b.polls|));
  }

  /** One round: a reload if one is due, then a poll and its reports. */
  lemma TurnedOnce(before: Loop, mid: Reload.Record, poll: Poll, after: Loop, reload: seq<Event>, batch: seq<Event>)
    requires after.polls == before.polls + [poll] && Polled(before.polls, before.polls, reload)
    requires Polled(before.polls, after.polls, batch)
    requires Reload.Later(before.machine, mid, 1) && Reload.Later(mid, after.machine, 1)
    requires before.requested ==>
               mid.state.began >= before.machine.state.now && mid.state.read >= before.machine.state.file
    ensures Turned(before, after, reload + batch) == true
  {
    PolledThen(before.polls, before.polls, after.polls, reload, batch);
    Reload.LaterThen(before.machine, mid, after.machine, 1, 1);
  }

  /** So many polls so far, and none has failed. */
  ghost predicate Going(before: seq<Poll>, after: seq<Poll>, rounds: nat) {
    && before <= after && |after| == |before| + rounds
    && forall i | |before| <= i < |after| :: !after[i].Failed?
  }

  lemma OneRoundMore(before: seq<Poll>, polls: seq<Poll>, poll: Poll, i: nat, rounds: nat)
    requires Going(before, polls, i) && i < rounds
    ensures if poll.Failed? then Rounds(before, polls + [poll], rounds) == true
            else Going(before, polls + [poll], i + 1) == true
  {
  }

  // ----- what no run can break, however many ids it takes -----

  /** Only open descriptors are watched. */
  ghost predicate Tidy(s: State) {
    s.watched <= s.open
  }

  lemma StepIsTidy(s: State, ev: Event)
    requires Tidy(s) && Possible(s, ev)
    ensures Tidy(Step(s, ev))
    ensures forall fd | fd in s.watched && Target(ev) != Some(fd) :: fd in Step(s, ev).watched
  {
    if ev.Data? {
      assert s.open <= Step(s, ev).open;
    }
  }

  /** A run can be made, and it is tidy at its end. */
  ghost predicate Reached(s: State, evs: seq<Event>) {
    Feasible(s, evs) && Tidy(After(s, evs))
  }

  lemma ReachedNow(s: State)
    requires Tidy(s)
    ensures Reached(s, []) == true && After(s, []) == s
  {
  }

  /** One event more; descriptors it is not about stay watched. */
  lemma Extend(s: State, evs: seq<Event>, ev: Event)
    requires Reached(s, evs) && Possible(After(s, evs), ev)
    ensures After(s, evs + [ev]) == Step(After(s, evs), ev)
    ensures Reached(s, evs + [ev]) == true
    ensures forall fd | fd in After(s, evs).watched && Target(ev) != Some(fd) :: fd in After(s, evs + [ev]).watched
  {
    assert (evs + [ev])[..|evs|] == evs;
    StepIsTidy(After(s, evs), ev);
  }

  /** The descriptors of the reports from this one on are still watched. */
  ghost predicate StillWatched(watched: set<int32>, ready: seq<Ready>, i: nat) {
    forall k | i <= k < |ready| && !ready[k].NewConnection? :: ready[k].fd in watched
  }

  lemma OneReportLess(s: State, evs: seq<Event>, ev: Event, ready: seq<Ready>)
    requires Reached(s, evs) && Possible(After(s, evs), ev) && Once(ready)
    requires |evs| < |ready| && Leads(ready[|evs|], ev) && StillWatched(After(s, evs).watched, ready, |evs|)
    ensures StillWatched(After(s, evs + [ev]).watched, ready, |evs| + 1) == true
  {
    Extend(s, evs, ev);
    forall k | |evs| < k < |ready| && !ready[k].NewConnection?
      ensures ready[k].fd in After(s, evs + [ev]).watched
    {
      assert Target(ev) != Some(ready[k].fd);
    }
  }

  /** A run and another from where it ends are one run. */
  lemma {:induction false} Concatenate(s: State, first: seq<Event>, second: seq<Event>)
    requires Feasible(s, first) && Feasible(After(s, first), second)
    ensures Feasible(s, first + second)
    ensures After(s, first + second) == After(After(s, first), second)
  {
    if second == [] {
      assert first + second == first;
    } else {
      var init := second[..|second| - 1];
      Concatenate(s, first, init);
      assert (first + second)[..|first + second| - 1] == first + init;
    }
  }

  lemma Join(s: State, first: seq<Event>, second: seq<Event>) returns (all: seq<Event>)
    requires Reached(s, first) && Reached(After(s, first), second)
    ensures all == first + second && After(s, all) == After(After(s, first), second)
    ensures Reached(s, all) == true
  {
    all := first + second;
    Concatenate(s, first, second);
  }

  /** One event as a run of its own. */
  lemma Alone(s: State, ev: Event, next: State) returns (run: seq<Event>)
    requires Tidy(s) && Possible(s, ev) && next == Step(s, ev)
    ensures run == [ev] && After(s, run) == next && Reached(s, run) == true
  {
    ReachedNow(s);
    Extend(s, [], ev);
    run := [] + [ev];
  }

  // ----- the settings in force -----

  predicate Granted(allocations: seq<bool>) {
    forall ok | ok in allocations :: ok
  }

  /**
   Unless an allocation has failed, the settings in force are those of the version of the file that
   the latest reload has read; before the first reload, whatever the daemon was started with.
   */
  ghost predicate InForce(settings: Settings, allocations: seq<bool>, history: seq<File>, r: Reload.State) {
    && r.read < |history|
    && (Granted(allocations) && r.began > 1 ==> settings == LoadedSettings(history[r.read]))
  }

  lemma StillInForce(settings: Settings, allocations: seq<bool>, history: seq<File>, r: Reload.State,
      later: seq<bool>, longer: seq<File>, now: Reload.State)
    requires InForce(settings, allocations, history, r)
    requires allocations <= later && history <= longer && now.began == r.began && now.read == r.read
    ensures InForce(settings, later, longer, now) == true
  {
    assert forall ok | ok in allocations :: ok in later;
  }

  /** After a reload: what was loaded if it could be, and otherwise an allocation has failed. */
  lemma ReloadedIsInForce(live: Settings, before: seq<bool>, history: seq<File>, r: Reload.State, m: Memory)
    requires r.read < |history|
    ensures InForce(AfterReload(live, history[r.read], m), before + LoadOutcomes(history[r.read], m), history,
            r) == true
  {
    var outcomes := LoadOutcomes(history[r.read], m);
    assert forall ok | ok in outcomes :: ok in before + outcomes;
    if Granted(before + outcomes) {
      LoadedInFull(history[r.read], m);
    }
  }

  lemma {:induction false} AllocationsGrow(s: State, evs: seq<Event>)
    ensures s.allocations <= After(s, evs).allocations
    ensures (forall ev | ev in evs :: !ev.ReloadDone?) ==> After(s, evs).settings == s.settings
  {
    if evs != [] {
      var init, last := evs[..|evs| - 1], evs[|evs| - 1];
      AllocationsGrow(s, init);
      StepAllocates(After(s, init), last);
      assert last in evs;
    }
  }

  lemma StepAllocates(s: State, ev: Event)
    ensures s.allocations <= Step(s, ev).allocations
    ensures !ev.ReloadDone? ==> Step(s, ev).settings == s.settings
  {
  }

  // ----- a whole life -----

  /** What holds of a daemon's state after a run from its start. */
  ghost predicate Lived(s: State, base: set<int32>, evs: seq<Event>, now: State) {
    && Feasible(s, evs) && now == After(s, evs)
    && RenderCount(s, evs) <= 7
    && (Bounded(s, evs) ==> Inv(now, base) && Balanced(now, base, LeakedBy(evs)))
  }

  lemma Life(base: set<int32>, settings: Settings, hasContext: bool, pool: View, granted: seq<bool>, evs: seq<Event>,
      now: State)
    requires CleanSettings(settings) && pool.busy == {}
    requires var s := Started(base, settings, hasContext, pool, granted);
             Feasible(s, evs) && now == After(s, evs)
    ensures Lived(Started(base, settings, hasContext, pool, granted), base, evs, now) == true
  {
    var s := Started(base, settings, hasContext, pool, granted);
    StartedOk(base, settings, hasContext, pool, granted);
    AtMostSevenRenders(base, settings, hasContext, pool, granted, evs);
    if Bounded(s, evs) {
      RunKeeps(s, base, evs);
      OpenInRun(s, base, evs);
    }
  }
}
