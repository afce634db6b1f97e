/** What every run of the daemon keeps, proved over the steps of `DaemonState`. */
module DaemonRuns {
  import opened CTypes
  import opened NodeList
  import opened Kawase
  import opened Config
  import opened Protocol
  import opened DaemonState

  // ----- the invariant -----

  ghost predicate ActiveClient(s: State, id: uint32) {
    exists i :: 0 <= i < |s.clients| && s.clients[i].active && s.clients[i].id == id
  }

  ghost function ActiveFds(clients: seq<Slot>): set<int32> {
    set i | 0 <= i < |clients| && clients[i].active :: clients[i].fd
  }

  /** Slots: ids and descriptors are pairwise different, and ids were issued. */
  ghost predicate ClientsOk(clients: seq<Slot>, nextClient: uint32) {
    && |clients| == MAX_CLIENTS
    && (forall i | 0 <= i < |clients| && clients[i].active :: 0 < clients[i].id < nextClient)
    && (forall i, j | 0 <= i < j < |clients| && clients[i].active && clients[j].active ::
          clients[i].id != clients[j].id && clients[i].fd != clients[j].fd)
  }

  /** Nodes: ids are pairwise different and were issued, and no client has more than its hundred. */
  ghost predicate NodesOk(nodes: seq<Node>, nextNode: uint32) {
    && DistinctIds(nodes)
    && (forall n | n in nodes :: 0 < n.id < nextNode)
    && (forall c :: CountOf(nodes, c) <= MAX_NODES_PER_CLIENT)
  }

  /** `base` are the two descriptors of the event loop itself. */
  ghost predicate Inv(s: State, base: set<int32>) {
    && ClientsOk(s.clients, s.nextClient)
    && NodesOk(s.nodes, s.nextNode)
    && s.nextClient > 0 && s.nextNode > 0
    && (forall n | n in s.nodes :: ActiveClient(s, n.client))
    && s.watched == ActiveFds(s.clients)
    && base + s.watched <= s.open && base !! s.watched
    && CleanSettings(s.settings)
  }

  /** The counters did not wrap in this step. */
  ghost predicate NoWrap(s: State) {
    s.nextClient != 0 && s.nextNode != 0
  }

  lemma FdsOfUpdate(clients: seq<Slot>, i: nat, slot: Slot)
    requires i < |clients|
    requires forall j, k | 0 <= j < k < |clients| && clients[j].active && clients[k].active ::
               clients[j].fd != clients[k].fd
    ensures ActiveFds(clients[i := slot])
            == ActiveFds(clients) - (if clients[i].active then {clients[i].fd} else {})
               + (if slot.active then {slot.fd} else {})
  {
    var updated := clients[i := slot];
    forall f | f in ActiveFds(clients) && !(clients[i].active && clients[i].fd == f)
      ensures f in ActiveFds(updated)
    {
      var j :| 0 <= j < |clients| && clients[j].active && clients[j].fd == f;
      assert updated[j] == clients[j];
    }
    if slot.active {
      assert updated[i].fd == slot.fd;
    }
  }

  lemma NewClient(s: State, base: set<int32>, i: nat, newFd: int32)
    requires Inv(s, base) && newFd !in s.watched && i < |s.clients| && !s.clients[i].active
             && NextId(s.nextClient) != 0
    ensures ClientsOk(s.clients[i := Slot(newFd, s.nextClient, true)], NextId(s.nextClient))
    ensures ActiveFds(s.clients[i := Slot(newFd, s.nextClient, true)]) == s.watched + {newFd}
  {
    FdsOfUpdate(s.clients, i, Slot(newFd, s.nextClient, true));
    forall j | 0 <= j < |s.clients| && s.clients[j].active
      ensures s.clients[j].fd != newFd
    {
      assert s.clients[j].fd in s.watched;
    }
  }

  lemma AcceptKeeps(s: State, base: set<int32>, newFd: int32, added: bool)
    requires Inv(s, base) && (newFd < 0 || newFd !in s.open) && NoWrap(AcceptStep(s, newFd, added))
    ensures Inv(AcceptStep(s, newFd, added), base)
  {
    var i, t := FreeSlot(s.clients), AcceptStep(s, newFd, added);
    if newFd >= 0 && added && i < |s.clients| {
      NewClient(s, base, i, newFd);
      forall n | n in t.nodes
        ensures ActiveClient(t, n.client)
      {
        var j :| 0 <= j < |s.clients| && s.clients[j].active && s.clients[j].id == n.client;
        assert t.clients[j] == s.clients[j];
      }
    }
  }

  lemma HangUpKeeps(s: State, base: set<int32>, fd: int32)
    requires Inv(s, base)
    ensures Inv(HangUpStep(s, fd), base)
  {
    var i, t := SlotOf(s.clients, fd), HangUpStep(s, fd);
    if i < |s.clients| {
      var id := s.clients[i].id;
      FdsOfUpdate(s.clients, i, FREE_SLOT);
      assert fd in s.watched;
      OthersMembers(s.nodes, id);
      forall c
        ensures CountOf(t.nodes, c) <= MAX_NODES_PER_CLIENT
      {
        OthersCount(s.nodes, id, c);
      }
      forall n | n in t.nodes
        ensures ActiveClient(t, n.client)
      {
        var j :| 0 <= j < |s.clients| && s.clients[j].active && s.clients[j].id == n.client;
        assert t.clients[j] == s.clients[j];
      }
    } else {
      assert fd !in s.watched;
    }
  }

  lemma CreateKeepsNodes(nodes: seq<Node>, nextNode: uint32, node: Node)
    requires NodesOk(nodes, nextNode) && nextNode > 0 && NextId(nextNode) != 0
    requires node.id == nextNode && CountOf(nodes, node.client) < MAX_NODES_PER_CLIENT
    ensures NodesOk([node] + nodes, NextId(nextNode))
  {
    Cons(node, nodes);
    assert NextId(nextNode) == nextNode + 1;
  }

  lemma RemoveKeepsNodes(nodes: seq<Node>, nextNode: uint32, id: uint32)
    requires NodesOk(nodes, nextNode)
    ensures NodesOk(RemoveId(nodes, id), nextNode)
  {
    RemoveIdMembers(nodes, id);
    forall c
      ensures CountOf(RemoveId(nodes, id), c) <= MAX_NODES_PER_CLIENT
    {
      RemoveIdCount(nodes, id, c);
    }
  }

  lemma RequestKeeps(s: State, base: set<int32>, client: uint32, r: Request, inputFd: int32, memory: bool, blur: Blur)
    requires Inv(s, base) && ActiveClient(s, client)
    requires NoWrap(RequestStep(s, client, r, inputFd, memory, blur))
    ensures Inv(RequestStep(s, client, r, inputFd, memory, blur), base)
  {
    var t := RequestStep(s, client, r, inputFd, memory, blur);
    if r.op == OP_CREATE_NODE && CountOf(s.nodes, client) < MAX_NODES_PER_CLIENT && memory {
      CreateKeepsNodes(s.nodes, s.nextNode, t.nodes[0]);
    } else if r.op == OP_DESTROY_NODE && Owns(s, client, r.nodeId) {
      RemoveKeepsNodes(s.nodes, s.nextNode, r.nodeId);
      RemoveIdMembers(s.nodes, r.nodeId);
    }
    forall n | n in t.nodes
      ensures ActiveClient(t, n.client)
    {
      assert n in s.nodes || n.client == client;
      var j :| 0 <= j < |s.clients| && s.clients[j].active && s.clients[j].id == n.client;
      assert t.clients[j] == s.clients[j];
    }
  }

  /** What is open besides plays no part. */
  lemma OpenMore(s: State, base: set<int32>, t: State)
    requires Inv(s, base) && s.watched <= t.open && base <= t.open
    requires t == s.(open := t.open, sent := t.sent, decisions := t.decisions)
    ensures Inv(t, base)
  {
    forall n | n in t.nodes
      ensures ActiveClient(t, n.client)
    {
      var j :| 0 <= j < |s.clients| && s.clients[j].active && s.clients[j].id == n.client;
      assert t.clients[j] == s.clients[j];
    }
  }

  lemma DataKeeps(s: State, base: set<int32>, fd: int32, m: Message, memory: bool, blur: Blur)
    requires Inv(s, base) && NoWrap(DataStep(s, fd, m, memory, blur))
    ensures Inv(DataStep(s, fd, m, memory, blur), base)
  {
    var heard := Hearing(s, m);
    OpenMore(s, base, heard);
    if Dispatched(s, fd, m) {
      var client := s.clients[SlotOf(s.clients, fd)].id;
      assert heard.clients[SlotOf(s.clients, fd)].id == client;
      RequestKeeps(heard, base, client, m.request.value, m.inputFd, memory, blur);
      OpenMore(RequestStep(heard, client, m.request.value, m.inputFd, memory, blur), base,
               DataStep(s, fd, m, memory, blur));
    } else {
      OpenMore(s, base, DataStep(s, fd, m, memory, blur));
    }
  }

  /** Every step keeps the invariant as long as no id counter wraps. */
  lemma StepKeeps(s: State, base: set<int32>, ev: Event)
    requires Inv(s, base) && Possible(s, ev) && NoWrap(Step(s, ev))
    ensures Inv(Step(s, ev), base)
  {
    match ev
    case Accept(newFd, added) => AcceptKeeps(s, base, newFd, added);
    case HangUp(fd) => HangUpKeeps(s, base, fd);
    case Data(fd, m, memory, blur) =>
      DataKeeps(s, base, fd, m, memory, blur);
    case ReloadDone(loaded, _) =>
      forall n | n in s.nodes
        ensures ActiveClient(Step(s, ev), n.client)
      {
        var j :| 0 <= j < |s.clients| && s.clients[j].active && s.clients[j].id == n.client;
        assert Step(s, ev).clients[j] == s.clients[j];
      }
  }

  // ----- runs -----

  ghost function After(s: State, evs: seq<Event>): State {
    if evs == [] then s else Step(After(s, evs[..|evs| - 1]), evs[|evs| - 1])
  }

  ghost predicate Feasible(s: State, evs: seq<Event>) {
    evs != [] ==> Feasible(s, evs[..|evs| - 1]) && Possible(After(s, evs[..|evs| - 1]), evs[|evs| - 1])
  }

  /** How many ids of each kind a run has issued. */
  ghost function NodesIssued(s: State, evs: seq<Event>): nat {
    if evs == [] then 0
    else NodesIssued(s, evs[..|evs| - 1])
         + if After(s, evs).nextNode != After(s, evs[..|evs| - 1]).nextNode then 1 else 0
  }

  ghost function ClientsIssued(s: State, evs: seq<Event>): nat {
    if evs == [] then 0
    else ClientsIssued(s, evs[..|evs| - 1])
         + if After(s, evs).nextClient != After(s, evs[..|evs| - 1]).nextClient then 1 else 0
  }

  /** Fewer than 2^32 - 1 nodes and as many clients so far. */
  ghost predicate Bounded(s: State, evs: seq<Event>) {
    s.nextNode + NodesIssued(s, evs) < TWO32 && s.nextClient + ClientsIssued(s, evs) < TWO32
  }

  lemma StepCounts(s: State, ev: Event)
    ensures Step(s, ev).nextNode == s.nextNode || s.nextNode + 1 == TWO32 || Step(s, ev).nextNode == s.nextNode + 1
    ensures Step(s, ev).nextClient == s.nextClient || s.nextClient + 1 == TWO32
            || Step(s, ev).nextClient == s.nextClient + 1
  {
  }

  lemma {:induction false} CountersCount(s: State, evs: seq<Event>)
    requires Bounded(s, evs)
    ensures After(s, evs).nextNode == s.nextNode + NodesIssued(s, evs)
    ensures After(s, evs).nextClient == s.nextClient + ClientsIssued(s, evs)
  {
    if evs != [] {
      var init := evs[..|evs| - 1];
      CountersCount(s, init);
      var t, ev := After(s, init), evs[|evs| - 1];
      StepCounts(t, ev);
    }
  }

  /** The state at startup, with the two descriptors of the event loop open. */
  function Started(base: set<int32>, settings: Settings, hasContext: bool, pool: View, granted: seq<bool>): (s: State)
    ensures |s.clients| == MAX_CLIENTS && forall i | 0 <= i < MAX_CLIENTS :: s.clients[i] == UNUSED_SLOT
  {
    State([], 1, seq(MAX_CLIENTS, _ => UNUSED_SLOT), 1, base, {}, settings, hasContext, pool, [], [], granted)
  }

  lemma StartedOk(base: set<int32>, settings: Settings, hasContext: bool, pool: View, granted: seq<bool>)
    requires CleanSettings(settings)
    ensures Inv(Started(base, settings, hasContext, pool, granted), base)
  {
    var s := Started(base, settings, hasContext, pool, granted);
    assert ActiveFds(s.clients) == {};
  }

  /** The invariant holds in every state of every run that has not exhausted the 32-bit ids. */
  lemma {:induction false} RunKeeps(s: State, base: set<int32>, evs: seq<Event>)
    requires Inv(s, base) && Feasible(s, evs) && Bounded(s, evs)
    ensures Inv(After(s, evs), base) && NoWrap(After(s, evs))
  {
    CountersCount(s, evs);
    if evs != [] {
      RunKeeps(s, base, evs[..|evs| - 1]);
      StepKeeps(After(s, evs[..|evs| - 1]), base, evs[|evs| - 1]);
    }
  }
}
