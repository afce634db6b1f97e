/** Consequences for whole runs: isolation, no resurrection, descriptors, and the safety of a batch. */
module DaemonTheorems {
  import opened CTypes
  import opened Wrappers
  import opened Kernel
  import opened NodeList
  import opened Protocol
  import opened DaemonState
  import opened DaemonRuns
  import Dmabuf

  // ----- isolation -----

  /** Whatever a client asks for, the nodes of everybody else stay, in their order. */
  lemma RequestIsolation(s: State, client: uint32, r: Request, inputFd: int32, memory: bool, blur: Blur)
    ensures Others(RequestStep(s, client, r, inputFd, memory, blur).nodes, client) == Others(s.nodes, client)
    ensures RequestStep(s, client, r, inputFd, memory, blur).clients == s.clients
  {
    if r.op == OP_CREATE_NODE && CountOf(s.nodes, client) < MAX_NODES_PER_CLIENT && memory {
      Cons(RequestStep(s, client, r, inputFd, memory, blur).nodes[0], s.nodes);
    } else if r.op == OP_DESTROY_NODE && Owns(s, client, r.nodeId) {
      RemoveIdOthers(s.nodes, r.nodeId, client);
    }
  }

  // ----- ids that are gone stay gone -----

  ghost predicate NodeGone(s: State, id: uint32) {
    id < s.nextNode && forall n | n in s.nodes :: n.id != id
  }

  ghost predicate ClientGone(s: State, id: uint32) {
    id < s.nextClient && !ActiveClient(s, id)
  }

  lemma NodeStaysGone(s: State, ev: Event, id: uint32)
    requires NodeGone(s, id) && Step(s, ev).nextNode != 0
    ensures NodeGone(Step(s, ev), id)
  {
    match ev
    case Accept(_, _) =>
    case HangUp(fd) =>
      if SlotOf(s.clients, fd) < |s.clients| {
        OthersMembers(s.nodes, s.clients[SlotOf(s.clients, fd)].id);
      }
    case Data(fd, m, memory, blur) =>
      if Dispatched(s, fd, m) && m.request.value.op == OP_DESTROY_NODE {
        RemoveIdSubset(s.nodes, m.request.value.nodeId);
      }
    case ReloadDone(_, _) =>
  }

  lemma {:induction false} RemoveIdSubset(nodes: seq<Node>, id: uint32)
    ensures forall n | n in RemoveId(nodes, id) :: n in nodes
  {
    if nodes != [] && nodes[0].id != id {
      RemoveIdSubset(nodes[1..], id);
    }
  }

  lemma ClientStaysGone(s: State, ev: Event, id: uint32)
    requires ClientGone(s, id) && 0 < id && Step(s, ev).nextClient != 0
    ensures ClientGone(Step(s, ev), id)
  {
    var t := Step(s, ev);
    forall i | 0 <= i < |t.clients| && t.clients[i].active
      ensures t.clients[i].id != id
    {
      assert t.clients[i] == s.clients[i] || t.clients[i].id == s.nextClient;
    }
  }

  /** From the moment an id is gone, a run never brings it back. */
  lemma {:induction false} NoResurrection(s: State, base: set<int32>, evs: seq<Event>, node: uint32, client: uint32)
    requires Inv(s, base) && Feasible(s, evs) && Bounded(s, evs) && 0 < client
    ensures NodeGone(s, node) ==> NodeGone(After(s, evs), node)
    ensures ClientGone(s, client) ==> ClientGone(After(s, evs), client)
    ensures ClientGone(s, client) ==> forall n | n in After(s, evs).nodes :: n.client != client
  {
    RunKeeps(s, base, evs);
    if evs != [] {
      var init, ev := evs[..|evs| - 1], evs[|evs| - 1];
      NoResurrection(s, base, init, node, client);
      if NodeGone(s, node) {
        NodeStaysGone(After(s, init), ev, node);
      }
      if ClientGone(s, client) {
        ClientStaysGone(After(s, init), ev, client);
      }
    }
  }

  /** A destroyed id is gone: by request, and by the disconnect of its owner. */
  lemma DestroyedIsGone(s: State, base: set<int32>, client: uint32, r: Request, inputFd: int32, memory: bool,
      blur: Blur)
    requires Inv(s, base) && r.op == OP_DESTROY_NODE && Owns(s, client, r.nodeId)
    ensures NodeGone(RequestStep(s, client, r, inputFd, memory, blur), r.nodeId)
  {
    FindNodeIsMember(s.nodes, r.nodeId);
    RemoveIdMembers(s.nodes, r.nodeId);
  }

  lemma DisconnectedIsGone(s: State, base: set<int32>, fd: int32)
    requires Inv(s, base) && SlotOf(s.clients, fd) < |s.clients|
    ensures var id := s.clients[SlotOf(s.clients, fd)].id;
            && ClientGone(HangUpStep(s, fd), id)
            && Others(HangUpStep(s, fd).nodes, id) == HangUpStep(s, fd).nodes
            && forall n | n in s.nodes && n.client == id :: NodeGone(HangUpStep(s, fd), n.id)
  {
    var i, t := SlotOf(s.clients, fd), HangUpStep(s, fd);
    var id := s.clients[i].id;
    OthersMembers(s.nodes, id);
    OthersIdempotent(s.nodes, id);
    forall j | 0 <= j < |t.clients| && t.clients[j].active
      ensures t.clients[j].id != id
    {
      assert j != i && t.clients[j] == s.clients[j];
    }
    forall n | n in s.nodes && n.client == id
      ensures NodeGone(t, n.id)
    {
      forall m | m in t.nodes
        ensures m.id != n.id
      {
        var a :| 0 <= a < |s.nodes| && s.nodes[a] == n;
        var b :| 0 <= b < |s.nodes| && s.nodes[b] == m;
      }
    }
  }

  lemma {:induction false} OthersIdempotent(nodes: seq<Node>, client: uint32)
    ensures Others(Others(nodes, client), client) == Others(nodes, client)
  {
    if nodes != [] {
      OthersIdempotent(nodes[1..], client);
      Cons(nodes[0], Others(nodes[1..], client));
    }
  }

  /** A request that names a gone id, or another client's, is answered INVALID_NODE and does nothing. */
  lemma ForeignIsInvalid(s: State, client: uint32, r: Request, inputFd: int32, memory: bool, blur: Blur)
    requires r.op == OP_DESTROY_NODE || (r.op == OP_RENDER_BLUR && inputFd >= 0)
    ensures Reply(s, client, r, inputFd, memory, blur) == Plain(InvalidNode) <==> !Owns(s, client, r.nodeId)
    ensures NodeGone(s, r.nodeId) ==> !Owns(s, client, r.nodeId)
    ensures !Owns(s, client, r.nodeId) ==> RequestStep(s, client, r, inputFd, memory, blur) == s
  {
    FindNodeIsMember(s.nodes, r.nodeId);
  }

  /** Once an id is gone, every later request of a run that names it is answered INVALID_NODE. */
  lemma NeverServedAgain(s: State, base: set<int32>, evs: seq<Event>, client: uint32, r: Request, inputFd: int32,
      memory: bool, blur: Blur)
    requires Inv(s, base) && Feasible(s, evs) && Bounded(s, evs) && NodeGone(s, r.nodeId)
    requires r.op == OP_DESTROY_NODE || (r.op == OP_RENDER_BLUR && inputFd >= 0)
    ensures Reply(After(s, evs), client, r, inputFd, memory, blur) == Plain(InvalidNode)
  {
    NoResurrection(s, base, evs, r.nodeId, 1);
    ForeignIsInvalid(After(s, evs), client, r, inputFd, memory, blur);
  }

  // ----- descriptors -----

  /** What a message leaves open for good: a second descriptor it brought, and further planes of an export. */
  ghost function LeakedIn(ev: Event): set<int32> {
    if ev.Data? then Fds([ev.message.extraFd]) + Leaked(ev.blur.output) else {}
  }

  ghost function LeakedBy(evs: seq<Event>): set<int32> {
    if evs == [] then {}
    else LeakedBy(evs[..|evs| - 1]) + LeakedIn(evs[|evs| - 1])
  }

  /** What is open: the loop's two descriptors, the clients', and the leaked ones. */
  ghost predicate Balanced(s: State, base: set<int32>, leaked: set<int32>) {
    s.open == base + s.watched + leaked && base + s.watched !! leaked
  }

  lemma LeakIsFresh(s: State, ev: Event)
    requires Possible(s, ev)
    ensures LeakedIn(ev) !! s.open
    ensures ev.Data? ==> Step(s, ev).open == s.open + LeakedIn(ev) && Step(s, ev).watched == s.watched
  {
    if ev.Data? {
      assert ev.message.extraFd in Carried(ev.message);
      if ev.blur.output.Some? {
        var held := Dmabuf.HeldFds(ev.blur.output.value);
        assert forall f | f in Leaked(ev.blur.output) :: f in held;
      }
    }
  }

  lemma StepBalance(s: State, base: set<int32>, ev: Event, leaked: set<int32>)
    requires Inv(s, base) && Possible(s, ev) && NoWrap(Step(s, ev)) && Balanced(s, base, leaked)
    ensures Balanced(Step(s, ev), base, leaked + LeakedIn(ev))
  {
    match ev
    case Accept(newFd, added) =>
    case HangUp(fd) =>
      if SlotOf(s.clients, fd) == |s.clients| {
        assert fd !in s.watched;
      } else {
        assert fd in s.watched;
      }
    case Data(_, _, _, _) => LeakIsFresh(s, ev);
    case ReloadDone(_, _) =>
  }

  lemma {:induction false} OpenInRun(s: State, base: set<int32>, evs: seq<Event>)
    requires Inv(s, base) && Feasible(s, evs) && Bounded(s, evs) && s.open == base + s.watched
    ensures Balanced(After(s, evs), base, LeakedBy(evs))
  {
    CountersCount(s, evs);
    if evs != [] {
      var init, ev := evs[..|evs| - 1], evs[|evs| - 1];
      RunKeeps(s, base, init);
      RunKeeps(s, base, evs);
      OpenInRun(s, base, init);
      StepBalance(After(s, init), base, ev, LeakedBy(init));
    }
  }

  /** An export leaks nothing exactly if no plane but the first holds a descriptor. */
  lemma LeakFree(output: Dmabuf.Attribs)
    requires 1 <= output.numPlanes <= 4
    ensures Leaked(Some(output)) == {} <==> forall k | 1 <= k < output.numPlanes :: output.planes[k].fd < 0
  {
    var held := Dmabuf.HeldFds(output);
    assert forall k | 0 <= k < output.numPlanes :: held[k] == output.planes[k].fd;
    if |held| > 1 {
      assert forall k | 1 <= k < |held| :: held[1..][k - 1] == held[k];
      if k :| 1 <= k < output.numPlanes && output.planes[k].fd >= 0 {
        assert held[1..][k - 1] in Leaked(Some(output));
      }
    }
  }

  /**
   Between events nothing else is open exactly if no message ever brought a second descriptor and
   no export had one in a plane beyond the first.
   */
  lemma {:induction false} NothingLeaksIff(evs: seq<Event>)
    requires forall ev | ev in evs && ev.Data? && ev.blur.output.Some? :: 1 <= ev.blur.output.value.numPlanes <= 4
    ensures LeakedBy(evs) == {} <==>
              forall ev | ev in evs && ev.Data? ::
                && ev.message.extraFd < 0
                && (ev.blur.output.Some? ==>
                      forall k | 1 <= k < ev.blur.output.value.numPlanes :: ev.blur.output.value.planes[k].fd < 0)
  {
    if evs != [] {
      var init, last := evs[..|evs| - 1], evs[|evs| - 1];
      NothingLeaksIff(init);
      assert forall ev :: ev in evs <==> ev in init || ev == last;
      NoLeakIn(last);
    }
  }

  lemma NoLeakIn(ev: Event)
    requires ev.Data? && ev.blur.output.Some? ==> 1 <= ev.blur.output.value.numPlanes <= 4
    ensures LeakedIn(ev) == {} <==>
              (ev.Data? ==>
                 && ev.message.extraFd < 0
                 && (ev.blur.output.Some? ==>
                       forall k | 1 <= k < ev.blur.output.value.numPlanes :: ev.blur.output.value.planes[k].fd < 0))
  {
    if ev.Data? {
      assert ev.message.extraFd >= 0 ==> ev.message.extraFd in Fds([ev.message.extraFd]);
      if ev.blur.output.Some? {
        LeakFree(ev.blur.output.value);
      }
    }
  }

  // ----- one batch of epoll events -----

  /** The client descriptor an event is about. */
  function Target(ev: Event): Option<int32> {
    match ev
    case HangUp(fd) => Some(fd)
    case Data(fd, _, _, _) => Some(fd)
    case _ => None
  }

  /** What epoll_wait may report in state s: each watched descriptor at most once. */
  ghost predicate Batch(s: State, evs: seq<Event>) {
    && (forall i | 0 <= i < |evs| && Target(evs[i]).Some? :: Target(evs[i]).value in s.watched)
    && (forall i, j | 0 <= i < j < |evs| && Target(evs[i]).Some? :: Target(evs[i]) != Target(evs[j]))
  }

  /** A client slot changes in a step only if the step is about its descriptor. */
  lemma SlotUntouched(s: State, ev: Event, j: nat)
    requires j < |s.clients| && s.clients[j].active && Target(ev) != Some(s.clients[j].fd)
    ensures j < |Step(s, ev).clients| && Step(s, ev).clients[j] == s.clients[j]
  {
  }

  lemma {:induction false} BatchKeepsSlot(s: State, evs: seq<Event>, j: nat)
    requires j < |s.clients| && s.clients[j].active
    requires forall i | 0 <= i < |evs| :: Target(evs[i]) != Some(s.clients[j].fd)
    ensures j < |After(s, evs).clients| && After(s, evs).clients[j] == s.clients[j]
  {
    if evs != [] {
      BatchKeepsSlot(s, evs[..|evs| - 1], j);
      SlotUntouched(After(s, evs[..|evs| - 1]), evs[|evs| - 1], j);
    }
  }

  lemma SlotIsUnique(clients: seq<Slot>, nextClient: uint32, j: nat)
    requires ClientsOk(clients, nextClient) && j < |clients| && clients[j].active
    ensures SlotOf(clients, clients[j].fd) == j
  {
    var i := SlotOf(clients, clients[j].fd);
    assert Holds(clients[j], clients[j].fd);
  }

  /**
   However descriptors are closed, accepted and reused inside a batch, each event is handled for
   the very client that held its descriptor when epoll reported it.
   */
  lemma BatchIsSafe(s: State, base: set<int32>, evs: seq<Event>, i: nat)
    requires i < |evs| && Target(evs[i]).Some?
    requires Inv(s, base) && Batch(s, evs) && Feasible(s, evs[..i]) && Bounded(s, evs[..i])
    ensures var fd, t := Target(evs[i]).value, After(s, evs[..i]);
            && SlotOf(s.clients, fd) < |s.clients| && SlotOf(t.clients, fd) == SlotOf(s.clients, fd)
            && SlotOf(t.clients, fd) < |t.clients|
            && t.clients[SlotOf(t.clients, fd)] == s.clients[SlotOf(s.clients, fd)]
  {
    var fd := Target(evs[i]).value;
    var j :| 0 <= j < |s.clients| && s.clients[j].active && s.clients[j].fd == fd;
    RunKeeps(s, base, evs[..i]);
    BatchKeepsSlot(s, evs[..i], j);
    SlotIsUnique(s.clients, s.nextClient, j);
    SlotIsUnique(After(s, evs[..i]).clients, After(s, evs[..i]).nextClient, j);
  }

  // ----- isolation over runs -----

  lemma RequestByOther(s: State, other: uint32, r: Request, inputFd: int32, memory: bool, blur: Blur, client: uint32)
    requires other != client
    ensures Own(RequestStep(s, other, r, inputFd, memory, blur).nodes, client) == Own(s.nodes, client)
  {
    RequestIsolation(s, other, r, inputFd, memory, blur);
    OwnOfOthers(s.nodes, other, client);
    OwnOfOthers(RequestStep(s, other, r, inputFd, memory, blur).nodes, other, client);
  }

  lemma EventOfOther(s: State, base: set<int32>, ev: Event, j: nat)
    requires Inv(s, base) && j < |s.clients| && s.clients[j].active && Target(ev) != Some(s.clients[j].fd)
    ensures Own(Step(s, ev).nodes, s.clients[j].id) == Own(s.nodes, s.clients[j].id)
  {
    var client := s.clients[j].id;
    match ev
    case Accept(_, _) =>
    case HangUp(fd) =>
      if SlotOf(s.clients, fd) < |s.clients| {
        OwnOfOthers(s.nodes, s.clients[SlotOf(s.clients, fd)].id, client);
      }
    case Data(fd, m, memory, blur) =>
      if Dispatched(s, fd, m) {
        var i := SlotOf(s.clients, fd);
        RequestByOther(Hearing(s, m), s.clients[i].id, m.request.value, m.inputFd, memory, blur, client);
      }
    case ReloadDone(_, _) =>
  }

  /** Whatever else goes on, a client whose descriptor no event is about keeps its nodes, in their order. */
  lemma {:induction false} RunIsolation(s: State, base: set<int32>, evs: seq<Event>, j: nat)
    requires Inv(s, base) && Feasible(s, evs) && Bounded(s, evs)
    requires j < |s.clients| && s.clients[j].active
    requires forall i | 0 <= i < |evs| :: Target(evs[i]) != Some(s.clients[j].fd)
    ensures Own(After(s, evs).nodes, s.clients[j].id) == Own(s.nodes, s.clients[j].id)
    ensures j < |After(s, evs).clients| && After(s, evs).clients[j] == s.clients[j]
  {
    if evs != [] {
      var init := evs[..|evs| - 1];
      RunKeeps(s, base, evs);
      RunIsolation(s, base, init, j);
      CountersCount(s, evs);
      RunKeeps(s, base, init);
      EventOfOther(After(s, init), base, evs[|evs| - 1], j);
      SlotUntouched(After(s, init), evs[|evs| - 1], j);
    }
  }

  // ----- the id in a reply -----

  /** The reply to a message is the last one sent. */
  ghost predicate Replied(s: State, ev: Event, response: Response) {
    && ev.Data? && Dispatched(s, ev.fd, ev.message)
    && |Step(s, ev).sent| == |s.sent| + 1 && Step(s, ev).sent[|s.sent|].to == ev.fd
    && Step(s, ev).sent[|s.sent|].response == response
  }

  function ClientOf(s: State, fd: int32): uint32
    requires SlotOf(s.clients, fd) < |s.clients|
  {
    s.clients[SlotOf(s.clients, fd)].id
  }

  /** A create request is answered with an id exactly if there is room, memory, and a counter that is not 0. */
  lemma CreatedIff(s: State, ev: Event)
    requires ev.Data? && Dispatched(s, ev.fd, ev.message) && ev.message.request.value.op == 1
    ensures (exists id :: Replied(s, ev, Created(id)))
            <==> ev.memory && CountOf(s.nodes, ClientOf(s, ev.fd)) < 100 && s.nextNode != 0
    ensures !(exists id :: Replied(s, ev, Created(id))) ==> Replied(s, ev, Plain(OutOfMemory))
  {
    if ev.memory && CountOf(s.nodes, ClientOf(s, ev.fd)) < 100 && s.nextNode != 0 {
      assert Replied(s, ev, Created(s.nextNode));
    }
  }

  /** The id in the reply to a create request is the id under which its node is found, and it was nobody's before. */
  lemma CreatedIsFound(s: State, base: set<int32>, ev: Event, id: uint32)
    requires Replied(s, ev, Created(id))
    ensures
      var r := ev.message.request.value;
      FindNode(Step(s, ev).nodes, id)
      == Some(Node(id, ClientOf(s, ev.fd), ToInt32(r.width), ToInt32(r.height), r.params))
    ensures Inv(s, base) ==> forall n | n in s.nodes :: n.id != id
    ensures Step(s, ev).clients == s.clients
  {
  }

  lemma SlotIsHolders(clients: seq<Slot>, nextClient: uint32, j: nat)
    requires ClientsOk(clients, nextClient) && j < |clients| && clients[j].active
    ensures SlotOf(clients, clients[j].fd) == j
  {
    assert Holds(clients[j], clients[j].fd);
  }

  /** A node that its owner did not touch is still its owner's after any run. */
  lemma StillOwned(s: State, base: set<int32>, evs: seq<Event>, fd: int32, n: Node)
    requires Inv(s, base) && Feasible(s, evs) && Bounded(s, evs)
    requires SlotOf(s.clients, fd) < |s.clients| && n in s.nodes && n.client == ClientOf(s, fd)
    requires forall i | 0 <= i < |evs| :: Target(evs[i]) != Some(fd)
    ensures var t := After(s, evs);
            && SlotOf(t.clients, fd) < |t.clients| && ClientOf(t, fd) == n.client
            && FindNode(t.nodes, n.id) == Some(n)
  {
    var j, t := SlotOf(s.clients, fd), After(s, evs);
    RunKeeps(s, base, evs);
    RunIsolation(s, base, evs, j);
    SlotIsHolders(t.clients, t.nextClient, j);
    OwnMembers(s.nodes, n.client);
    OwnMembers(t.nodes, n.client);
    MemberIsFound(t.nodes, n);
  }

  /**
   The id in the reply works: after any run in which its owner sent nothing, a destroy request that names it
   succeeds, and a render request that names it is not answered with INVALID_NODE.
   */
  lemma CreatedServes(s: State, base: set<int32>, ev: Event, id: uint32, evs: seq<Event>, next: Event)
    requires Inv(s, base) && Possible(s, ev) && Replied(s, ev, Created(id)) && NoWrap(Step(s, ev))
    requires Feasible(Step(s, ev), evs) && Bounded(Step(s, ev), evs)
    requires forall i | 0 <= i < |evs| :: Target(evs[i]) != Some(ev.fd)
    requires next.Data? && next.fd == ev.fd && next.message.request.Some?
    requires next.message.request.value.version == 1 && next.message.request.value.nodeId == id
    ensures next.message.request.value.op == 2 ==> Replied(After(Step(s, ev), evs), next, Plain(Success))
    ensures next.message.request.value.op == 3 && next.message.inputFd >= 0 ==>
              !Replied(After(Step(s, ev), evs), next, Plain(InvalidNode))
  {
    var t := Step(s, ev);
    CreatedIsFound(s, base, ev, id);
    FindNodeIsMember(t.nodes, id);
    StepKeeps(s, base, ev);
    StillOwned(t, base, evs, ev.fd, FindNode(t.nodes, id).value);
    OwnerIsServed(After(t, evs), next);
  }

  lemma OwnerIsServed(s: State, ev: Event)
    requires ev.Data? && Dispatched(s, ev.fd, ev.message)
    requires Owns(s, ClientOf(s, ev.fd), ev.message.request.value.nodeId)
    ensures ev.message.request.value.op == 2 ==> Replied(s, ev, Plain(Success))
    ensures ev.message.request.value.op == 3 && ev.message.inputFd >= 0 ==> !Replied(s, ev, Plain(InvalidNode))
  {
  }

  // ----- who is served at all -----

  /**
   A connection is taken on exactly if accept and epoll_ctl succeed and one of the 64 slots is free: then under
   the next id, open and watched. Otherwise nothing is left of it.
   */
  lemma ConnectedIff(s: State, base: set<int32>, newFd: int32, added: bool)
    requires Inv(s, base) && (newFd < 0 || newFd !in s.open)
    ensures
      var t := Step(s, Accept(newFd, added));
      if newFd >= 0 && added && exists i :: 0 <= i < 64 && !s.clients[i].active then
        && SlotOf(t.clients, newFd) < 64 && ClientOf(t, newFd) == s.nextClient
        && t.open == s.open + {newFd} && t.watched == s.watched + {newFd}
        && forall i | 0 <= i < 64 && s.clients[i].active :: t.clients[i] == s.clients[i]
      else t == s.(decisions := t.decisions)
  {
    var i, t := FreeSlot(s.clients), Step(s, Accept(newFd, added));
    if newFd >= 0 && added && i < |s.clients| {
      assert Holds(t.clients[i], newFd);
      forall j | 0 <= j < i
        ensures !Holds(t.clients[j], newFd)
      {
        assert s.clients[j].active ==> s.clients[j].fd in s.watched;
      }
    }
  }

  /** A message is answered, once, exactly if it is a request of version 1 from a connected client. */
  lemma RepliedIff(s: State, base: set<int32>, ev: Event)
    requires Inv(s, base) && ev.Data?
    ensures (exists response :: Replied(s, ev, response))
            <==> && ev.message.request.Some? && ev.message.request.value.version == 1
                 && exists i :: 0 <= i < 64 && s.clients[i].active && s.clients[i].fd == ev.fd
    ensures !(exists response :: Replied(s, ev, response)) ==>
              Step(s, ev).sent == s.sent && Step(s, ev).nodes == s.nodes && Step(s, ev).pool == s.pool
  {
    if Dispatched(s, ev.fd, ev.message) {
      var m := ev.message;
      assert Replied(s, ev, Reply(s, ClientOf(s, ev.fd), m.request.value, m.inputFd, ev.memory, ev.blur));
      assert s.clients[SlotOf(s.clients, ev.fd)].active;
    }
  }
}
