/**
 Clients and nodes over their real state: the client table of wlblurd/src/client.c, the node
 registry, the descriptors, and the handlers that need nothing else (wlblurd/src/main.c and
 wlblurd/src/ipc_protocol.c). Each handler takes the state exactly one step.
 */
module Connections {
  import opened CTypes
  import opened Wrappers
  import opened Protocol
  import opened Kernel
  import opened NodeList
  import opened Kawase
  import opened BlurNodes
  import opened Config
  import opened DaemonState

  class Table {
    const nodes: NodeRegistry
    const clients: array<Slot>
    const process: Process
    var nextClientId: uint32
    ghost var sent: seq<Sent>  // every reply handed to sendmsg

    ghost predicate Valid()
      reads nodes, nodes.Heap()
    {
      nodes.Valid() && clients.Length == MAX_CLIENTS
    }

    /** The state, given the parts that live elsewhere. */
    ghost function Abs(settings: Settings, hasContext: bool, pool: View): State
      reads this, nodes, clients, process
    {
      State(nodes.Nodes(), nodes.nextNodeId, clients[..], nextClientId, process.open, process.watched,
            settings, hasContext, pool, sent, process.decisions, process.allocations)
    }

    /** The zeroed static tables. */
    constructor (process: Process)
      ensures Valid() && fresh(nodes) && fresh(clients) && this.process == process
      ensures nodes.Heap() == {} && nodes.Nodes() == [] && nodes.nextNodeId == 1 && nextClientId == 1 && sent == []
      ensures forall i | 0 <= i < MAX_CLIENTS :: clients[i] == UNUSED_SLOT
    {
      this.process := process;
      nodes := new NodeRegistry();
      clients := new Slot[MAX_CLIENTS](_ => UNUSED_SLOT);
      nextClientId, sent := 1, [];
    }

    /** client_register */
    method Register(fd: int32) returns (id: uint32)
      requires Valid()
      modifies this`nextClientId, clients
      ensures Valid()
      ensures var i := FreeSlot(old(clients[..]));
              if i == MAX_CLIENTS then id == 0 && nextClientId == old(nextClientId) && clients[..] == old(clients[..])
              else
                && id == old(nextClientId) && nextClientId == NextId(id)
                && clients[..] == old(clients[..])[i := Slot(fd, id, true)]
    {
      for i := 0 to MAX_CLIENTS
        invariant forall k | 0 <= k < i :: clients[k].active
      {
        if !clients[i].active {
          assert FreeSlot(clients[..]) == i;
          clients[i] := Slot(fd, nextClientId, true);
          id := nextClientId;
          nextClientId := NextId(nextClientId);
          return;
        }
      }
      id := 0;
    }

    /** The search of client_lookup and client_unregister: the slot, or the length of the table. */
    method FindClient(fd: int32) returns (i: nat)
      requires Valid()
      ensures i == SlotOf(clients[..], fd)
    {
      i := 0;
      while i < MAX_CLIENTS
        invariant i <= MAX_CLIENTS
        invariant forall k | 0 <= k < i :: !Holds(clients[k], fd)
      {
        if clients[i].active && clients[i].fd == fd {
          return;
        }
        i := i + 1;
      }
    }

    /** client_unregister: the client's nodes go first, then its slot, then its descriptor. */
    method Unregister(fd: int32)
      requires Valid() && (SlotOf(clients[..], fd) < MAX_CLIENTS ==> fd in process.open)
      modifies nodes`head, nodes`spine, nodes.Heap(), clients, process`open
      ensures Valid() && nodes.Heap() <= old(nodes.Heap())
      ensures var i := SlotOf(old(clients[..]), fd);
              if i == MAX_CLIENTS
              then nodes.Nodes() == old(nodes.Nodes()) && clients[..] == old(clients[..])
                   && process.open == old(process.open)
              else
                && nodes.Nodes() == Others(old(nodes.Nodes()), old(clients[..])[i].id)
                && clients[..] == old(clients[..])[i := FREE_SLOT]
                && process.open == old(process.open) - {fd}
    {
      var i := FindClient(fd);
      if i < MAX_CLIENTS {
        nodes.DestroyClient(clients[i].id);
        clients[i] := FREE_SLOT;
        process.Close(fd);
      }
    }

    /** The hang-up branch of the event loop. */
    method HandleHangUp(fd: int32, ghost settings: Settings, ghost hasContext: bool, ghost pool: View)
      requires Valid() && (SlotOf(clients[..], fd) < MAX_CLIENTS ==> fd in process.open)
      modifies nodes`head, nodes`spine, nodes.Heap(), clients, process
      ensures Valid() && nodes.Heap() <= old(nodes.Heap())
      ensures Abs(settings, hasContext, pool) == HangUpStep(old(Abs(settings, hasContext, pool)), fd)
    {
      process.EpollDel(fd);
      Unregister(fd);
    }

    /** handle_new_connection */
    method HandleNewConnection(ghost settings: Settings, ghost hasContext: bool, ghost pool: View)
      returns (ghost ev: Event)
      requires Valid()
      modifies this, clients, process
      ensures ev.Accept? && (ev.newFd < 0 || ev.newFd !in old(process.open))
      ensures Valid()
      ensures Abs(settings, hasContext, pool) == AcceptStep(old(Abs(settings, hasContext, pool)), ev.newFd, ev.added)
    {
      var fd := process.Accept();
      if fd < 0 {
        return Accept(fd, false);
      }
      var added := process.EpollAdd(fd);
      ev := Accept(fd, added);
      if !added {
        process.Close(fd);
        assert process.open == old(process.open);
        return;
      }
      var id := Register(fd);
      if id == 0 {
        process.EpollDel(fd);
        process.Close(fd);
        assert process.open == old(process.open) && process.watched == old(process.watched) - {fd};
      }
    }

    /** handle_create_node: a node id of 0 is reported as a lack of memory. */
    method HandleCreate(client: uint32, r: Request, ghost settings: Settings, ghost hasContext: bool,
        ghost pool: View)
      returns (response: Response, ghost memory: bool)
      requires Valid() && r.op == OP_CREATE_NODE
      modifies nodes, process`allocations
      ensures Valid() && forall n | n in nodes.Heap() :: n in old(nodes.Heap()) || fresh(n)
      ensures forall inputFd ::
                && response == Reply(old(Abs(settings, hasContext, pool)), client, r, inputFd, memory, NO_BLUR)
                && Abs(settings, hasContext, pool)
                   == RequestStep(old(Abs(settings, hasContext, pool)), client, r, inputFd, memory, NO_BLUR)
      ensures response.Created? ==>
                FindNode(nodes.Nodes(), response.id)
                == Some(Node(response.id, client, ToInt32(r.width), ToInt32(r.height), r.params))
    {
      var id: uint32;
      id, memory := nodes.Create(process, client, r.width, r.height, r.params);
      response := if id == 0 then Plain(OutOfMemory) else Created(id);
    }

    /** The ownership check shared by the two handlers that name a node. */
    method OwnsNode(client: uint32, id: uint32) returns (owns: bool)
      requires Valid()
      ensures owns <==> FindNode(nodes.Nodes(), id).Some? && FindNode(nodes.Nodes(), id).value.client == client
    {
      var n := nodes.Lookup(id);
      owns := n != null && n.node.client == client;
    }

    /** handle_destroy_node */
    method HandleDestroy(client: uint32, r: Request, ghost settings: Settings, ghost hasContext: bool,
        ghost pool: View)
      returns (response: Response)
      requires Valid() && r.op == OP_DESTROY_NODE
      modifies nodes`head, nodes`spine, nodes.Heap()
      ensures Valid() && nodes.Heap() <= old(nodes.Heap())
      ensures forall inputFd, memory ::
                && response == Reply(old(Abs(settings, hasContext, pool)), client, r, inputFd, memory, NO_BLUR)
                && Abs(settings, hasContext, pool)
                   == RequestStep(old(Abs(settings, hasContext, pool)), client, r, inputFd, memory, NO_BLUR)
    {
      var owns := OwnsNode(client, r.nodeId);
      if !owns {
        return Plain(InvalidNode);
      }
      nodes.Destroy(r.nodeId);
      response := Plain(Success);
    }

    /** send_with_fd: only an open descriptor can be sent; a failure is only logged. */
    method Send(to: int32, response: Response, fd: int32) returns (ok: bool)
      requires fd >= 0 ==> fd in process.open
      modifies this`sent
      ensures sent == old(sent) + [Sent(to, response, process.Behind(fd))]
    {
      ok := *;
      sent := sent + [Sent(to, response, process.Behind(fd))];
    }
  }
}
