/** The blur nodes of wlblurd/src/blur_node.c as a sequence, newest first, with the id counter. */
module NodeList {
  import opened BlurParams
  import opened CTypes
  import opened Wrappers

  const MAX_NODES_PER_CLIENT := 100

  datatype Node = Node(id: uint32, client: uint32, width: int32, height: int32, params: Params)

  function CountOf(nodes: seq<Node>, client: uint32): nat {
    if nodes == [] then 0
    else (if nodes[0].client == client then 1 else 0) + CountOf(nodes[1..], client)
  }

  /** The first node of that id. */
  function FindNode(nodes: seq<Node>, id: uint32): Option<Node> {
    if nodes == [] then None
    else if nodes[0].id == id then Some(nodes[0])
    else FindNode(nodes[1..], id)
  }

  /** Without the first node of that id. */
  function RemoveId(nodes: seq<Node>, id: uint32): seq<Node> {
    if nodes == [] then []
    else if nodes[0].id == id then nodes[1..]
    else [nodes[0]] + RemoveId(nodes[1..], id)
  }

  /** The nodes of all other clients, in their order. */
  function Others(nodes: seq<Node>, client: uint32): seq<Node> {
    if nodes == [] then []
    else if nodes[0].client == client then Others(nodes[1..], client)
    else [nodes[0]] + Others(nodes[1..], client)
  }

  /** The id of a created node and the counter after it: a 32-bit counter that wraps. */
  function NextId(id: uint32): uint32 {
    ToUint32(id + 1)
  }

  ghost predicate DistinctIds(nodes: seq<Node>) {
    forall i, j | 0 <= i < j < |nodes| :: nodes[i].id != nodes[j].id
  }

  lemma {:induction false} FindNodeIsMember(nodes: seq<Node>, id: uint32)
    ensures FindNode(nodes, id).Some? ==> FindNode(nodes, id).value in nodes && FindNode(nodes, id).value.id == id
    ensures FindNode(nodes, id).None? <==> forall n | n in nodes :: n.id != id
  {
    if nodes != [] {
      FindNodeIsMember(nodes[1..], id);
      assert nodes == [nodes[0]] + nodes[1..];
    }
  }

  lemma Cons(node: Node, rest: seq<Node>)
    ensures ([node] + rest)[1..] == rest
    ensures DistinctIds([node] + rest) <==> DistinctIds(rest) && forall n | n in rest :: n.id != node.id
  {
    var all := [node] + rest;
    assert all[1..] == rest;
    if DistinctIds(all) {
      forall i, j | 0 <= i < j < |rest|
        ensures rest[i].id != rest[j].id
      {
        assert all[i + 1].id != all[j + 1].id;
      }
      forall n | n in rest
        ensures n.id != node.id
      {
        var k :| 0 <= k < |rest| && rest[k] == n;
        assert all[0].id != all[k + 1].id;
      }
    }
  }

  /** Removing an id removes exactly that node. */
  lemma {:induction false} RemoveIdMembers(nodes: seq<Node>, id: uint32)
    requires DistinctIds(nodes)
    ensures DistinctIds(RemoveId(nodes, id))
    ensures forall n :: n in RemoveId(nodes, id) <==> n in nodes && n.id != id
  {
    if nodes != [] {
      var rest := nodes[1..];
      assert nodes == [nodes[0]] + rest;
      Cons(nodes[0], rest);
      RemoveIdMembers(rest, id);
      Cons(nodes[0], RemoveId(rest, id));
    }
  }

  lemma {:induction false} RemoveIdCount(nodes: seq<Node>, id: uint32, client: uint32)
    ensures CountOf(RemoveId(nodes, id), client)
            == CountOf(nodes, client)
               - if FindNode(nodes, id).Some? && FindNode(nodes, id).value.client == client then 1 else 0
  {
    if nodes != [] && nodes[0].id != id {
      RemoveIdCount(nodes[1..], id, client);
      Cons(nodes[0], RemoveId(nodes[1..], id));
    }
  }

  /** The nodes of clients other than the owner stay as they were, order included. */
  lemma {:induction false} RemoveIdOthers(nodes: seq<Node>, id: uint32, owner: uint32)
    requires FindNode(nodes, id).Some? ==> FindNode(nodes, id).value.client == owner
    ensures Others(RemoveId(nodes, id), owner) == Others(nodes, owner)
  {
    if nodes != [] && nodes[0].id != id {
      RemoveIdOthers(nodes[1..], id, owner);
      Cons(nodes[0], RemoveId(nodes[1..], id));
    }
  }

  /** Removing a client removes exactly its nodes. */
  lemma {:induction false} OthersMembers(nodes: seq<Node>, client: uint32)
    ensures forall n :: n in Others(nodes, client) <==> n in nodes && n.client != client
    ensures DistinctIds(nodes) ==> DistinctIds(Others(nodes, client))
  {
    if nodes != [] {
      var rest := nodes[1..];
      assert nodes == [nodes[0]] + rest;
      Cons(nodes[0], rest);
      OthersMembers(rest, client);
      Cons(nodes[0], Others(rest, client));
    }
  }

  lemma {:induction false} OthersCount(nodes: seq<Node>, client: uint32, c: uint32)
    ensures CountOf(Others(nodes, client), c) == if c == client then 0 else CountOf(nodes, c)
  {
    if nodes != [] {
      OthersCount(nodes[1..], client, c);
      Cons(nodes[0], Others(nodes[1..], client));
    }
  }

  /** Removals of different clients commute. */
  lemma {:induction false} OthersCommute(nodes: seq<Node>, c: uint32, d: uint32)
    ensures Others(Others(nodes, c), d) == Others(Others(nodes, d), c)
  {
    if nodes != [] {
      OthersCommute(nodes[1..], c, d);
      Cons(nodes[0], Others(nodes[1..], c));
      Cons(nodes[0], Others(nodes[1..], d));
    }
  }

  /** The nodes of one client, in their order. */
  function Own(nodes: seq<Node>, client: uint32): seq<Node> {
    if nodes == [] then []
    else (if nodes[0].client == client then [nodes[0]] else []) + Own(nodes[1..], client)
  }

  /** Clearing out one client leaves those of another alone. */
  lemma {:induction false} OwnOfOthers(nodes: seq<Node>, gone: uint32, client: uint32)
    requires gone != client
    ensures Own(Others(nodes, gone), client) == Own(nodes, client)
  {
    if nodes != [] {
      OwnOfOthers(nodes[1..], gone, client);
      Cons(nodes[0], Others(nodes[1..], gone));
    }
  }

  lemma {:induction false} OwnMembers(nodes: seq<Node>, client: uint32)
    ensures forall n :: n in Own(nodes, client) <==> n in nodes && n.client == client
  {
    if nodes != [] {
      assert nodes == [nodes[0]] + nodes[1..];
      OwnMembers(nodes[1..], client);
    }
  }

  /** With distinct ids, looking up a member's id finds that member. */
  lemma {:induction false} MemberIsFound(nodes: seq<Node>, n: Node)
    requires DistinctIds(nodes) && n in nodes
    ensures FindNode(nodes, n.id) == Some(n)
  {
    assert nodes == [nodes[0]] + nodes[1..];
    Cons(nodes[0], nodes[1..]);
    if nodes[0] != n {
      MemberIsFound(nodes[1..], n);
    }
  }
}
