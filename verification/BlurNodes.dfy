/** The node registry of wlblurd/src/blur_node.c: a heap list, unlinked through a pointer to a pointer. */
module BlurNodes {
  import opened BlurParams
  import opened CTypes
  import opened NodeList
  import opened Kernel

  class BlurNode {
    const node: Node
    var next: BlurNode?

    constructor (node: Node, next: BlurNode?)
      ensures this.node == node && this.next == next
    {
      this.node, this.next := node, next;
    }
  }

  ghost function Contents(spine: seq<BlurNode>): (nodes: seq<Node>)
    ensures |nodes| == |spine|
    ensures forall i | 0 <= i < |spine| :: nodes[i] == spine[i].node
  {
    if spine == [] then [] else [spine[0].node] + Contents(spine[1..])
  }

  /** Reading a list element by element, in terms of its contents. */
  lemma Walk(spine: seq<BlurNode>, i: nat)
    requires i < |spine|
    ensures Contents(spine[i..]) == [spine[i].node] + Contents(spine[i + 1..])
    ensures Contents(spine[..i + 1]) == Contents(spine[..i]) + [spine[i].node]
    ensures Contents(spine[i..])[1..] == Contents(spine[i + 1..])
  {
    assert spine[i..][1..] == spine[i + 1..];
  }

  lemma PassedOver(before: seq<Node>, node: Node, rest: seq<Node>)
    ensures forall id | node.id != id :: before + [node] + RemoveId(rest, id) == before + RemoveId([node] + rest, id)
    ensures forall client | node.client != client ::
              before + [node] + Others(rest, client) == before + Others([node] + rest, client)
  {
    assert ([node] + rest)[1..] == rest;
  }

  lemma Ends(spine: seq<BlurNode>)
    ensures Contents(spine[0..]) == Contents(spine) == Contents(spine[..|spine|])
    ensures Contents(spine[..0]) == [] == Contents(spine[|spine|..])
  {
    assert spine[0..] == spine == spine[..|spine|];
  }

  lemma Cut(spine: seq<BlurNode>, k: nat)
    requires k < |spine|
    ensures var cut := spine[..k] + spine[k + 1..];
            && Contents(cut) == Contents(spine[..k]) + Contents(spine[k + 1..])
            && cut[..k] == spine[..k] && cut[k..] == spine[k + 1..]
  {
  }

  lemma PushFront(node: BlurNode, spine: seq<BlurNode>)
    ensures Contents([node] + spine) == [node.node] + Contents(spine)
  {
    assert ([node] + spine)[1..] == spine;
  }

  class NodeRegistry {
    var head: BlurNode?
    var nextNodeId: uint32
    ghost var spine: seq<BlurNode>  // the allocated nodes, from head on

    ghost function Heap(): set<BlurNode>
      reads this
    {
      set n | n in spine
    }

    ghost predicate Valid()
      reads this, Heap()
    {
      && (forall i, j | 0 <= i < j < |spine| :: spine[i] != spine[j])
      && head == At(0)
      && (forall i {:trigger spine[i]} | 0 <= i < |spine| :: spine[i].next == At(i + 1))
    }

    /** The i-th node, or null after the last. */
    ghost function At(i: nat): BlurNode?
      reads this
    {
      if i < |spine| then spine[i] else null
    }

    ghost function Nodes(): seq<Node>
      reads this
    {
      Contents(spine)
    }

    constructor ()
      ensures Valid() && Nodes() == [] && nextNodeId == 1 && spine == []
    {
      head, nextNodeId, spine := null, 1, [];
    }

    /** count_client_nodes */
    method CountClient(client: uint32) returns (count: nat)
      requires Valid()
      ensures count == CountOf(Nodes(), client)
    {
      Ends(spine);
      count := 0;
      var n := head;
      ghost var i := 0;
      while n != null
        invariant i <= |spine| && n == At(i)
        invariant count + CountOf(Contents(spine[i..]), client) == CountOf(Nodes(), client)
        decreases |spine| - i
      {
        Walk(spine, i);
        if n.node.client == client {
          count := count + 1;
        }
        n, i := n.next, i + 1;
      }
    }

    /** blur_node_create: 0 when the client has its hundred nodes or memory runs out. */
    method Create(process: Process, client: uint32, width: uint32, height: uint32, params: Params)
      returns (id: uint32, ghost created: bool)
      requires Valid()
      modifies this, process`allocations
      ensures Valid() && forall n | n in Heap() :: n in old(Heap()) || fresh(n)
      ensures created ==>
                && CountOf(old(Nodes()), client) < MAX_NODES_PER_CLIENT
                && id == old(nextNodeId) && nextNodeId == NextId(id)
                && Nodes() == [Node(id, client, ToInt32(width), ToInt32(height), params)] + old(Nodes())
      ensures !created ==> id == 0 && nextNodeId == old(nextNodeId) && spine == old(spine)
      ensures if CountOf(old(Nodes()), client) >= MAX_NODES_PER_CLIENT
              then !created && process.allocations == old(process.allocations)
              else process.allocations == old(process.allocations) + [created]
    {
      var count := CountClient(client);
      if count >= MAX_NODES_PER_CLIENT {
        return 0, false;
      }
      var available := process.Allocate();
      if !available {
        return 0, false;
      }
      id, created := nextNodeId, true;
      var node := new BlurNode(Node(id, client, ToInt32(width), ToInt32(height), params), head);
      nextNodeId := NextId(nextNodeId);
      head := node;
      PushFront(node, spine);
      spine := [node] + spine;
    }

    /** blur_node_lookup */
    method Lookup(id: uint32) returns (n: BlurNode?)
      requires Valid()
      ensures n == null <==> FindNode(Nodes(), id).None?
      ensures n != null ==> n in spine && n.node == FindNode(Nodes(), id).value
    {
      Ends(spine);
      n := head;
      ghost var i := 0;
      while n != null
        invariant i <= |spine| && n == At(i)
        invariant FindNode(Contents(spine[i..]), id) == FindNode(Nodes(), id)
        decreases |spine| - i
      {
        Walk(spine, i);
        if n.node.id == id {
          return;
        }
        n, i := n.next, i + 1;
      }
    }

    /** *prev = n->next; free(n), where a null `prev` stands for the address of the list head. */
    method Unlink(prev: BlurNode?, n: BlurNode, ghost k: nat)
      requires Valid() && k < |spine| && n == spine[k]
      requires if k == 0 then prev == null else prev == spine[k - 1]
      modifies this`head, this`spine, prev
      ensures Valid()
      ensures spine == old(spine[..k] + spine[k + 1..])
    {
      if prev == null {
        head := n.next;
      } else {
        prev.next := n.next;
      }
      spine := spine[..k] + spine[k + 1..];
    }

    /** Unlinks the k-th node and yields the one that takes its place. */
    method UnlinkAt(prev: BlurNode?, n: BlurNode, ghost k: nat) returns (next: BlurNode?)
      requires Valid() && k < |spine| && n == spine[k]
      requires if k == 0 then prev == null else prev == spine[k - 1]
      modifies this`head, this`spine, prev
      ensures Valid() && |spine| == old(|spine|) - 1 && next == At(k)
      ensures k > 0 ==> prev == spine[k - 1]
      ensures Contents(spine[..k]) == old(Contents(spine[..k]))
      ensures Contents(spine[k..]) == old(Contents(spine[k + 1..]))
      ensures Nodes() == old(Contents(spine[..k]) + Contents(spine[k + 1..]))
      ensures Heap() <= old(Heap())
    {
      Cut(spine, k);
      next := n.next;
      Unlink(prev, n, k);
    }

    /** blur_node_destroy */
    method Destroy(id: uint32)
      requires Valid()
      modifies this`head, this`spine, Heap()
      ensures Valid() && Heap() <= old(Heap())
      ensures Nodes() == RemoveId(old(Nodes()), id)
    {
      var prev: BlurNode? := null;
      var n := head;
      ghost var i := 0;
      Ends(spine);
      while n != null
        invariant Valid() && spine == old(spine)
        invariant i <= |spine| && n == At(i)
        invariant if i == 0 then prev == null else prev == spine[i - 1] && prev in Heap()
        invariant Contents(spine[..i]) + RemoveId(Contents(spine[i..]), id) == RemoveId(Nodes(), id)
        decreases |spine| - i
      {
        Walk(spine, i);
        if n.node.id == id {
          n := UnlinkAt(prev, n, i);
          return;
        }
        PassedOver(Contents(spine[..i]), n.node, Contents(spine[i + 1..]));
        assert n in Heap();
        prev, n, i := n, n.next, i + 1;
      }
    }

    /** blur_node_destroy_client */
    method DestroyClient(client: uint32)
      requires Valid()
      modifies this`head, this`spine, Heap()
      ensures Valid() && Heap() <= old(Heap())
      ensures Nodes() == Others(old(Nodes()), client)
    {
      var prev: BlurNode? := null;
      var n := head;
      ghost var i := 0;
      Ends(spine);
      while n != null
        invariant Valid() && Heap() <= old(Heap())
        invariant i <= |spine| && n == At(i)
        invariant if i == 0 then prev == null else prev == spine[i - 1] && prev in Heap()
        invariant Contents(spine[..i]) + Others(Contents(spine[i..]), client) == Others(old(Nodes()), client)
        decreases |spine| - i
      {
        Walk(spine, i);
        if n.node.client == client {
          n := UnlinkAt(prev, n, i);
        } else {
          PassedOver(Contents(spine[..i]), n.node, Contents(spine[i + 1..]));
          assert n in Heap();
          prev, n, i := n, n.next, i + 1;
        }
      }
      Ends(spine);
    }
  }
}
