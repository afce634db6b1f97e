/** The heap form of the preset table: 64 bucket pointers to chains of allocated presets. */
module Presets {
  import opened BlurParams
  import opened Wrappers
  import opened Kernel
  import opened PresetTable

  class Preset {
    const name: Name
    const next: Preset?
    var params: Params
    ghost const bucket: nat  // where it is chained, and how many follow it there
    ghost const depth: nat

    constructor (name: Name, params: Params, next: Preset?, ghost bucket: nat, ghost depth: nat)
      ensures this.name == name && this.params == params && this.next == next
      ensures this.bucket == bucket && this.depth == depth
    {
      this.name, this.params, this.next, this.bucket, this.depth := name, params, next, bucket, depth;
    }
  }

  /** From `head`, following `next` visits exactly this list. */
  ghost predicate Linked(head: Preset?, list: seq<Preset>) {
    if list == [] then head == null else head == list[0] && Linked(list[0].next, list[1..])
  }

  lemma {:induction false} LinkedNext(head: Preset?, list: seq<Preset>, i: nat)
    requires Linked(head, list) && i < |list|
    ensures head != null
    ensures list[i].next == if i + 1 < |list| then list[i + 1] else null
  {
    if i > 0 {
      LinkedNext(list[0].next, list[1..], i - 1);
    }
  }

  ghost function Entries(list: seq<Preset>): (chain: Chain)
    reads list
    ensures |chain| == |list|
    ensures forall i | 0 <= i < |list| :: chain[i] == Entry(list[i].name, list[i].params)
  {
    if list == [] then [] else [Entry(list[0].name, list[0].params)] + Entries(list[1..])
  }

  /** Writing to one preset of a chain changes that entry. */
  lemma EntriesUpdate(list: seq<Preset>, i: nat, before: Chain)
    requires i < |list| == |before|
    requires forall j | 0 <= j < |list| && j != i :: before[j] == Entry(list[j].name, list[j].params)
    ensures Entries(list) == before[i := Entry(list[i].name, list[i].params)]
  {
  }

  lemma EntriesCons(p: Preset, rest: seq<Preset>)
    ensures Entries([p] + rest) == [Entry(p.name, p.params)] + Entries(rest)
  {
    assert ([p] + rest)[1..] == rest;
  }

  class Registry {
    const buckets: array<Preset?>
    var presetCount: nat
    ghost var lists: seq<seq<Preset>>  // the chains
    ghost var heap: set<Preset>        // allocated and not yet freed

    ghost predicate Valid()
      reads this, buckets
    {
      && buckets.Length == BUCKETS == |lists|
      && (forall b | 0 <= b < BUCKETS :: Linked(buckets[b], lists[b]))
      && (forall b, i | 0 <= b < BUCKETS && 0 <= i < |lists[b]| ::
            lists[b][i] in heap && lists[b][i].bucket == b && lists[b][i].depth == |lists[b]| - 1 - i)
      && (forall p | p in heap :: p.bucket < BUCKETS && p in lists[p.bucket])
      && presetCount == Size(lists)
    }

    ghost function View(): (table: Table)
      requires Valid()
      reads this, buckets, heap
      ensures |table| == BUCKETS
    {
      seq(BUCKETS, b requires 0 <= b < BUCKETS && Valid() reads this, buckets, heap => Entries(lists[b]))
    }

    lemma CountIsSize()
      requires Valid()
      ensures presetCount == Size(View())
    {
      SameSize(lists, View());
    }

    /** memset of the bucket pointers */
    constructor ()
      ensures Valid() && fresh(buckets) && View() == Empty() && heap == {}
    {
      buckets := new Preset?[BUCKETS](_ => null);
      presetCount, lists, heap := 0, seq(BUCKETS, _ => []), {};
      new;
      EmptySize(lists);
      assert forall b | 0 <= b < BUCKETS :: View()[b] == Empty()[b];
    }

    /** The search of preset_registry_lookup; i is where it ends in the name's chain. */
    method Find(name: Name) returns (p: Preset?, ghost i: nat)
      requires Valid()
      ensures i == FirstMatch(View()[Bucket(name)], name)
      ensures if i < |lists[Bucket(name)]| then p == lists[Bucket(name)][i]
              else p == null && i == |lists[Bucket(name)]|
    {
      var b := HashName(name);
      ghost var list := lists[b];
      p, i := buckets[b], 0;
      while p != null
        invariant i <= |list| && Linked(p, list[i..])
        invariant forall k | 0 <= k < i :: list[k].name != name
        decreases |list| - i
      {
        assert list[i..][0] == list[i] && list[i..][1..] == list[i + 1..];
        if p.name == name {
          assert View()[b][i].name == name;
          return;
        }
        p, i := p.next, i + 1;
      }
    }

    /** preset_registry_lookup, as seen by a reader of the parameters. */
    method Lookup(name: Name) returns (params: Option<Params>)
      requires Valid()
      ensures params == PresetTable.Lookup(View(), name)
    {
      var p, i := Find(name);
      params := if p == null then None else Some(p.params);
    }

    /** The update of a preset that is already there. */
    method Overwrite(p: Preset, name: Name, params: Params, ghost i: nat)
      requires Valid() && i == FirstMatch(View()[Bucket(name)], name)
      requires i < |lists[Bucket(name)]| && p == lists[Bucket(name)][i]
      modifies p
      ensures Valid() == true && View() == TryAdd(old(View()), name, params, true)
    {
      ghost var before, b := View(), Bucket(name);
      p.params := params;
      forall c | 0 <= c < BUCKETS && c != b
        ensures View()[c] == before[c]
      {
        assert p.bucket == b && p !in lists[c];
      }
      forall j | 0 <= j < |lists[b]| && j != i
        ensures before[b][j] == Entry(lists[b][j].name, lists[b][j].params)
      {
        assert lists[b][j].depth != p.depth;
      }
      EntriesUpdate(lists[b], i, before[b]);
      AddIs(before, name, params, View());
    }

    /** A new preset at the head of its chain. */
    method LinkIn(name: Name, params: Params, b: nat) returns (preset: Preset)
      requires Valid() && b < BUCKETS
      modifies this, buckets
      ensures Valid() && lists == old(lists)[b := [preset] + old(lists[b])]
      ensures fresh(preset) && preset.name == Truncate(name) && preset.params == params
      ensures heap == old(heap) + {preset}
    {
      preset := new Preset(Truncate(name), params, buckets[b], b, |lists[b]|);
      buckets[b] := preset;
      presetCount := presetCount + 1;
      ghost var list := [preset] + lists[b];
      SizeUpdate(lists, b, list);
      assert list[1..] == lists[b];
      ghost var before := lists;
      lists, heap := lists[b := list], heap + {preset};
      forall p | p in heap
        ensures p.bucket < BUCKETS && p in lists[p.bucket]
      {
        assert p != preset && p.bucket == b ==> p in before[b] && list == [preset] + before[b];
      }
    }

    method Push(name: Name, params: Params, b: nat)
      requires Valid() && b == Bucket(name)
      requires FirstMatch(View()[b], name) == |lists[b]|
      modifies this, buckets
      ensures Valid() && View() == PresetTable.Add(old(View()), name, params)
      ensures old(heap) <= heap && fresh(heap - old(heap))
    {
      ghost var before, list := View(), lists[b];
      var preset := LinkIn(name, params, b);
      assert Entries(list) == before[b];
      EntriesCons(preset, list);
      PushIs(before, name, params, View());
    }

    /** preset_registry_add: fails only for want of memory, and then changes nothing. */
    method Add(process: Process, name: Name, params: Params) returns (ok: bool)
      requires Valid()
      modifies this, buckets, heap, process`allocations
      ensures Valid() == true && View() == TryAdd(old(View()), name, params, ok)
      ensures old(heap) <= heap && fresh(heap - old(heap))
      ensures process.allocations
              == old(process.allocations) + if PresetTable.Lookup(old(View()), name).Some? then [] else [ok]
    {
      var p, i := Find(name);
      if p != null {
        Overwrite(p, name, params, i);
        return true;
      }
      ok := Insert(process, name, params);
    }

    /** A name that is not there yet, if there is memory for it. */
    method Insert(process: Process, name: Name, params: Params) returns (ok: bool)
      requires Valid() && FirstMatch(View()[Bucket(name)], name) == |lists[Bucket(name)]|
      modifies this, buckets, process`allocations
      ensures process.allocations == old(process.allocations) + [ok]
      ensures Valid() == true && View() == TryAdd(old(View()), name, params, ok)
      ensures old(heap) <= heap && fresh(heap - old(heap))
    {
      var available := process.Allocate();
      if !available {
        return false;
      }
      var b := HashName(name);
      Push(name, params, b);
      ok := true;
    }

    /** preset_registry_free: every allocated preset is freed exactly once. */
    method Free()
      requires Valid()
      modifies this, buckets
      ensures Valid() && heap == {} && View() == Empty()
    {
      ghost var left, chains, all := heap, lists, heap;
      for b := 0 to BUCKETS
        invariant forall c | b <= c < BUCKETS :: Linked(buckets[c], chains[c])
        invariant forall c | 0 <= c < b :: buckets[c] == null
        invariant left == set p | p in all && p.bucket >= b
      {
        left := FreeChain(buckets[b], chains[b], b, left);
        assert left == set p | p in all && p.bucket >= b + 1;
        buckets[b] := null;
      }
      lists, presetCount, heap := seq(BUCKETS, _ => []), 0, left;
      EmptySize(lists);
      assert forall b | 0 <= b < BUCKETS :: View()[b] == Empty()[b];
    }

    /** Walks one chain, freeing each preset after reading its successor. */
    method FreeChain(head: Preset?, ghost list: seq<Preset>, ghost bucket: nat, ghost live: set<Preset>)
      returns (ghost left: set<Preset>)
      requires Linked(head, list)
      requires forall i | 0 <= i < |list| ::
                 list[i] in live && list[i].bucket == bucket && list[i].depth == |list| - 1 - i
      ensures left == live - (set p | p in list)
    {
      left := live;
      var p := head;
      ghost var i := 0;
      while p != null
        invariant i <= |list| && Linked(p, list[i..])
        invariant left == live - (set q | q in list[..i])
        decreases |list| - i
      {
        assert list[i..][0] == list[i] && list[i..][1..] == list[i + 1..];
        assert list[..i + 1] == list[..i] + [list[i]];
        assert p in left;
        var next := p.next;
        left := left - {p};
        p, i := next, i + 1;
      }
      assert list[..i] == list;
    }
  }
}
