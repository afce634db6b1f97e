/**
 The preset table of wlblurd/src/presets.c as a value: 64 chains of named parameters. Names are C
 strings of plain chars (signed or not); the stored copy holds at most 31 of them, while the
 bucket is computed from the full name.
 */
module PresetTable {
  import opened BlurParams
  import opened CTypes
  import opened Wrappers

  const BUCKETS := 64
  const NAME_MAX := 31

  type CChar = c: int | -128 <= c < 256
  type Name = seq<CChar>

  datatype Entry = Entry(name: Name, params: Params)
  type Chain = seq<Entry>
  type Table = seq<Chain>

  // ----- hashing -----

  /** djb2 without wrap-around */
  function Djb2(name: Name): int {
    if name == [] then 5381 else 33 * Djb2(name[..|name| - 1]) + name[|name| - 1]
  }

  function Bucket(name: Name): (b: nat)
    ensures b < BUCKETS
  {
    Djb2(name) % BUCKETS
  }

  /** hash_preset_name: every operation wraps at 32 bits, and the bucket comes out the same. */
  method HashName(name: Name) returns (bucket: nat)
    ensures bucket == Bucket(name)
  {
    var hash: uint32 := 5381;
    for i := 0 to |name|
      invariant hash == Djb2(name[..i]) % TWO32
    {
      assert name[..i + 1][..i] == name[..i];
      WrapStep(Djb2(name[..i]), hash, name[i]);
      hash := ToUint32(ToUint32(ToUint32(hash * 32) + hash) + name[i]);
    }
    assert name[..|name|] == name;
    BucketOfWrapped(Djb2(name));
    bucket := hash % BUCKETS;
  }

  lemma WrapStep(exact: int, wrapped: uint32, c: CChar)
    requires wrapped == exact % TWO32
    ensures ToUint32(ToUint32(ToUint32(wrapped * 32) + wrapped) + c) == (33 * exact + c) % TWO32
  {
    var shifted := ToUint32(wrapped * 32);
    var sum := ToUint32(shifted + wrapped);
    var lost := 33 * (exact / TWO32) + (wrapped * 32) / TWO32 + (shifted + wrapped) / TWO32;
    SameRemainder(33 * exact + c, sum + c, lost);
  }

  lemma SameRemainder(x: int, y: int, lost: int)
    requires x == y + lost * TWO32
    ensures x % TWO32 == y % TWO32
  {
    assert x - TWO32 * (x / TWO32) == x % TWO32;
    assert y - TWO32 * (y / TWO32) == y % TWO32;
    assert x / TWO32 == y / TWO32 + lost;
  }

  lemma BucketOfWrapped(exact: int)
    ensures (exact % TWO32) % BUCKETS == exact % BUCKETS
  {
    var q := exact / TWO32;
    assert exact == (q * 0x400_0000) * BUCKETS + exact % TWO32;
  }

  // ----- chains and tables -----

  function Truncate(name: Name): (n: Name)
    ensures |n| <= NAME_MAX
  {
    if |name| <= NAME_MAX then name else name[..NAME_MAX]
  }

  /** The position of the first entry of that name, or the length of the chain. */
  function FirstMatch(chain: Chain, name: Name): (i: nat)
    ensures i <= |chain|
    ensures i < |chain| ==> chain[i].name == name
    ensures forall k | 0 <= k < i :: chain[k].name != name
  {
    if chain == [] then 0
    else if chain[0].name == name then 0
    else 1 + FirstMatch(chain[1..], name)
  }

  function Get(chain: Chain, name: Name): Option<Params> {
    var i := FirstMatch(chain, name);
    if i < |chain| then Some(chain[i].params) else None
  }

  ghost predicate WellFormed(table: Table) {
    && |table| == BUCKETS
    && forall b, i | 0 <= b < BUCKETS && 0 <= i < |table[b]| :: |table[b][i].name| <= NAME_MAX
  }

  function Empty(): (table: Table)
    ensures |table| == BUCKETS
    ensures forall b | 0 <= b < BUCKETS :: table[b] == []
  {
    seq(BUCKETS, _ => [])
  }

  function Lookup(table: Table, name: Name): Option<Params>
    requires |table| == BUCKETS
  {
    Get(table[Bucket(name)], name)
  }

  function AddToChain(chain: Chain, name: Name, params: Params): Chain {
    var i := FirstMatch(chain, name);
    if i < |chain| then chain[i := Entry(chain[i].name, params)]
    else [Entry(Truncate(name), params)] + chain
  }

  function Add(table: Table, name: Name, params: Params): (t: Table)
    requires |table| == BUCKETS
    ensures |t| == BUCKETS
  {
    table[Bucket(name) := AddToChain(table[Bucket(name)], name, params)]
  }

  /** Adding changes one chain. */
  lemma AddIs(before: Table, name: Name, params: Params, after: Table)
    requires |before| == |after| == BUCKETS
    requires after[Bucket(name)] == AddToChain(before[Bucket(name)], name, params)
    requires forall c | 0 <= c < BUCKETS && c != Bucket(name) :: after[c] == before[c]
    ensures after == Add(before, name, params)
  {
  }

  /** So does pushing a name that is not there yet. */
  lemma PushIs(before: Table, name: Name, params: Params, after: Table)
    requires |before| == |after| == BUCKETS
    requires FirstMatch(before[Bucket(name)], name) == |before[Bucket(name)]|
    requires after[Bucket(name)] == [Entry(Truncate(name), params)] + before[Bucket(name)]
    requires forall c | 0 <= c < BUCKETS && c != Bucket(name) :: after[c] == before[c]
    ensures after == Add(before, name, params)
  {
    AddIs(before, name, params, after);
  }

  // ----- the table is a map -----

  /** What the table really is keyed by: the bucket of the full name and the stored part of it. */
  type Key = (nat, Name)

  function KeyOf(name: Name): Key {
    (Bucket(name), Truncate(name))
  }

  ghost predicate Agrees(table: Table, m: map<Key, Params>)
    requires |table| == BUCKETS
  {
    forall b: nat, n: Name | b < BUCKETS ::
      Get(table[b], n) == if (b, n) in m then Some(m[(b, n)]) else None
  }

  lemma SameNames(c: Chain, d: Chain, name: Name)
    requires |c| == |d| && forall k | 0 <= k < |c| :: c[k].name == d[k].name
    ensures FirstMatch(c, name) == FirstMatch(d, name)
  {
    var i, j := FirstMatch(c, name), FirstMatch(d, name);
    assert i < |c| ==> c[i].name == name && d[i].name == name;
    assert j < |d| ==> d[j].name == name && c[j].name == name;
  }

  lemma AddToChainGet(chain: Chain, name: Name, params: Params, other: Name)
    requires forall i | 0 <= i < |chain| :: |chain[i].name| <= NAME_MAX
    ensures Get(AddToChain(chain, name, params), other)
            == if other == Truncate(name) then Some(params) else Get(chain, other)
  {
    var i, j := FirstMatch(chain, name), FirstMatch(chain, other);
    var added := AddToChain(chain, name, params);
    if i < |chain| {
      SameNames(chain, added, other);
    } else {
      assert added[1..] == chain;
    }
  }

  /** For names of any length, adding is a map update at the name's key. */
  lemma AddRefinesUpdate(table: Table, m: map<Key, Params>, name: Name, params: Params)
    requires WellFormed(table) && Agrees(table, m)
    ensures WellFormed(Add(table, name, params))
    ensures Agrees(Add(table, name, params), m[KeyOf(name) := params])
  {
    forall b: nat, n: Name | b < BUCKETS
      ensures Get(Add(table, name, params)[b], n)
              == if (b, n) in m[KeyOf(name) := params] then Some(m[KeyOf(name) := params][(b, n)]) else None
    {
      if b == Bucket(name) {
        AddToChainGet(table[b], name, params, n);
      }
    }
  }

  /** A lookup reads the map at the name's key, except that an over-long name is never found. */
  lemma LookupRefinesRead(table: Table, m: map<Key, Params>, name: Name)
    requires WellFormed(table) && Agrees(table, m)
    ensures Lookup(table, name) == if |name| <= NAME_MAX && KeyOf(name) in m then Some(m[KeyOf(name)]) else None
  {
    var b := Bucket(name);
    assert Get(table[b], name) == if (b, name) in m then Some(m[(b, name)]) else None;
  }

  function KeyMapOf(ops: seq<Op>): map<Key, Params> {
    if ops == [] then map[] else KeyMapOf(ops[..|ops| - 1])[KeyOf(ops[|ops| - 1].name) := ops[|ops| - 1].params]
  }

  /** The keys are those of the additions, no more and no fewer. */
  lemma {:induction false} KeysOf(ops: seq<Op>, key: Key)
    ensures key in KeyMapOf(ops) <==> exists op | op in ops :: KeyOf(op.name) == key
  {
    if ops != [] {
      var init, last := ops[..|ops| - 1], ops[|ops| - 1];
      KeysOf(init, key);
      assert forall op | op in ops :: op in init || op == last;
      assert last in ops;
    }
  }

  /** Any sequence of additions whatever leaves the map of their keys. */
  lemma {:induction false} TableIsKeyMap(ops: seq<Op>)
    ensures WellFormed(AddAll(Empty(), ops)) && Agrees(AddAll(Empty(), ops), KeyMapOf(ops))
  {
    if ops != [] {
      var init, op := ops[..|ops| - 1], ops[|ops| - 1];
      TableIsKeyMap(init);
      AddRefinesUpdate(AddAll(Empty(), init), KeyMapOf(init), op.name, op.params);
    }
  }

  /** What was just added is found again exactly when its name fits the stored copy. */
  lemma FoundIffShort(table: Table, name: Name, params: Params)
    requires WellFormed(table)
    ensures Lookup(Add(table, name, params), name) == Some(params) <==> |name| <= NAME_MAX
    ensures |name| > NAME_MAX ==> Lookup(Add(table, name, params), name) == None
  {
    AddToChainGet(table[Bucket(name)], name, params, name);
    if |name| > NAME_MAX {
      var i := FirstMatch(table[Bucket(name)], name);
    }
  }

  /** A preset under 32 times the letter a is stored, and cannot be found. */
  lemma LongNameIsLost(params: Params)
    ensures
      var name: Name := seq(NAME_MAX + 1, _ => 97);
      && Add(Empty(), name, params)[Bucket(name)] == [Entry(seq(NAME_MAX, _ => 97), params)]
      && Lookup(Add(Empty(), name, params), name) == None
  {
    var name: Name := seq(NAME_MAX + 1, _ => 97);
    assert Truncate(name) == seq(NAME_MAX, _ => 97);
    FoundIffShort(Empty(), name, params);
  }

  // ----- with names that fit, a plain map -----

  /** Entries sit in the bucket of their name, and no name occurs twice anywhere. */
  ghost predicate Canonical(table: Table) {
    && WellFormed(table)
    && (forall b, i | 0 <= b < BUCKETS && 0 <= i < |table[b]| :: Bucket(table[b][i].name) == b)
    && (forall b, i, j | 0 <= b < BUCKETS && 0 <= i < j < |table[b]| :: table[b][i].name != table[b][j].name)
  }

  lemma AddKeepsCanonical(table: Table, name: Name, params: Params)
    requires Canonical(table) && |name| <= NAME_MAX
    ensures Canonical(Add(table, name, params))
  {
  }

  datatype Op = Op(name: Name, params: Params)

  function AddAll(table: Table, ops: seq<Op>): (t: Table)
    requires |table| == BUCKETS
    ensures |t| == BUCKETS
  {
    if ops == [] then table
    else Add(AddAll(table, ops[..|ops| - 1]), ops[|ops| - 1].name, ops[|ops| - 1].params)
  }

  // ----- when memory may run out -----

  /** An update needs no memory; a new entry is given up without. */
  function TryAdd(table: Table, name: Name, params: Params, available: bool): (t: Table)
    requires |table| == BUCKETS
    ensures |t| == BUCKETS
  {
    if available || Lookup(table, name).Some? then Add(table, name, params) else table
  }

  /** Whether there is memory for the i-th addition; past the end of the list there is not. */
  predicate Available(memory: seq<bool>, i: nat) {
    i < |memory| && memory[i]
  }

  function TryAddAll(table: Table, ops: seq<Op>, memory: seq<bool>): (t: Table)
    requires |table| == BUCKETS
    ensures |t| == BUCKETS
  {
    if ops == [] then table
    else
      var op := ops[|ops| - 1];
      TryAdd(TryAddAll(table, ops[..|ops| - 1], memory), op.name, op.params, Available(memory, |ops| - 1))
  }

  /** The additions that come through. */
  function Kept(table: Table, ops: seq<Op>, memory: seq<bool>): seq<Op>
    requires |table| == BUCKETS
  {
    if ops == [] then []
    else
      var init, op := ops[..|ops| - 1], ops[|ops| - 1];
      Kept(table, init, memory)
      + if Available(memory, |ops| - 1) || Lookup(TryAddAll(table, init, memory), op.name).Some? then [op] else []
  }

  /** The outcomes of the allocations these additions ask for: none for an update. */
  function Asked(table: Table, ops: seq<Op>, memory: seq<bool>): seq<bool>
    requires |table| == BUCKETS
  {
    if ops == [] then []
    else
      var init, op := ops[..|ops| - 1], ops[|ops| - 1];
      Asked(table, init, memory)
      + if Lookup(TryAddAll(table, init, memory), op.name).Some? then [] else [Available(memory, |ops| - 1)]
  }

  /** If all of them are granted, nothing is dropped. */
  lemma {:induction false} AllGranted(table: Table, ops: seq<Op>, memory: seq<bool>)
    requires |table| == BUCKETS && forall ok | ok in Asked(table, ops, memory) :: ok
    ensures TryAddAll(table, ops, memory) == AddAll(table, ops)
  {
    if ops != [] {
      var init := ops[..|ops| - 1];
      assert forall ok | ok in Asked(table, init, memory) :: ok in Asked(table, ops, memory);
      AllGranted(table, init, memory);
      if Lookup(TryAddAll(table, init, memory), ops[|ops| - 1].name).None? {
        assert Available(memory, |ops| - 1) in Asked(table, ops, memory);
      }
    }
  }

  lemma AddOne(table: Table, ops: seq<Op>, op: Op)
    requires |table| == BUCKETS
    ensures AddAll(table, ops + [op]) == Add(AddAll(table, ops), op.name, op.params)
  {
    assert (ops + [op])[..|ops|] == ops;
  }

  /** Running out of memory only drops additions. */
  lemma {:induction false} TriedIsKept(table: Table, ops: seq<Op>, memory: seq<bool>)
    requires |table| == BUCKETS
    ensures TryAddAll(table, ops, memory) == AddAll(table, Kept(table, ops, memory))
  {
    if ops != [] {
      var init, op := ops[..|ops| - 1], ops[|ops| - 1];
      var kept := Kept(table, init, memory);
      TriedIsKept(table, init, memory);
      AddOne(table, kept, op);
      assert Kept(table, ops, memory) == kept + [op] || Kept(table, ops, memory) == kept;
    }
  }

  lemma {:induction false} KeptAreAsked(table: Table, ops: seq<Op>, memory: seq<bool>)
    requires |table| == BUCKETS
    ensures forall op | op in Kept(table, ops, memory) :: op in ops
  {
    if ops != [] {
      KeptAreAsked(table, ops[..|ops| - 1], memory);
    }
  }

  /** With none at all nothing does. */
  lemma {:induction false} NoneKept(ops: seq<Op>)
    ensures Kept(Empty(), ops, []) == []
  {
    if ops != [] {
      var init := ops[..|ops| - 1];
      NoneKept(init);
      TriedIsKept(Empty(), init, []);
    }
  }

  lemma {:induction false} LaterMemory(table: Table, ops: seq<Op>, memory: seq<bool>, more: bool)
    requires |table| == BUCKETS && |ops| <= |memory|
    ensures TryAddAll(table, ops, memory + [more]) == TryAddAll(table, ops, memory)
    ensures Asked(table, ops, memory + [more]) == Asked(table, ops, memory)
  {
    if ops != [] {
      LaterMemory(table, ops[..|ops| - 1], memory, more);
    }
  }

  lemma TryOne(table: Table, ops: seq<Op>, memory: seq<bool>, op: Op, available: bool)
    requires |table| == BUCKETS && |ops| == |memory|
    ensures TryAddAll(table, ops + [op], memory + [available])
            == TryAdd(TryAddAll(table, ops, memory), op.name, op.params, available)
    ensures Asked(table, ops + [op], memory + [available])
            == Asked(table, ops, memory)
               + if Lookup(TryAddAll(table, ops, memory), op.name).Some? then [] else [available]
  {
    assert (ops + [op])[..|ops|] == ops;
    LaterMemory(table, ops, memory, available);
  }

  function MapOf(ops: seq<Op>): map<Name, Params> {
    if ops == [] then map[] else MapOf(ops[..|ops| - 1])[ops[|ops| - 1].name := ops[|ops| - 1].params]
  }

  /** The number of entries in all chains. */
  function Size<T>(chains: seq<seq<T>>): nat {
    if chains == [] then 0 else Size(chains[..|chains| - 1]) + |chains[|chains| - 1]|
  }

  lemma {:induction false} SizeUpdate<T>(chains: seq<seq<T>>, b: nat, chain: seq<T>)
    requires b < |chains|
    ensures Size(chains[b := chain]) == Size(chains) - |chains[b]| + |chain|
  {
    var last := |chains| - 1;
    if b < last {
      SizeUpdate(chains[..last], b, chain);
      assert chains[b := chain][..last] == chains[..last][b := chain];
    } else {
      assert chains[b := chain][..last] == chains[..last];
    }
  }

  lemma {:induction false} EmptySize<T>(chains: seq<seq<T>>)
    requires forall b | 0 <= b < |chains| :: chains[b] == []
    ensures Size(chains) == 0
  {
    if chains != [] {
      EmptySize(chains[..|chains| - 1]);
    }
  }

  lemma {:induction false} SameSize<S, T>(c: seq<seq<S>>, d: seq<seq<T>>)
    requires |c| == |d| && forall b | 0 <= b < |c| :: |c[b]| == |d[b]|
    ensures Size(c) == Size(d)
  {
    if c != [] {
      SameSize(c[..|c| - 1], d[..|d| - 1]);
    }
  }

  /** Any sequence of additions of names that fit leaves exactly the map those additions build. */
  lemma {:induction false} TableIsMap(ops: seq<Op>)
    requires forall op | op in ops :: |op.name| <= NAME_MAX
    ensures Canonical(AddAll(Empty(), ops))
    ensures forall name ::
              Lookup(AddAll(Empty(), ops), name) == if name in MapOf(ops) then Some(MapOf(ops)[name]) else None
    ensures Size(AddAll(Empty(), ops)) == |MapOf(ops)|
  {
    if ops == [] {
      EmptySize(Empty());
    } else {
      var init, op := ops[..|ops| - 1], ops[|ops| - 1];
      TableIsMap(init);
      var table, m := AddAll(Empty(), init), MapOf(init);
      var b := Bucket(op.name);
      AddKeepsCanonical(table, op.name, op.params);
      SizeUpdate(table, b, AddToChain(table[b], op.name, op.params));
      assert Lookup(table, op.name).Some? <==> op.name in m;
      forall name: Name
        ensures Lookup(AddAll(Empty(), ops), name) == if name in MapOf(ops) then Some(MapOf(ops)[name]) else None
      {
        assert Lookup(table, name) == if name in m then Some(m[name]) else None;
        if Bucket(name) == b {
          AddToChainGet(table[b], op.name, op.params, name);
        }
      }
    }
  }
}
