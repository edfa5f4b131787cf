/**
  `ks_table`: a chained hash table from 64-bit ids to data. Nodes are linked in place; a chain is
  searched from its first node, and a new node goes to the front.
 */
module Table {

  datatype Option<T> = None | Some(value: T)

  class Slot<T> {
    var nextslot: Slot?<T>
    const slotid: nat
    const data: T

    constructor (id: nat, data: T)
      ensures slotid == id && this.data == data && nextslot == null
    {
      slotid, this.data, nextslot := id, data, null;
    }
  }

  // ---------------------------------------------------------------------------------------------
  // Chains as sequences of nodes

  /** What a search through the chain finds. */
  function Lookup<T>(chain: seq<Slot<T>>, id: nat): Option<T> {
    if chain == [] then None
    else if chain[0].slotid == id then Some(chain[0].data)
    else Lookup(chain[1..], id)
  }

  ghost predicate UniqueIds<T>(chain: seq<Slot<T>>) {
    forall i, j :: 0 <= i < j < |chain| ==> chain[i].slotid != chain[j].slotid
  }

  function Nth<T>(chain: seq<Slot<T>>, i: nat): Slot?<T> { if i < |chain| then chain[i] else null }

  /** The nodes of the chain are linked in this order, starting at `first`. */
  ghost predicate Linked<T>(first: Slot?<T>, chain: seq<Slot<T>>)
    reads chain
  {
    && first == Nth(chain, 0)
    && forall i {:trigger chain[i].nextslot} :: 0 <= i < |chain| ==> chain[i].nextslot == Nth(chain, i + 1)
  }

  lemma {:induction false} LookupMiss<T>(chain: seq<Slot<T>>, id: nat)
    requires forall i :: 0 <= i < |chain| ==> chain[i].slotid != id
    ensures Lookup(chain, id) == None
  {
    if chain != [] { LookupMiss(chain[1..], id); }
  }

  lemma {:induction false} LookupHit<T>(chain: seq<Slot<T>>, k: nat, id: nat)
    requires k < |chain| && chain[k].slotid == id && forall i :: 0 <= i < k ==> chain[i].slotid != id
    ensures Lookup(chain, id) == Some(chain[k].data)
  {
    if k > 0 { LookupHit(chain[1..], k - 1, id); }
  }

  function Without<T>(s: seq<T>, k: nat): seq<T>
    requires k < |s|
  {
    s[..k] + s[k + 1..]
  }

  /** Taking a node out makes its id unfindable and changes no other search. */
  lemma {:induction false} LookupWithout<T>(chain: seq<Slot<T>>, k: nat, id: nat)
    requires UniqueIds(chain) && k < |chain|
    ensures Lookup(Without(chain, k), id) == if id == chain[k].slotid then None else Lookup(chain, id)
  {
    if k == 0 {
      assert Without(chain, 0) == chain[1..];
      if id == chain[0].slotid { LookupMiss(chain[1..], id); }
    } else {
      LookupWithout(chain[1..], k - 1, id);
      assert Without(chain, k)[1..] == Without(chain[1..], k - 1);
    }
  }

  // ---------------------------------------------------------------------------------------------
  // Tables as sequences of chains

  /** Each node is in the chain its id belongs to, and no id is there twice. */
  ghost predicate Placed<T>(chains: seq<seq<Slot<T>>>, nodes: set<Slot<T>>) {
    && |chains| > 0
    && (forall i, j :: 0 <= i < |chains| && 0 <= j < |chains[i]| ==> chains[i][j] in nodes)
    && (forall i, j :: 0 <= i < |chains| && 0 <= j < |chains[i]| ==> chains[i][j].slotid % |chains| == i)
    && (forall i :: 0 <= i < |chains| ==> UniqueIds(chains[i]))
  }

  /** A search in the chain of an id finds exactly what the map says. */
  ghost predicate Agrees<T>(chains: seq<seq<Slot<T>>>, contents: map<nat, T>)
    requires |chains| > 0
  {
    forall id: nat :: Lookup(chains[id % |chains|], id) == if id in contents then Some(contents[id]) else None
  }

  lemma AgreesAt<T>(chains: seq<seq<Slot<T>>>, contents: map<nat, T>, id: nat)
    requires |chains| > 0 && Agrees(chains, contents)
    ensures Lookup(chains[id % |chains|], id) == if id in contents then Some(contents[id]) else None
  {
  }

  lemma FrontKeeps<T>(chains: seq<seq<Slot<T>>>, nodes: set<Slot<T>>, contents: map<nat, T>, node: Slot<T>)
    requires Placed(chains, nodes) && Agrees(chains, contents) && node.slotid !in contents
    ensures var i := node.slotid % |chains|; var chains' := chains[i := [node] + chains[i]];
      Placed(chains', nodes + {node}) && Agrees(chains', contents[node.slotid := node.data])
  {
    var i := node.slotid % |chains|;
    var chain := [node] + chains[i];
    forall j | 0 <= j < |chains[i]| ensures chains[i][j].slotid != node.slotid {
      FoundIfThere(chains[i], j);
    }
    assert UniqueIds(chain);
    assert chain[1..] == chains[i];
  }

  /** A node's id is found in its chain. */
  lemma {:induction false} FoundIfThere<T>(chain: seq<Slot<T>>, j: nat)
    requires j < |chain|
    ensures Lookup(chain, chain[j].slotid).Some?
  {
    if j > 0 { FoundIfThere(chain[1..], j - 1); }
  }

  lemma WithoutKeeps<T>(chains: seq<seq<Slot<T>>>, nodes: set<Slot<T>>, contents: map<nat, T>, i: nat, k: nat)
    requires Placed(chains, nodes) && Agrees(chains, contents) && i < |chains| && k < |chains[i]|
    ensures var id := chains[i][k].slotid; var chains' := chains[i := Without(chains[i], k)];
      && id in contents && Placed(chains', nodes - {chains[i][k]}) && Agrees(chains', contents - {id})
  {
    var id, chain := chains[i][k].slotid, Without(chains[i], k);
    assert id % |chains| == i;
    forall a, b | 0 <= a < |chains| && 0 <= b < |chains[a]| && !(a == i && b == k)
      ensures chains[a][b] != chains[i][k]
    {
      assert chains[a][b].slotid % |chains| == a;
    }
    FoundIfThere(chains[i], k);
    var chains' := chains[i := chain];
    forall x: nat
      ensures Lookup(chains'[x % |chains|], x) == if x in contents - {id} then Some((contents - {id})[x]) else None
    {
      LookupWithout(chains[i], k, x);
    }
  }

  // ---------------------------------------------------------------------------------------------
  // The table

  class KsTable<T> {
    const slots: array<Slot?<T>>
    var memberCount: nat
    ghost var chains: seq<seq<Slot<T>>>
    ghost var nodes: set<Slot<T>>         // the nodes allocated and not freed
    ghost var contents: map<nat, T>       // the finite map the table stands for

    ghost predicate Chained()
      reads this, slots, nodes
    {
      && |chains| == slots.Length > 0 && Placed(chains, nodes)
      && forall i :: 0 <= i < |chains| ==> Linked(slots[i], chains[i])
    }

    ghost predicate Valid()
      reads this, slots, nodes
    {
      Chained() && Agrees(chains, contents) && memberCount == |contents|
    }

    /** `INIT_KS_TABLE` */
    constructor (maxSlots: nat)
      requires maxSlots > 0
      ensures Valid() && contents == map[] && fresh(slots) && nodes == {} && slots.Length == maxSlots
    {
      slots := new Slot?<T>[maxSlots](_ => null);
      memberCount := 0;
      chains, nodes, contents := seq(maxSlots, _ => []), {}, map[];
    }

    method Find(id: nat) returns (r: Option<T>)
      requires Valid()
      ensures r == if id in contents then Some(contents[id]) else None
    {
      var index := id % slots.Length;
      var current := slots[index];
      ghost var k, chain := 0, chains[index];
      while current != null
        invariant 0 <= k <= |chain| && current == Nth(chain, k)
        invariant forall i :: 0 <= i < k ==> chain[i].slotid != id
        decreases |chain| - k
      {
        if current.slotid == id {
          LookupHit(chain, k, id);
          return Some(current.data);
        }
        current := current.nextslot;
        k := k + 1;
      }
      LookupMiss(chain, id);
      r := None;
    }

    /** A rejected insert changes nothing. The walk along the chain is that of `Find`. */
    method Insert(id: nat, data: T) returns (ok: bool)
      requires Valid()
      modifies this, slots
      ensures Valid() && ok == (id !in old(contents))
      ensures contents == if ok then old(contents)[id := data] else old(contents)
      ensures !ok ==> slots[..] == old(slots[..]) && chains == old(chains) && memberCount == old(memberCount)
      ensures var i := id % slots.Length;
        ok ==> slots[i] != null && fresh(slots[i]) && chains == old(chains)[i := [slots[i]] + old(chains)[i]]
      ensures forall n :: n in nodes ==> n in old(nodes) || fresh(n)
    {
      hide Placed, Agrees;
      var index := id % slots.Length;
      var node := new Slot(id, data);
      var found := Find(id);
      if found.Some? {
        return false;
      }
      Link(node, index);
      ok := true;
    }

    /** The new node becomes the first of its chain. */
    method Link(node: Slot<T>, index: nat)
      requires Valid() && node !in nodes && index == node.slotid % slots.Length && node.slotid !in contents
      modifies this, slots, node
      ensures Valid() && nodes == old(nodes) + {node} && contents == old(contents)[node.slotid := node.data]
      ensures slots[index] == node && chains == old(chains)[index := [node] + old(chains)[index]]
    {
      hide Placed, Agrees;
      FrontKeeps(chains, nodes, contents, node);
      OnlyOneChain(node);
      ghost var chain := chains[index];
      node.nextslot := slots[index];
      slots[index] := node;
      memberCount := memberCount + 1;
      nodes := nodes + {node};
      chains := chains[index := [node] + chain];
      contents := contents[node.slotid := node.data];
    }

    /** A node in one place of a chain is in no other place of any chain. */
    lemma OnlyOnePlace(i: nat, k: nat)
      requires Chained() && i < |chains| && k < |chains[i]|
      ensures forall a, b ::
                0 <= a < |chains| && 0 <= b < |chains[a]| && !(a == i && b == k) ==> chains[a][b] != chains[i][k]
      ensures chains[i][k].slotid % slots.Length == i
    {
      forall a, b | 0 <= a < |chains| && 0 <= b < |chains[a]| && !(a == i && b == k)
        ensures chains[a][b] != chains[i][k]
      {
        assert chains[a][b].slotid % |chains| == a && chains[i][k].slotid % |chains| == i;
      }
    }

    /** `at` is where in its chain the node was. */
    method Remove(id: nat) returns (ok: bool, ghost at: nat)
      requires Valid()
      modifies this, slots, nodes
      ensures Valid() && ok == (id in old(contents)) && contents == old(contents) - {id} && nodes <= old(nodes)
      ensures !ok ==> slots[..] == old(slots[..]) && chains == old(chains) && memberCount == old(memberCount)
      ensures var i := id % slots.Length; var chain := old(chains)[i];
        ok ==> at < |chain| && chain[at].slotid == id && nodes == old(nodes) - {chain[at]}
               && chains == old(chains)[i := Without(chain, at)]
    {
      hide Placed, Agrees;
      AgreesAt(chains, contents, id);
      var index := id % slots.Length;
      var current, prev: Slot?<T> := slots[index], null;
      ghost var chain := chains[index];
      at := 0;
      while current != null
        invariant at <= |chain| && current == Nth(chain, at) && prev == if at == 0 then null else chain[at - 1]
        invariant forall i :: 0 <= i < at ==> chain[i].slotid != id
        decreases |chain| - at
      {
        if current.slotid == id {
          LookupHit(chain, at, id);
          if at > 0 { NodeIsLive(index, at - 1); }
          Unlink(current, prev, index, at);
          ok := true;
          return;
        }
        prev := current;
        current := current.nextslot;
        at := at + 1;
      }
      LookupMiss(chain, id);
      assert contents - {id} == contents;
      ok := false;
    }

    /** The node at `k` is taken out of its chain and freed. */
    method Unlink(current: Slot<T>, prev: Slot?<T>, index: nat, ghost k: nat)
      requires Valid() && index < slots.Length && k < |chains[index]| && current == chains[index][k]
      requires prev == if k == 0 then null else chains[index][k - 1]
      modifies this, slots, prev
      ensures Valid() && contents == old(contents) - {current.slotid} && nodes == old(nodes) - {current}
      ensures chains == old(chains)[index := Without(old(chains)[index], k)]
    {
      hide Placed, Agrees, Linked;
      WithoutKeeps(chains, nodes, contents, index, k);
      memberCount := memberCount - 1;
      Bypass(current, prev, index, k);
      chains := chains[index := Without(chains[index], k)];
      nodes := nodes - {current};
      contents := contents - {current.slotid};
    }

    /** `prev`, or the slot, is made to point past `current`. */
    method Bypass(current: Slot<T>, prev: Slot?<T>, index: nat, ghost k: nat)
      requires Chained() && index < slots.Length && k < |chains[index]| && current == chains[index][k]
      requires prev == if k == 0 then null else chains[index][k - 1]
      modifies slots, prev
      ensures forall i ::
                0 <= i < |chains| ==> Linked(slots[i], if i == index then Without(chains[i], k) else chains[i])
    {
      hide Placed;
      if k > 0 { OnlyOnePlace(index, k - 1); }
      ghost var chain, rest := chains[index], Without(chains[index], k);
      if prev != null {
        prev.nextslot := current.nextslot;
      } else {
        slots[index] := current.nextslot;
      }
      forall j | 0 <= j < |rest| ensures rest[j].nextslot == Nth(rest, j + 1) {
        assert rest[j] == if j < k then chain[j] else chain[j + 1];
      }
    }

    lemma NodeIsLive(i: nat, k: nat)
      requires Chained() && i < |chains| && k < |chains[i]|
      ensures chains[i][k] in nodes && chains[i][k].nextslot == Nth(chains[i], k + 1)
    {
    }

    lemma FirstOf(i: nat)
      requires Chained() && i < |chains|
      ensures slots[i] == Nth(chains[i], 0)
    {
    }

    lemma OnlyOneChain(node: Slot<T>)
      requires Chained() && node !in nodes
      ensures forall i :: 0 <= i < |chains| ==> node !in chains[i]
    {
    }

    /** `ks_table_clear` */
    method Clear()
      requires Valid()
      modifies this, slots
      ensures Valid() && contents == map[] && nodes == {}
    {
      hide Placed, Agrees, Linked;
      var i := 0;
      while i < slots.Length
        invariant i <= slots.Length == |chains| && chains == old(chains)
        invariant forall j :: 0 <= j < i ==> slots[j] == null
      {
        slots[i] := null;
        i := i + 1;
      }
      memberCount := 0;
      chains, nodes, contents := seq(slots.Length, _ => []), {}, map[];
      NothingThere();
    }

    lemma NothingThere()
      requires |chains| == slots.Length > 0 && forall i :: 0 <= i < |chains| ==> chains[i] == [] && slots[i] == null
      requires nodes == {} && contents == map[] && memberCount == 0
      ensures Valid()
    {
    }

    /**
      `ks_table_enum` with a callback that removes the entry it is called with if `drop` says so. A
      node is never looked at after it has been freed; `visited` records the calls.
     */
    method Enum(drop: (nat, T) -> bool) returns (visited: seq<(nat, T)>)
      requires Valid()
      modifies this, slots, nodes
      ensures Valid() && visited == Entries(old(chains), |old(chains)|)
      ensures EachOnce(visited, old(contents))
      ensures chains == KeptTo(old(chains), drop, |old(chains)|)
      ensures Filtered(old(contents), drop, contents)
    {
      hide Placed, Agrees, Linked, Kept, Pairs, KeptTo, Entries, EachOnce, Filtered;
      visited := [];
      var i := 0;
      NothingEnumerated(chains, drop);
      while i < slots.Length
        invariant i <= slots.Length == |old(chains)| && Valid() && nodes <= old(nodes)
        invariant chains == KeptTo(old(chains), drop, i)
        invariant visited == Entries(old(chains), i)
      {
        ChainEnumerated(old(chains), drop, i);
        var calls := EnumChain(drop, i);
        visited := visited + calls;
        i := i + 1;
      }
      KeptAgrees(old(chains), old(nodes), old(contents), drop, chains, contents);
      EntriesEachOnce(old(chains), old(nodes), old(contents));
    }

    /** The walk along one chain. */
    method EnumChain(drop: (nat, T) -> bool, i: nat) returns (visited: seq<(nat, T)>)
      requires Valid() && i < slots.Length
      modifies this, slots, nodes
      ensures Valid() && nodes <= old(nodes)
      ensures visited == Pairs(old(chains)[i])
      ensures chains == old(chains)[i := Kept(old(chains)[i], drop)]
    {
      hide Placed, Agrees, Linked, Kept, Pairs, Walked;
      FirstOf(i);
      visited := [];
      var current := slots[i];
      ghost var all, chain, j := chains, chains[i], 0;
      WalkBegins(all, drop, i);
      while current != null
        invariant 0 <= j <= |chain| && current == Nth(chain, j) && Valid() && nodes <= old(nodes)
        invariant chains == Walked(all, drop, i, j) && visited == Pairs(chain[..j])
        decreases |chain| - j
      {
        PairsNext(chain, j);
        visited := visited + [(current.slotid, current.data)];
        current := EnumStep(drop, current, i, all, j);
        j := j + 1;
      }
      WalkEnds(all, drop, i);
    }

    /** One round of the walk: the successor is read before the callback may free the node. */
    method EnumStep(drop: (nat, T) -> bool, current: Slot<T>, ghost i: nat, ghost all: seq<seq<Slot<T>>>, ghost j: nat)
        returns (next: Slot?<T>)
      requires Valid() && i < |all| && j < |all[i]| && current == all[i][j] && chains == Walked(all, drop, i, j)
      modifies this, slots, nodes
      ensures Valid() && nodes <= old(nodes)
      ensures next == Nth(all[i], j + 1) && chains == Walked(all, drop, i, j + 1)
    {
      hide Placed, Agrees, Linked, Kept, Walked, Without;
      ghost var k := |Kept(all[i][..j], drop)|;
      WalkedNext(all, drop, i, j);
      NodeIsLive(i, k);   // `current` has not been freed
      next := current.nextslot;
      Callback(drop, current, i, k);
    }

    method Callback(drop: (nat, T) -> bool, current: Slot<T>, ghost i: nat, ghost k: nat)
      requires Valid() && i < |chains| && k < |chains[i]| && chains[i][k] == current
      modifies this, slots, nodes
      ensures Valid() && nodes <= old(nodes)
      ensures chains == if drop(current.slotid, current.data) then old(chains)[i := Without(old(chains)[i], k)]
        else old(chains)
    {
      if drop(current.slotid, current.data) {
        OnlyId(i, k);
        var ok, at := Remove(current.slotid);
      }
    }

    /** The id of a node is nowhere else in the table. */
    lemma OnlyId(i: nat, k: nat)
      requires Valid() && i < |chains| && k < |chains[i]|
      ensures chains[i][k].slotid in contents && chains[i][k].slotid % slots.Length == i
      ensures forall j :: 0 <= j < |chains[i]| && chains[i][j].slotid == chains[i][k].slotid ==> j == k
    {
      FoundIfThere(chains[i], k);
    }
  }

  // ---------------------------------------------------------------------------------------------
  // Enumeration as a filter

  /** The nodes of a chain that the callback leaves. */
  function Kept<T>(chain: seq<Slot<T>>, drop: (nat, T) -> bool): seq<Slot<T>> {
    if chain == [] then []
    else
      var n := |chain| - 1;
      Kept(chain[..n], drop) + if drop(chain[n].slotid, chain[n].data) then [] else [chain[n]]
  }

  function Pairs<T>(chain: seq<Slot<T>>): seq<(nat, T)> {
    if chain == [] then [] else Pairs(chain[..|chain| - 1]) + [(chain[|chain| - 1].slotid, chain[|chain| - 1].data)]
  }

  /** The entries of the first `n` chains, chain after chain. */
  function Entries<T>(chains: seq<seq<Slot<T>>>, n: nat): seq<(nat, T)>
    requires n <= |chains|
  {
    if n == 0 then [] else Entries(chains, n - 1) + Pairs(chains[n - 1])
  }

  /** The chains when the first `n` of them have been enumerated. */
  function KeptTo<T>(chains: seq<seq<Slot<T>>>, drop: (nat, T) -> bool, n: nat): (r: seq<seq<Slot<T>>>)
    requires n <= |chains|
    ensures |r| == |chains|
    ensures forall i :: 0 <= i < |chains| ==> r[i] == if i < n then Kept(chains[i], drop) else chains[i]
  {
    if n == 0 then chains else KeptTo(chains, drop, n - 1)[n - 1 := Kept(chains[n - 1], drop)]
  }

  lemma NothingEnumerated<T>(chains: seq<seq<Slot<T>>>, drop: (nat, T) -> bool)
    ensures KeptTo(chains, drop, 0) == chains && Entries(chains, 0) == []
  {
  }

  lemma ChainEnumerated<T>(chains: seq<seq<Slot<T>>>, drop: (nat, T) -> bool, n: nat)
    requires n < |chains|
    ensures KeptTo(chains, drop, n)[n] == chains[n]
    ensures KeptTo(chains, drop, n + 1) == KeptTo(chains, drop, n)[n := Kept(chains[n], drop)]
    ensures Entries(chains, n + 1) == Entries(chains, n) + Pairs(chains[n])
  {
  }

  /** The chains when the first `j` nodes of chain `i` have been enumerated. */
  function Walked<T>(all: seq<seq<Slot<T>>>, drop: (nat, T) -> bool, i: nat, j: nat): seq<seq<Slot<T>>>
    requires i < |all| && j <= |all[i]|
  {
    all[i := Kept(all[i][..j], drop) + all[i][j..]]
  }

  lemma WalkBegins<T>(all: seq<seq<Slot<T>>>, drop: (nat, T) -> bool, i: nat)
    requires i < |all|
    ensures Walked(all, drop, i, 0) == all && Pairs(all[i][..0]) == []
  {
    assert all[i][..0] == [] && Kept(all[i][..0], drop) + all[i][0..] == all[i];
  }

  lemma WalkEnds<T>(all: seq<seq<Slot<T>>>, drop: (nat, T) -> bool, i: nat)
    requires i < |all|
    ensures all[i][..|all[i]|] == all[i] && Walked(all, drop, i, |all[i]|) == all[i := Kept(all[i], drop)]
  {
    hide Kept;
    var chain := all[i];
    assert chain[..|chain|] == chain && Kept(chain, drop) + chain[|chain|..] == Kept(chain, drop);
  }

  /** The next node stands behind those that were kept, and goes if it is dropped. */
  lemma WalkedNext<T>(all: seq<seq<Slot<T>>>, drop: (nat, T) -> bool, i: nat, j: nat)
    requires i < |all| && j < |all[i]|
    ensures var now, next := Walked(all, drop, i, j), Walked(all, drop, i, j + 1);
      var chain, k := all[i], |Kept(all[i][..j], drop)|;
      && |now| == |all| && k < |now[i]| && now[i][k] == chain[j] && Nth(now[i], k + 1) == Nth(chain, j + 1)
      && next == if drop(chain[j].slotid, chain[j].data) then now[i := Without(now[i], k)] else now
  {
    hide Kept;
    var chain := all[i];
    KeptNext(chain, j, drop);
    var now, next := Kept(chain[..j], drop) + chain[j..], Kept(chain[..j + 1], drop) + chain[j + 1..];
    assert all[i := now][i := next] == all[i := next];
  }

  lemma KeptNext<T>(chain: seq<Slot<T>>, j: nat, drop: (nat, T) -> bool)
    requires j < |chain|
    ensures var now, next := Kept(chain[..j], drop) + chain[j..], Kept(chain[..j + 1], drop) + chain[j + 1..];
      && |Kept(chain[..j], drop)| < |now|
      && next == if drop(chain[j].slotid, chain[j].data) then Without(now, |Kept(chain[..j], drop)|) else now
  {
    assert chain[..j + 1][..j] == chain[..j];
  }

  lemma PairsNext<T>(chain: seq<Slot<T>>, j: nat)
    requires j < |chain|
    ensures Pairs(chain[..j + 1]) == Pairs(chain[..j]) + [(chain[j].slotid, chain[j].data)]
  {
    assert chain[..j + 1][..j] == chain[..j];
  }

  /** The new map has the entries of the old one that are not to be dropped, and no others. */
  ghost predicate Filtered<T>(before: map<nat, T>, drop: (nat, T) -> bool, after: map<nat, T>) {
    && (forall id :: id in after <==> id in before && !drop(id, before[id]))
    && (forall id :: id in after ==> after[id] == before[id])
  }

  /** A search in the remaining nodes finds what the old search found, unless that was dropped. */
  lemma {:induction false} LookupKept<T>(chain: seq<Slot<T>>, drop: (nat, T) -> bool, id: nat)
    requires UniqueIds(chain)
    ensures var r := Lookup(chain, id);
      Lookup(Kept(chain, drop), id) == if r.Some? && drop(id, r.value) then None else r
  {
    if chain != [] {
      var n := |chain| - 1;
      LookupKept(chain[..n], drop, id);
      var last := [chain[n]];
      assert chain == chain[..n] + last;
      LookupConcat(chain[..n], last, id);
      LookupConcat(Kept(chain[..n], drop), if drop(chain[n].slotid, chain[n].data) then [] else last, id);
      if chain[n].slotid == id { LookupMiss(chain[..n], id); }
    }
  }

  lemma {:induction false} LookupConcat<T>(a: seq<Slot<T>>, b: seq<Slot<T>>, id: nat)
    ensures Lookup(a + b, id) == if Lookup(a, id).Some? then Lookup(a, id) else Lookup(b, id)
  {
    if a == [] {
      assert a + b == b;
    } else {
      LookupConcat(a[1..], b, id);
      assert (a + b)[1..] == a[1..] + b;
    }
  }

  lemma KeptAgrees<T>(chains: seq<seq<Slot<T>>>, nodes: set<Slot<T>>, contents: map<nat, T>, drop: (nat, T) -> bool,
                      chains': seq<seq<Slot<T>>>, contents': map<nat, T>)
    requires Placed(chains, nodes) && Agrees(chains, contents)
    requires |chains'| == |chains| > 0 && chains' == KeptTo(chains, drop, |chains|) && Agrees(chains', contents')
    ensures Filtered(contents, drop, contents')
  {
    hide Placed, Agrees, KeptTo, Kept, Lookup;
    forall id: nat
      ensures (id in contents' <==> id in contents && !drop(id, contents[id]))
        && (id in contents' ==> contents'[id] == contents[id])
    {
      AgreesAt(chains, contents, id);
      AgreesAt(chains', contents', id);
      PlacedUnique(chains, nodes, id % |chains|);
      LookupKept(chains[id % |chains|], drop, id);
    }
  }

  lemma PlacedUnique<T>(chains: seq<seq<Slot<T>>>, nodes: set<Slot<T>>, i: nat)
    requires Placed(chains, nodes) && i < |chains|
    ensures UniqueIds(chains[i])
  {
  }

  // ---------------------------------------------------------------------------------------------
  // An enumeration visits every entry once

  lemma {:induction false} PairsAreNodes<T>(chain: seq<Slot<T>>)
    ensures |Pairs(chain)| == |chain|
    ensures forall j :: 0 <= j < |chain| ==> Pairs(chain)[j] == (chain[j].slotid, chain[j].data)
  {
    if chain != [] { PairsAreNodes(chain[..|chain| - 1]); }
  }

  /** No id comes twice, and only ids of the first `n` chains come. */
  lemma {:induction false} EntriesUnique<T>(chains: seq<seq<Slot<T>>>, nodes: set<Slot<T>>, n: nat)
    requires Placed(chains, nodes) && n <= |chains|
    ensures forall i :: 0 <= i < |Entries(chains, n)| ==> Entries(chains, n)[i].0 % |chains| < n
    ensures forall i, j :: 0 <= i < j < |Entries(chains, n)| ==> Entries(chains, n)[i].0 != Entries(chains, n)[j].0
  {
    if n > 0 {
      EntriesUnique(chains, nodes, n - 1);
      PairsAreNodes(chains[n - 1]);
    }
  }

  /** Each entry of the map comes, and nothing else. */
  lemma {:induction false} EntriesComplete<T>(chains: seq<seq<Slot<T>>>, nodes: set<Slot<T>>, contents: map<nat, T>,
          n: nat, id: nat, data: T)
    requires Placed(chains, nodes) && Agrees(chains, contents) && n <= |chains|
    ensures (id, data) in Entries(chains, n) <==> id % |chains| < n && id in contents && contents[id] == data
  {
    if n > 0 {
      EntriesComplete(chains, nodes, contents, n - 1, id, data);
      PairsComplete(chains[n - 1], id, data);
      if id % |chains| != n - 1 { AbsentElsewhere(chains, nodes, n - 1, id); }
    }
  }

  lemma AbsentElsewhere<T>(chains: seq<seq<Slot<T>>>, nodes: set<Slot<T>>, i: nat, id: nat)
    requires Placed(chains, nodes) && i < |chains| && id % |chains| != i
    ensures Lookup(chains[i], id) == None
  {
    LookupMiss(chains[i], id);
  }

  lemma {:induction false} PairsComplete<T>(chain: seq<Slot<T>>, id: nat, data: T)
    requires UniqueIds(chain)
    ensures (id, data) in Pairs(chain) <==> Lookup(chain, id) == Some(data)
  {
    if chain != [] {
      var n := |chain| - 1;
      PairsComplete(chain[..n], id, data);
      assert chain == chain[..n] + [chain[n]];
      LookupConcat(chain[..n], [chain[n]], id);
      if chain[n].slotid == id { LookupMiss(chain[..n], id); }
    }
  }

  /** Every entry of the map is visited, no id twice, and nothing but entries of the map. */
  ghost predicate EachOnce<T>(visited: seq<(nat, T)>, contents: map<nat, T>) {
    && (forall id :: id in contents ==> (id, contents[id]) in visited)
    && (forall i :: 0 <= i < |visited| ==> visited[i].0 in contents && contents[visited[i].0] == visited[i].1)
    && (forall i, j :: 0 <= i < j < |visited| ==> visited[i].0 != visited[j].0)
  }

  lemma EntriesEachOnce<T>(chains: seq<seq<Slot<T>>>, nodes: set<Slot<T>>, contents: map<nat, T>)
    requires |chains| > 0 && Placed(chains, nodes) && Agrees(chains, contents)
    ensures EachOnce(Entries(chains, |chains|), contents)
  {
    hide Placed, Agrees, Entries;
    var visited := Entries(chains, |chains|);
    EntriesUnique(chains, nodes, |chains|);
    forall id | id in contents ensures (id, contents[id]) in visited {
      EntriesComplete(chains, nodes, contents, |chains|, id, contents[id]);
    }
    forall i | 0 <= i < |visited| ensures visited[i].0 in contents && contents[visited[i].0] == visited[i].1 {
      EntriesComplete(chains, nodes, contents, |chains|, visited[i].0, visited[i].1);
    }
  }

  // ---------------------------------------------------------------------------------------------
  // Every run of the table is a run of a finite map

  datatype Op<T> = Put(id: nat, data: T) | Drop(id: nat) | Get(id: nat) | Empty

  datatype Answer<T> = Done(ok: bool) | Got(found: Option<T>)

  /** One operation of the finite map. */
  function Serve<T>(m: map<nat, T>, op: Op<T>): (Answer<T>, map<nat, T>) {
    match op
    case Put(id, data) => (Done(id !in m), if id in m then m else m[id := data])
    case Drop(id) => (Done(id in m), m - {id})
    case Get(id) => (Got(if id in m then Some(m[id]) else None), m)
    case Empty => (Done(true), map[])
  }

  function ServeAll<T>(m: map<nat, T>, ops: seq<Op<T>>): (seq<Answer<T>>, map<nat, T>) {
    if ops == [] then ([], m)
    else
      var (answers, m1) := ServeAll(m, ops[..|ops| - 1]);
      var (answer, m2) := Serve(m1, ops[|ops| - 1]);
      (answers + [answer], m2)
  }

  method Perform<T>(t: KsTable<T>, op: Op<T>) returns (answer: Answer<T>)
    requires t.Valid()
    modifies t, t.slots, t.nodes
    ensures t.Valid() && (answer, t.contents) == Serve(old(t.contents), op)
    ensures forall n :: n in t.nodes ==> n in old(t.nodes) || fresh(n)
  {
    answer := Done(true);
    match op {
      case Put(id, data) =>
        var ok := t.Insert(id, data);
        answer := Done(ok);
      case Drop(id) =>
        var ok, at := t.Remove(id);
        answer := Done(ok);
      case Get(id) =>
        var found := t.Find(id);
        answer := Got(found);
      case Empty => t.Clear();
    }
  }

  /** Refinement: whatever the operations, the table answers as the finite map does. */
  method Replay<T>(t: KsTable<T>, ops: seq<Op<T>>) returns (answers: seq<Answer<T>>)
    requires t.Valid()
    modifies t, t.slots, t.nodes
    ensures t.Valid() && (answers, t.contents) == ServeAll(old(t.contents), ops) && t.memberCount == |t.contents|
  {
    answers := [];
    var i := 0;
    while i < |ops|
      invariant i <= |ops| && t.Valid()
      invariant forall n :: n in t.nodes ==> n in old(t.nodes) || fresh(n)
      invariant (answers, t.contents) == ServeAll(old(t.contents), ops[..i])
    {
      assert ops[..i + 1][..i] == ops[..i];
      var answer := Perform(t, ops[i]);
      answers := answers + [answer];
      i := i + 1;
    }
    assert ops[..i] == ops;
  }
}
