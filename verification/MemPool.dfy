/**
  The size-class allocator of ulp/src/mempool.c.  A block is known by the address of its data; the
  header in front of the data is the `MemNode` of that address.  The free list of a class is the
  sequence its intrusive list spells (module IntrusiveList).  `size` and `length` of a header are
  16 bits wide (ulp/inc/mempool.h:75-76), the sizes of the configuration are not.
 */
module MemPool {
  import opened Bytes

  type Ptr = nat

  const NULL: Ptr := 0
  const UINT16: nat := 0x1_0000

  datatype PoolConfig = PoolConfig(size: nat, num: nat)

  datatype MemNode = MemNode(poolId: nat, size: nat, length: nat, isInUsed: bool, data: seq<byte>)

  /** The classes of the 64-bit build: block sizes less a header of 40 bytes, and block counts. */
  const CONFIG_X86_64: seq<PoolConfig> := [
    PoolConfig(256 - 40, 20480), PoolConfig(1024 - 40, 8192), PoolConfig(2048 - 40, 2048),
    PoolConfig(3072 - 40, 2048), PoolConfig(6144 - 40, 2048), PoolConfig(10240 - 40, 2048),
    PoolConfig(16384 - 40, 128), PoolConfig(20480 - 40, 32), PoolConfig(65536 - 40, 16),
    PoolConfig(262144 - 40, 8)]

  // ----- What an allocation picks -----

  /** findMatchPool: the first class whose blocks are large enough, or the number of classes. */
  function FindMatch(config: seq<PoolConfig>, length: nat, i: nat): (k: nat)
    requires i <= |config|
    ensures i <= k <= |config|
    ensures k < |config| ==> length <= config[k].size
    ensures forall j :: i <= j < k ==> config[j].size < length
    decreases |config| - i
  {
    if i == |config| || length <= config[i].size then i else FindMatch(config, length, i + 1)
  }

  /** The first class from `i` on with a free block, or the number of classes. */
  function FirstFree(pool: seq<seq<Ptr>>, i: nat): (k: nat)
    requires i <= |pool|
    ensures i <= k <= |pool|
    ensures k < |pool| ==> pool[k] != []
    ensures forall j :: i <= j < k ==> pool[j] == []
    decreases |pool| - i
  {
    if i == |pool| || pool[i] != [] then i else FirstFree(pool, i + 1)
  }

  /** The class an allocation takes its block from; the number of classes when it fails. */
  function PickClass(config: seq<PoolConfig>, pool: seq<seq<Ptr>>, length: nat): (k: nat)
    requires |pool| == |config|
    ensures k <= |pool| && (k < |pool| ==> pool[k] != [])
  {
    FirstFree(pool, FindMatch(config, length, 0))
  }

  /** Free blocks in the classes that can serve `length`. */
  function Spare(config: seq<PoolConfig>, pool: seq<seq<Ptr>>, length: nat): nat
    requires |pool| == |config|
  {
    FreeFrom(pool, FindMatch(config, length, 0))
  }

  function FreeFrom(pool: seq<seq<Ptr>>, i: nat): nat
    requires i <= |pool|
    decreases |pool| - i
  {
    if i == |pool| then 0 else |pool[i]| + FreeFrom(pool, i + 1)
  }

  /** Block sizes grow from class to class and stay below 2^31. */
  predicate Ascending(config: seq<PoolConfig>)
    decreases |config|
  {
    config != [] ==>
      && config[0].size < 0x8000_0000
      && (|config| > 1 ==> config[0].size < config[1].size)
      && Ascending(config[1..])
  }

  /** The configured classes meet what the allocator relies on. */
  lemma ConfigAscends()
    ensures Ascending(CONFIG_X86_64)
  {
  }

  lemma {:induction false} AscendingSizes(config: seq<PoolConfig>, i: nat, j: nat)
    requires Ascending(config) && i <= j < |config|
    ensures config[j].size < 0x8000_0000
    ensures i < j ==> config[i].size < config[j].size
    decreases |config|
  {
    if i > 0 {
      AscendingSizes(config[1..], i - 1, j - 1);
    } else if j > 0 {
      AscendingSizes(config[1..], 0, j - 1);
    }
  }

  lemma {:induction false} FreeFromDrops(pool: seq<seq<Ptr>>, pool': seq<seq<Ptr>>, i: nat, k: nat)
    requires i <= |pool| == |pool'| && k < |pool| && pool' == pool[k := pool'[k]]
    ensures k < i ==> FreeFrom(pool', i) == FreeFrom(pool, i)
    ensures k >= i ==> FreeFrom(pool', i) == FreeFrom(pool, i) - |pool[k]| + |pool'[k]|
    decreases |pool| - i
  {
    if i < |pool| { FreeFromDrops(pool, pool', i + 1, k); }
  }

  lemma {:induction false} FreeFromZero(pool: seq<seq<Ptr>>, i: nat)
    requires i <= |pool|
    ensures FreeFrom(pool, i) == 0 <==> FirstFree(pool, i) == |pool|
    decreases |pool| - i
  {
    if i < |pool| { FreeFromZero(pool, i + 1); }
  }

  lemma {:induction false} FreeFromShrinks(pool: seq<seq<Ptr>>, i: nat, j: nat)
    requires i <= j <= |pool|
    ensures FreeFrom(pool, i) >= FreeFrom(pool, j)
    decreases j - i
  {
    if i < j { FreeFromShrinks(pool, i + 1, j); }
  }

  /** With ascending sizes the class picked is the smallest one that fits and has a free block. */
  lemma PicksSmallest(config: seq<PoolConfig>, pool: seq<seq<Ptr>>, length: nat)
    requires |pool| == |config| && Ascending(config)
    ensures var k := PickClass(config, pool, length);
            && (k < |pool| ==> length <= config[k].size && pool[k] != [])
            && (forall j :: 0 <= j < |pool| && length <= config[j].size && pool[j] != [] ==> k <= j)
  {
    var m := FindMatch(config, length, 0);
    var k := FirstFree(pool, m);
    if m < k < |pool| {
      AscendingSizes(config, m, k);
    }
  }

  /** A smaller request has at least the spare blocks of a larger one, and fails only with none. */
  lemma SpareMonotone(config: seq<PoolConfig>, pool: seq<seq<Ptr>>, small: nat, large: nat)
    requires |pool| == |config| && small <= large
    ensures Spare(config, pool, small) >= Spare(config, pool, large)
    ensures PickClass(config, pool, small) == |pool| ==> Spare(config, pool, large) == 0
  {
    var i, j := FindMatch(config, small, 0), FindMatch(config, large, 0);
    assert i <= j;
    FreeFromShrinks(pool, i, j);
    FreeFromZero(pool, i);
  }

  /** Taking one block costs at most one spare block of any request size. */
  lemma TakingSpends(config: seq<PoolConfig>, pool: seq<seq<Ptr>>, k: nat, max: nat)
    requires |pool| == |config| && k < |pool| && pool[k] != []
    ensures Spare(config, pool[k := pool[k][1..]], max) + 1 >= Spare(config, pool, max)
  {
    FreeFromDrops(pool, pool[k := pool[k][1..]], FindMatch(config, max, 0), k);
  }

  lemma GivingKeeps(config: seq<PoolConfig>, pool: seq<seq<Ptr>>, k: nat, p: Ptr, max: nat)
    requires |pool| == |config| && k < |pool|
    ensures Spare(config, pool[k := pool[k] + [p]], max) >= Spare(config, pool, max)
  {
    FreeFromDrops(pool, pool[k := pool[k] + [p]], FindMatch(config, max, 0), k);
  }

  // ----- The pool -----

  ghost predicate NoDuplicates(s: seq<Ptr>) {
    forall i, j :: 0 <= i < j < |s| ==> s[i] != s[j]
  }

  predicate BlockOk(config: seq<PoolConfig>, n: MemNode) {
    && n.poolId < |config|
    && |n.data| == config[n.poolId].size
    && n.size == |n.data| % UINT16
    && n.length <= |n.data| && n.length < UINT16
  }

  ghost predicate ListOk(node: map<Ptr, MemNode>, list: seq<Ptr>, poolId: nat) {
    && NoDuplicates(list)
    && (forall p :: p in list ==> p in node && !node[p].isInUsed && node[p].poolId == poolId)
  }

  /** No block is made or destroyed, and none moves to another class. */
  predicate AtHome(node: map<Ptr, MemNode>, home: map<Ptr, nat>) {
    node.Keys == home.Keys && forall p :: p in node ==> node[p].poolId == home[p]
  }

  /** Every block is either live or on the free list of its own class, once. */
  ghost predicate Partitioned(config: seq<PoolConfig>, node: map<Ptr, MemNode>, pool: seq<seq<Ptr>>) {
    && |pool| == |config| && Ascending(config)
    && NULL !in node
    && (forall p :: p in node ==> BlockOk(config, node[p]))
    && (forall i :: 0 <= i < |pool| ==> ListOk(node, pool[i], i))
    && (forall p :: p in node && !node[p].isInUsed ==> p in pool[node[p].poolId])
  }

  lemma ClassesMatch(config: seq<PoolConfig>, node: map<Ptr, MemNode>, pool: seq<seq<Ptr>>)
    requires Partitioned(config, node, pool)
    ensures |pool| == |config| && Ascending(config)
  {
  }

  lemma Taken(config: seq<PoolConfig>, node: map<Ptr, MemNode>, pool: seq<seq<Ptr>>, k: nat, length: nat)
    requires Partitioned(config, node, pool)
    requires k < |pool| && pool[k] != [] && length <= config[k].size
    ensures var p := pool[k][0];
            && p != NULL && p in node && !node[p].isInUsed && |node[p].data| == config[k].size
            && Partitioned(config, node[p := node[p].(length := length % UINT16, isInUsed := true)],
                           pool[k := pool[k][1..]])
  {
    var p := pool[k][0];
    assert ListOk(node, pool[k], k) && p in pool[k];
    var node' := node[p := node[p].(length := length % UINT16, isInUsed := true)];
    var pool' := pool[k := pool[k][1..]];
    assert BlockOk(config, node'[p]);
    forall i | 0 <= i < |pool'|
      ensures ListOk(node', pool'[i], i)
    {
      assert ListOk(node, pool[i], i);
      forall q | q in pool'[i]
        ensures q in node' && !node'[q].isInUsed && node'[q].poolId == i
      {
        assert q in pool[i];
      }
    }
    forall q | q in node' && !node'[q].isInUsed
      ensures q in pool'[node'[q].poolId]
    {
      assert q in pool[node[q].poolId];
    }
  }

  lemma Given(config: seq<PoolConfig>, node: map<Ptr, MemNode>, pool: seq<seq<Ptr>>, p: Ptr)
    requires Partitioned(config, node, pool)
    requires p in node && node[p].isInUsed
    ensures var k := node[p].poolId;
            && k < |pool|
            && Partitioned(config, node[p := node[p].(length := 0, isInUsed := false)], pool[k := pool[k] + [p]])
  {
    var k := node[p].poolId;
    assert BlockOk(config, node[p]);
    var node' := node[p := node[p].(length := 0, isInUsed := false)];
    var pool' := pool[k := pool[k] + [p]];
    forall i | 0 <= i < |pool'|
      ensures ListOk(node', pool'[i], i)
    {
      assert ListOk(node, pool[i], i);
      forall q | q in pool'[i]
        ensures q in node' && !node'[q].isInUsed && node'[q].poolId == i
      {
        assert q == p || q in pool[i];
      }
    }
    forall q | q in node' && !node'[q].isInUsed
      ensures q in pool'[node'[q].poolId]
    {
      if q != p { assert q in pool[node[q].poolId]; }
    }
  }

  /** A block changes its bytes and its length but not its owner. */
  lemma ClippedTail(data: seq<byte>, length: nat, where: nat)
    requires where < length <= |data|
    ensures data[..where] == data[..length][..where] + data[..length][length..]
  {
  }

  lemma MovedTail(data: seq<byte>, length: nat, where: nat, count: nat)
    requires where + count <= length <= |data|
    ensures Splice(data, where, data[where + count..length])[..length - count] == data[..length][..where] + data[..length][where + count..]
  {
  }

  lemma Rewritten(config: seq<PoolConfig>, node: map<Ptr, MemNode>, pool: seq<seq<Ptr>>, p: Ptr, n: MemNode)
    requires Partitioned(config, node, pool)
    requires p in node && BlockOk(config, n)
    requires n.isInUsed == node[p].isInUsed && n.poolId == node[p].poolId
    ensures Partitioned(config, node[p := n], pool)
  {
    var node' := node[p := n];
    forall i | 0 <= i < |pool|
      ensures ListOk(node', pool[i], i)
    {
      assert ListOk(node, pool[i], i);
    }
  }

  lemma HomeRewritten(node: map<Ptr, MemNode>, home: map<Ptr, nat>, p: Ptr, n: MemNode)
    requires AtHome(node, home) && p in node && n.poolId == node[p].poolId
    ensures AtHome(node[p := n], home)
  {
  }

  // ----- How many allocations can succeed -----

  /** The blocks of class `m` and above. */
  ghost function From(home: map<Ptr, nat>, m: nat): set<Ptr> {
    set p | p in home && home[p] >= m
  }

  /** The blocks large enough for a request of `length`. */
  ghost function Fitting(config: seq<PoolConfig>, home: map<Ptr, nat>, length: nat): set<Ptr> {
    From(home, FindMatch(config, length, 0))
  }

  ghost function Members(list: seq<Ptr>): set<Ptr> {
    set p | p in list
  }

  ghost function FreeSet(pool: seq<seq<Ptr>>, m: nat): (s: set<Ptr>)
    requires m <= |pool|
    ensures |s| <= FreeFrom(pool, m)
    ensures forall i, p :: m <= i < |pool| && p in pool[i] ==> p in s
    decreases |pool| - m
  {
    if m == |pool| then {}
    else
      SetOfList(pool[m]);
      SizeOfUnion(Members(pool[m]), FreeSet(pool, m + 1));
      Members(pool[m]) + FreeSet(pool, m + 1)
  }

  lemma {:induction false} SetOfList(list: seq<Ptr>)
    ensures |Members(list)| <= |list|
  {
    if list == [] {
      assert Members(list) == {};
    } else {
      SetOfList(list[1..]);
      assert Members(list) == {list[0]} + Members(list[1..]);
      SizeOfUnion({list[0]}, Members(list[1..]));
    }
  }

  lemma SizeOfUnion(a: set<Ptr>, b: set<Ptr>)
    ensures |a + b| <= |a| + |b|
  {
    assert a + b == a + (b - a);
    assert |b - a| <= |b| by { SubsetSize(b - a, b); }
  }

  lemma {:induction false} SubsetSize<T>(a: set<T>, b: set<T>)
    requires a <= b
    ensures |a| <= |b|
  {
    if a != {} {
      var x :| x in a;
      SubsetSize(a - {x}, b - {x});
    }
  }

  /** Every block that fits is spare or live: requests fail only when almost all of them are live. */
  lemma SpareOrLive(config: seq<PoolConfig>, node: map<Ptr, MemNode>, pool: seq<seq<Ptr>>, home: map<Ptr, nat>, length: nat)
    requires Partitioned(config, node, pool) && AtHome(node, home)
    ensures |Fitting(config, home, length)| <= Spare(config, pool, length) + |LiveIn(node)|
  {
    var m := FindMatch(config, length, 0);
    var fits, free := Fitting(config, home, length), FreeSet(pool, m);
    forall p | p in fits
      ensures p in free + LiveIn(node)
    {
      if !node[p].isInUsed { assert p in pool[node[p].poolId]; }
    }
    SubsetSize(fits, free + LiveIn(node));
    SizeOfUnion(free, LiveIn(node));
  }

  // ----- Joining -----

  /** Where a join of `sum` bytes can go: the first buffer, the second, or a new one. */
  predicate JoinHasRoom(config: seq<PoolConfig>, pool: seq<seq<Ptr>>, s: MemNode, d: MemNode)
    requires |pool| == |config|
  {
    var sum := s.length + d.length;
    sum <= s.size || sum <= d.size || PickClass(config, pool, sum) < |pool|
  }

  predicate JoinIsExact(config: seq<PoolConfig>, pool: seq<seq<Ptr>>, s: MemNode, d: MemNode)
    requires |pool| == |config|
  {
    s.length + d.length < UINT16 && JoinHasRoom(config, pool, s, d)
  }

  function Content(n: MemNode): seq<byte>
    requires n.length <= |n.data|
  {
    n.data[..n.length]
  }

  ghost function LiveIn(node: map<Ptr, MemNode>): set<Ptr> {
    set p | p in node && node[p].isInUsed
  }

  /**
    From `node` to `node'` the live buffers `src` and `dst` became the one live buffer `r`, which
    starts with both contents; every other live block stayed as it was.
   */
  ghost predicate Joined(node: map<Ptr, MemNode>, node': map<Ptr, MemNode>, src: Ptr, dst: Ptr, r: Ptr)
    requires src in node && dst in node && node[src].length <= |node[src].data| && node[dst].length <= |node[dst].data|
  {
    var both := Content(node[src]) + Content(node[dst]);
    var others := LiveIn(node) - {src, dst};
    && node'.Keys == node.Keys
    && r in node' && r !in others
    && LiveIn(node') == others + {r}
    && (forall p :: p in others ==> node'[p] == node[p])
    && |both| <= |node'[r].data| && node'[r].data[..|both|] == both
    && node'[r].length == |both| % UINT16
  }

  predicate DistinctLive(node: map<Ptr, MemNode>, src: Ptr, dst: Ptr) {
    src != dst && src in node && node[src].isInUsed && dst in node && node[dst].isInUsed
  }

  /** What MemJoin makes of two distinct live buffers: one joined buffer, or both gone. */
  ghost predicate JoinResult(node: map<Ptr, MemNode>, node': map<Ptr, MemNode>, src: Ptr, dst: Ptr, r: Ptr)
    requires DistinctLive(node, src, dst)
    requires node[src].length <= |node[src].data| && node[dst].length <= |node[dst].data|
  {
    if r != NULL then Joined(node, node', src, dst, r)
    else node' == node[src := Freed(node[src])][dst := Freed(node[dst])]
  }

  function Freed(n: MemNode): MemNode {
    n.(length := 0, isInUsed := false)
  }

  lemma JoinedInFirst(node: map<Ptr, MemNode>, src: Ptr, dst: Ptr, s': MemNode)
    requires DistinctLive(node, src, dst)
    requires node[src].length <= |node[src].data| && node[dst].length <= |node[dst].data|
    requires node[src].length + node[dst].length < UINT16
    requires node[src].length + node[dst].length <= |node[src].data|
    requires s' == node[src].(data := Splice(node[src].data, node[src].length, Content(node[dst])),
                              length := node[src].length + node[dst].length)
    ensures Joined(node, node[src := s'][dst := Freed(node[dst])], src, dst, src)
  {
  }

  lemma JoinedInSecond(node: map<Ptr, MemNode>, src: Ptr, dst: Ptr, d': MemNode)
    requires DistinctLive(node, src, dst)
    requires node[src].length <= |node[src].data| && node[dst].length <= |node[dst].data|
    requires node[src].length + node[dst].length < UINT16
    requires node[src].length + node[dst].length <= |node[dst].data|
    requires d' == node[dst].(data := Splice(Splice(node[dst].data, node[src].length, Content(node[dst])), 0, Content(node[src])),
                              length := node[src].length + node[dst].length)
    ensures Joined(node, node[dst := d'][src := Freed(node[src])], src, dst, dst)
  {
  }

  lemma JoinedInNew(node: map<Ptr, MemNode>, src: Ptr, dst: Ptr, r: Ptr, n': MemNode)
    requires DistinctLive(node, src, dst) && r in node && !node[r].isInUsed
    requires node[src].length <= |node[src].data| && node[dst].length <= |node[dst].data|
    requires node[src].length + node[dst].length <= |node[r].data|
    requires n'.isInUsed && n'.length == (node[src].length + node[dst].length) % UINT16
    requires n'.data == Splice(Splice(node[r].data, 0, Content(node[src])), node[src].length, Content(node[dst]))
    ensures Joined(node, node[r := n'][src := Freed(node[src])][dst := Freed(node[dst])], src, dst, r)
  {
  }

  class Pool {
    const config: seq<PoolConfig>
    /** The class every address belongs to. */
    ghost const home: map<Ptr, nat>
    var node: map<Ptr, MemNode>
    var pool: seq<seq<Ptr>>
    /** A monitor: false once a MemJoin found no memory or made a buffer longer than its 16-bit length. */
    var exact: bool

    ghost predicate Valid()
      reads this
    {
      Partitioned(config, node, pool) && AtHome(node, home)
    }

    ghost function Live(): set<Ptr>
      reads this
    {
      LiveIn(node)
    }

    lemma Fits(p: Ptr)
      requires Valid()
      ensures NULL !in node && |pool| == |config|
      ensures p in node ==> node[p].length <= |node[p].data| && node[p].length < UINT16
    {
    }

    lemma Sized(p: Ptr)
      requires Valid() && p in node
      ensures BlockOk(config, node[p])
    {
    }

    /** InitMemPool: `config[i].num` zeroed free blocks for every class. */
    constructor (config: seq<PoolConfig>)
      requires Ascending(config)
      ensures Valid() && Live() == {} && this.config == config && exact
      ensures forall i :: 0 <= i < |pool| ==> |pool[i]| == config[i].num
    {
      this.config := config;
      exact := true;
      var nodes: map<Ptr, MemNode>, lists: seq<seq<Ptr>> := map[], [];
      var next: Ptr := 1;
      for i := 0 to |config|
        invariant Laid(config[..i], nodes, lists, next)
      {
        var list: seq<Ptr>, added: map<Ptr, MemNode> := [], map[];
        var blank := MemNode(i, config[i].size % UINT16, 0, false, Zeros(config[i].size));
        var start := next;
        for j := 0 to config[i].num
          invariant |list| == j && next == start + j
          invariant forall k :: 0 <= k < j ==> list[k] == start + k
          invariant forall p :: p in added <==> start <= p < next
          invariant forall p :: p in added ==> added[p] == blank
        {
          list, added := list + [next], added[next := blank];
          next := next + 1;
        }
        assert forall p :: p in added ==> p == list[p - start];
        LaidMore(config[..i], nodes, lists, start, config[i], list, added, next);
        assert config[..i + 1] == config[..i] + [config[i]];
        nodes, lists := nodes + added, lists + [list];
      }
      assert config[..|config|] == config;
      node, pool := nodes, lists;
      home := map p | p in nodes :: nodes[p].poolId;
    }

    /** CheckNode: a null or foreign address is refused. */
    predicate CheckNode(p: Ptr)
      reads this
    {
      p in node
    }

    method MemAlloc(length: nat) returns (p: Ptr)
      requires Valid()
      modifies this`node, this`pool
      ensures Valid()
      ensures var k := PickClass(config, old(pool), length);
              if k == |old(pool)| then p == NULL && node == old(node) && pool == old(pool)
              else
                && p == old(pool)[k][0] && p != NULL
                && pool == old(pool)[k := old(pool)[k][1..]]
                && p in old(node) && !old(node)[p].isInUsed && length <= |old(node)[p].data|
                && node == old(node)[p := old(node)[p].(length := length % UINT16, isInUsed := true)]
    {
      ClassesMatch(config, node, pool);
      hide Partitioned, AtHome, Ascending;
      var poolId := FindMatch(config, length, 0);
      p := NULL;
      if poolId == |config| {
        return;
      }
      ghost var start := poolId;
      while poolId < |config|
        invariant start <= poolId <= |config|
        invariant forall j :: start <= j < poolId ==> pool[j] == []
        invariant p == NULL
      {
        if pool[poolId] != [] {
          PicksSmallest(config, pool, length);
          Taken(config, node, pool, poolId, length);
          p := pool[poolId][0];
          pool := pool[poolId := pool[poolId][1..]];
          break;
        }
        poolId := poolId + 1;
      }
      if p != NULL {
        node := node[p := node[p].(length := length % UINT16, isInUsed := true)];
      }
    }

    method MemFree(p: Ptr)
      requires Valid()
      modifies this`node, this`pool
      ensures Valid()
      ensures p !in old(Live()) ==> node == old(node) && pool == old(pool)
      ensures p in old(Live()) ==>
                && node == old(node)[p := old(node)[p].(length := 0, isInUsed := false)]
                && old(node)[p].poolId < |old(pool)|
                && pool == old(pool)[old(node)[p].poolId := old(pool)[old(node)[p].poolId] + [p]]
    {
      if CheckNode(p) {
        if node[p].isInUsed {
          Given(config, node, pool, p);
          var poolId := node[p].poolId;
          node := node[p := node[p].(length := 0, isInUsed := false)];
          pool := pool[poolId := pool[poolId] + [p]];
        }
      }
    }

    /**
      MemJoin.  For two distinct live buffers the result is one live buffer that starts with the
      bytes of the first and then those of the second; its 16-bit length is their summed length
      only below 65536.  It is null exactly when there is no room.
     */
    method MemJoin(src: Ptr, dst: Ptr) returns (r: Ptr)
      requires Valid()
      modifies this
      ensures Valid() && node.Keys == old(node.Keys)
      ensures DistinctLive(old(node), src, dst) ==>
                && (r != NULL <==> JoinHasRoom(config, old(pool), old(node)[src], old(node)[dst]))
                && JoinResult(old(node), node, src, dst, r)
      ensures exact <==> old(exact) && DistinctLive(old(node), src, dst)
                         && JoinIsExact(config, old(pool), old(node)[src], old(node)[dst])
    {
      hide Partitioned, AtHome, Joined;
      Fits(src);
      exact := exact && DistinctLive(node, src, dst) && JoinIsExact(config, pool, node[src], node[dst]);
      r := NULL;
      if CheckNode(src) && CheckNode(dst) {
        var s, d := node[src], node[dst];
        var sum := s.length + d.length;
        if s.size >= sum {
          r := JoinIntoFirst(src, dst);
        } else if d.size >= sum {
          r := JoinIntoSecond(src, dst);
        } else {
          r := JoinIntoNew(src, dst);
        }
      } else {
        if CheckNode(src) {
          MemFree(src);
        }
        if CheckNode(dst) {
          MemFree(dst);
        }
      }
    }

    method JoinIntoFirst(src: Ptr, dst: Ptr) returns (r: Ptr)
      requires Valid() && src in node && dst in node && node[src].length + node[dst].length <= node[src].size
      modifies this`node, this`pool
      ensures Valid() && node.Keys == old(node.Keys) && r == src && r != NULL
      ensures DistinctLive(old(node), src, dst) ==> JoinResult(old(node), node, src, dst, r)
    {
      var s, d := node[src], node[dst];
      var s' := s.(data := Splice(s.data, s.length, Content(d)), length := s.length + d.length);
      Rewritten(config, node, pool, src, s');
      if DistinctLive(node, src, dst) {
        JoinedInFirst(node, src, dst, s');
      }
      node := node[src := s'];
      MemFree(dst);
      r := src;
    }

    method JoinIntoSecond(src: Ptr, dst: Ptr) returns (r: Ptr)
      requires Valid() && src in node && dst in node && node[src].length + node[dst].length <= node[dst].size
      modifies this`node, this`pool
      ensures Valid() && node.Keys == old(node.Keys) && r == dst && r != NULL
      ensures DistinctLive(old(node), src, dst) ==> JoinResult(old(node), node, src, dst, r)
    {
      var s, d := node[src], node[dst];
      var d' := d.(data := Splice(Splice(d.data, s.length, Content(d)), 0, Content(s)), length := d.length + s.length);
      Rewritten(config, node, pool, dst, d');
      if DistinctLive(node, src, dst) {
        JoinedInSecond(node, src, dst, d');
      }
      node := node[dst := d'];
      MemFree(src);
      r := dst;
    }

    method FreeBoth(src: Ptr, dst: Ptr)
      requires Valid()
      modifies this`node, this`pool
      ensures Valid() && node.Keys == old(node.Keys)
      ensures DistinctLive(old(node), src, dst) ==>
                node == old(node)[src := Freed(old(node)[src])][dst := Freed(old(node)[dst])]
    {
      MemFree(src);
      MemFree(dst);
    }

    /** Allocates the joined buffer and fills it; both parts are still live. */
    method NewJoined(src: Ptr, dst: Ptr) returns (r: Ptr)
      requires Valid() && src in node && dst in node
      modifies this`node, this`pool
      ensures Valid() && node.Keys == old(node.Keys)
      ensures r != NULL <==> PickClass(config, old(pool), old(node)[src].length + old(node)[dst].length) < |old(pool)|
      ensures r == NULL ==> node == old(node)
      ensures r != NULL && DistinctLive(old(node), src, dst) ==>
                && r in node && node == old(node)[r := node[r]] && r != src && r != dst
                && Joined(old(node), node[src := Freed(node[src])][dst := Freed(node[dst])], src, dst, r)
    {
      hide Joined, Partitioned, AtHome, PickClass;
      var s, d := node[src], node[dst];
      ghost var before := node;
      Sized(src);
      Sized(dst);
      r := MemAlloc(s.length + d.length);
      if r != NULL {
        Sized(r);
        var n := node[r];
        var n' := n.(data := Splice(Splice(n.data, 0, Content(s)), s.length, Content(d)));
        Rewritten(config, node, pool, r, n');
        HomeRewritten(node, home, r, n');
        node := node[r := n'];
        assert node == before[r := n'];
        if DistinctLive(before, src, dst) {
          JoinedInNew(before, src, dst, r, n');
        }
      }
    }

    method JoinIntoNew(src: Ptr, dst: Ptr) returns (r: Ptr)
      requires Valid() && src in node && dst in node
      modifies this`node, this`pool
      ensures Valid() && node.Keys == old(node.Keys)
      ensures r != NULL <==> PickClass(config, old(pool), old(node)[src].length + old(node)[dst].length) < |old(pool)|
      ensures DistinctLive(old(node), src, dst) ==> JoinResult(old(node), node, src, dst, r)
    {
      r := NewJoined(src, dst);
      FreeBoth(src, dst);
    }

    /** MemRemove: removes the bytes from `where` on, `count` of them or as many as there are. */
    method MemRemove(p: Ptr, where: nat, count: nat) returns (removed: nat)
      requires Valid()
      modifies this`node
      ensures Valid()
      ensures p !in old(node) || where >= old(node)[p].length ==> removed == 0 && node == old(node)
      ensures p in old(node) && where < old(node)[p].length ==>
                && removed == (if count <= old(node)[p].length - where then count else old(node)[p].length - where)
                && node.Keys == old(node.Keys)
                && node == old(node)[p := node[p]]
                && node[p].isInUsed == old(node)[p].isInUsed
                && BlockOk(config, node[p])
                && Content(node[p]) == old(Content(node[p]))[..where] + old(Content(node[p]))[where + removed..]
    {
      if !CheckNode(p) || where >= node[p].length {
        return 0;
      }
      hide Partitioned, AtHome, Splice;
      var n := node[p];
      var n' := n;
      removed := count;
      if count > n.length - where {
        removed := n.length - where;
        ClippedTail(n.data, n.length, where);
      } else {
        var tail := n.data[where + count..n.length];
        MovedTail(n.data, n.length, where, count);
        n' := n.(data := Splice(n.data, where, tail));
      }
      n' := n'.(length := n.length - removed);
      Rewritten(config, node, pool, p, n');
      node := node[p := n'];
    }
  }

  /** The addresses below `next` are laid out as free blocks of the classes of `config`. */
  ghost predicate Laid(config: seq<PoolConfig>, node: map<Ptr, MemNode>, pool: seq<seq<Ptr>>, next: Ptr) {
    && |pool| == |config|
    && (forall p :: p in node ==> 1 <= p < next && BlockOk(config, node[p]) && !node[p].isInUsed)
    && (forall i :: 0 <= i < |pool| ==> ListOk(node, pool[i], i) && |pool[i]| == config[i].num)
    && (forall p :: p in node ==> p in pool[node[p].poolId])
    && next >= 1
  }

  lemma LaidMore(config: seq<PoolConfig>, node: map<Ptr, MemNode>, pool: seq<seq<Ptr>>, start: Ptr,
                 c: PoolConfig, list: seq<Ptr>, added: map<Ptr, MemNode>, next: Ptr)
    requires Laid(config, node, pool, start) && start <= next
    requires |list| == c.num && NoDuplicates(list) && (forall p :: p in list <==> p in added)
    requires forall p :: p in added ==> start <= p < next
    requires forall p :: p in added ==> added[p] == MemNode(|config|, c.size % UINT16, 0, false, Zeros(c.size))
    ensures Laid(config + [c], node + added, pool + [list], next)
  {
    var node', pool' := node + added, pool + [list];
    forall i | 0 <= i < |pool'|
      ensures ListOk(node', pool'[i], i)
    {
      if i < |pool| { assert ListOk(node, pool[i], i); }
    }
  }
}
