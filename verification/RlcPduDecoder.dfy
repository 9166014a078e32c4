/**
  Decoding a received AMD PDU into queued elements on pool blocks (ulp/src/lteRlc.c:226-247 and
  494-727), every failure branch included.  `starved` tells a failure for want of memory from a
  malformed PDU; the sizes of the control structures are parameters.
 */
module RlcPduDecoder {
  import opened Bytes
  import opened RlcReassembly
  import opened RlcCodec
  import opened MemPool
  import opened RlcEntity

  datatype Segment = Segment(node: Ptr, dfeQ: seq<Dfe>)

  /** sizeof of the structures the RLC layer allocates. */
  datatype Sizes = Sizes(ueContext: nat, amEntity: nat, amdPdu: nat, segment: nat, dfe: nat)

  function Extend(lis: seq<nat>, more: Option<seq<nat>>): Option<seq<nat>> {
    if more.Some? then Some(lis + more.value) else None
  }

  /** `lis` is what the list reads so far; `more` says whether it goes on. */
  ghost predicate ReadSoFar(at: nat -> byte, lis: seq<nat>, more: bool) {
    if more then |lis| < MAX_DFE && ReadLis(at, 0) == Extend(lis, ReadLis(at, |lis|))
    else 1 <= |lis| <= MAX_DFE && ReadLis(at, 0) == Some(lis)
  }

  lemma ReadBegins(at: nat -> byte)
    ensures ReadSoFar(at, [], true)
  {
    var more := ReadLis(at, 0);
    assert more.Some? ==> [] + more.value == more.value;
  }

  lemma ReadStep(at: nat -> byte, k: nat, li: nat, goesOn: bool)
    requires k < MAX_DFE && li == LiAt(at, k) && goesOn == (k + 1 < MAX_DFE && EAt(at, k) != 0)
    ensures ReadLis(at, k) == if li == 0 then None
                              else if goesOn then Extend([li], ReadLis(at, k + 1)) else Some([li])
  {
  }

  lemma ExtendTwice(lis: seq<nat>, li: nat, more: Option<seq<nat>>)
    ensures Extend(lis, Extend([li], more)) == Extend(lis + [li], more)
  {
    assert more.Some? ==> lis + ([li] + more.value) == (lis + [li]) + more.value;
  }

  lemma ReadMore(at: nat -> byte, lis: seq<nat>, li: nat, goesOn: bool)
    requires ReadSoFar(at, lis, true)
    requires li == LiAt(at, |lis|) && goesOn == (|lis| + 1 < MAX_DFE && EAt(at, |lis|) != 0)
    ensures if li == 0 then ReadLis(at, 0) == None else ReadSoFar(at, lis + [li], goesOn)
  {
    ReadStep(at, |lis|, li, goesOn);
    if goesOn { ExtendTwice(lis, li, ReadLis(at, |lis| + 1)); }
  }

  /** RlcGetConcatenationHeaderInfo; a count of 0 is its failure result. */
  method GetConcatenationHeaderInfo(at: nat -> byte) returns (dfeCount: nat, lis: seq<nat>, hdrSize: nat)
    ensures ReadLis(at, 0) == None ==> dfeCount == 0
    ensures ReadLis(at, 0).Some? ==>
              && lis == ReadLis(at, 0).value && dfeCount == |lis| + 1 && hdrSize == HeaderSize(|lis|)
  {
    var ext := 1;
    dfeCount, lis, hdrSize := 1, [], 0;
    ReadBegins(at);
    while ext != 0
      invariant ReadSoFar(at, lis, ext != 0) && dfeCount == |lis| + 1
      decreases MAX_DFE - |lis|, ext
    {
      ext := EAt(at, |lis|);
      var li := LiAt(at, |lis|);
      ReadMore(at, lis, li, |lis| + 1 < MAX_DFE && ext != 0);
      if li == 0 {
        return 0, lis, 0;
      }
      lis := lis + [li];
      dfeCount := dfeCount + 1;
      if |lis| >= MAX_DFE {
        break;
      }
    }
    hdrSize := HeaderSize(|lis|);
  }

  /** Spare blocks for requests up to `max`. */
  ghost function SpareIn(pool: Pool, max: nat): nat
    reads pool
    requires pool.Valid()
  {
    Spare(pool.config, pool.pool, max)
  }

  /** MemAlloc with what its callers here rely on. */
  method Alloc(pool: Pool, length: nat, ghost max: nat) returns (p: Ptr)
    requires pool.Valid()
    modifies pool`node, pool`pool
    ensures pool.Valid()
    ensures p == NULL ==> pool.node == old(pool.node) && pool.pool == old(pool.pool)
    ensures p == NULL && length <= max ==> old(SpareIn(pool, max)) == 0
    ensures p != NULL ==>
              && p !in old(pool.Live()) && pool.Live() == old(pool.Live()) + {p}
              && p in pool.node && pool.node[p].length == length % UINT16 && length <= |pool.node[p].data|
              && Kept(old(pool.node), pool.node, old(pool.Live()))
              && length < 0x8000_0000
    ensures SpareIn(pool, max) + 1 >= old(SpareIn(pool, max))
  {
    p := pool.MemAlloc(length);
    ghost var k := PickClass(pool.config, old(pool.pool), length);
    if k < |pool.pool| {
      TakingSpends(pool.config, old(pool.pool), k, max);
      PicksSmallest(pool.config, old(pool.pool), length);
      AscendingSizes(pool.config, k, k);
    } else if length <= max {
      SpareMonotone(pool.config, old(pool.pool), length, max);
    }
  }

  /** MemFree of a live block. */
  method Free(pool: Pool, p: Ptr, ghost max: nat)
    requires pool.Valid() && p in pool.Live()
    modifies pool`node, pool`pool
    ensures pool.Valid() && pool.Live() == old(pool.Live()) - {p}
    ensures Kept(old(pool.node), pool.node, old(pool.Live()) - {p})
    ensures SpareIn(pool, max) >= old(SpareIn(pool, max))
  {
    GivingKeeps(pool.config, pool.pool, pool.node[p].poolId, p, max);
    pool.MemFree(p);
  }

  /** Frees an element and its data. */
  method FreeElement(pool: Pool, d: Dfe, ghost others: set<Ptr>, ghost max: nat)
    requires pool.Valid() && d.node != d.pData && d.node !in others && d.pData !in others
    requires pool.Live() == others + {d.node, d.pData}
    modifies pool`node, pool`pool
    ensures pool.Valid() && pool.Live() == others && Kept(old(pool.node), pool.node, others)
    ensures SpareIn(pool, max) >= old(SpareIn(pool, max))
  {
    hide Partitioned, AtHome;
    Free(pool, d.pData, max);
    Free(pool, d.node, max);
  }

  method FreeHead(pool: Pool, q: seq<Dfe>, ghost others: set<Ptr>, ghost max: nat)
    requires pool.Valid() && q != [] && QueueOk(pool.node, q)
    requires others !! Blocks(q) && pool.Live() == others + Blocks(q)
    modifies pool`node, pool`pool
    ensures pool.Valid() && QueueOk(pool.node, q[1..])
    ensures others !! Blocks(q[1..]) && pool.Live() == others + Blocks(q[1..])
    ensures Kept(old(pool.node), pool.node, others)
  {
    QueueHead(pool.node, q);
    assert others + Blocks(q) == (others + Blocks(q[1..])) + {q[0].node, q[0].pData};
    FreeElement(pool, q[0], others + Blocks(q[1..]), max);
    QueueKept(old(pool.node), pool.node, q[1..]);
  }

  /** RlcDeleteAmdPduSegment */
  method DeleteSegment(pool: Pool, seg: Segment, ghost others: set<Ptr>, ghost max: nat)
    requires pool.Valid() && QueueOk(pool.node, seg.dfeQ)
    requires pool.Live() == others + {seg.node} + Blocks(seg.dfeQ)
    requires seg.node !in others && seg.node !in Blocks(seg.dfeQ) && others !! Blocks(seg.dfeQ)
    modifies pool`node, pool`pool
    ensures pool.Valid() && pool.Live() == others && Kept(old(pool.node), pool.node, others)
  {
    hide Partitioned, AtHome;
    var q := seg.dfeQ;
    ghost var rest, nodes := others + {seg.node}, pool.node;
    assert rest + Blocks(q) == others + {seg.node} + Blocks(q);
    while q != []
      invariant pool.Valid() && QueueOk(pool.node, q)
      invariant rest !! Blocks(q) && pool.Live() == rest + Blocks(q)
      invariant Kept(nodes, pool.node, rest)
      decreases |q|
    {
      FreeHead(pool, q, rest, max);
      q := q[1..];
    }
    assert rest + Blocks(q) == rest;
    Free(pool, seg.node, max);
  }

  // ----- RlcDecodeAndEnqueueAMSegment -----

  /** A recorded size that wrapped around below zero: no block is that large. */
  predicate Wrapped(size: nat) {
    size >= 0x9000_0000
  }

  ghost predicate Splittable(node: map<Ptr, MemNode>, d: Dfe) {
    && d.node != d.pData && d.pData != NULL && d.node in LiveIn(node) && d.pData in LiveIn(node)
    && node[d.pData].length <= |node[d.pData].data|
    && (Wrapped(d.size) || d.size == node[d.pData].length)
  }

  /** memcpy of `bytes` to the start of the live buffer `p`. */
  method Fill(pool: Pool, p: Ptr, bytes: seq<byte>)
    requires pool.Valid() && p in pool.Live() && pool.node[p].length == |bytes|
    modifies pool`node
    ensures pool.Valid() && pool.Live() == old(pool.Live())
    ensures p in pool.node && pool.node[p].length == |bytes| <= |pool.node[p].data| && Content(pool.node[p]) == bytes
    ensures Kept(old(pool.node), pool.node, old(pool.Live()) - {p})
  {
    var n := pool.node[p];
    var n' := n.(data := Splice(n.data, 0, bytes));
    Rewritten(pool.config, pool.node, pool.pool, p, n');
    pool.node := pool.node[p := n'];
  }

  /** The two blocks of the next element, or none. */
  method AllocElement(pool: Pool, sizeDfe: nat, length: nat, ghost max: nat) returns (node: Ptr, pData: Ptr)
    requires pool.Valid() && sizeDfe <= max
    modifies pool`node, pool`pool
    ensures pool.Valid()
    ensures SpareIn(pool, max) + 2 >= old(SpareIn(pool, max))
    ensures Kept(old(pool.node), pool.node, old(pool.Live()))
    ensures node != NULL ==>
              && pData != NULL && node != pData
              && node !in old(pool.Live()) && pData !in old(pool.Live())
              && pool.Live() == old(pool.Live()) + {node, pData}
              && pData in pool.node && pool.node[pData].length == length % UINT16
              && length < 0x8000_0000
    ensures node == NULL ==> pool.Live() == old(pool.Live())
    ensures node == NULL && length <= max ==> old(SpareIn(pool, max)) < 2
  {
    hide Partitioned, AtHome;
    node := Alloc(pool, sizeDfe, max);
    pData := NULL;
    if node != NULL {
      pData := Alloc(pool, length, max);
      if pData == NULL {
        Free(pool, node, max);
        node := NULL;
      }
    }
  }

  /** Copies what follows the first `li` bytes of `d` into the element made of `node` and `pData`. */
  method MoveTail(pool: Pool, d: Dfe, li: nat, node: Ptr, pData: Ptr, ghost both: set<Ptr>) returns (next: Dfe)
    requires pool.Valid() && d.pData in both && d.pData in pool.node
    requires d.size == pool.node[d.pData].length && li <= d.size
    requires node != pData && pData != NULL && node !in both && pData !in both && pool.Live() == both + {node, pData}
    requires pData in pool.node && pool.node[pData].length == (d.size - li) % UINT16
    modifies pool`node
    ensures pool.Valid() && pool.Live() == old(pool.Live()) && Kept(old(pool.node), pool.node, both)
    ensures next == Dfe(node, FULL, d.size - li, pData) && Splittable(pool.node, next)
    ensures Content(pool.node[pData]) == old(Content(pool.node[d.pData]))[li..]
  {
    var tail := pool.node[d.pData].data[li..d.size];
    assert tail == old(Content(pool.node[d.pData]))[li..];
    assert BlockOk(pool.config, pool.node[d.pData]);
    Fill(pool, pData, tail);
    next := Dfe(node, FULL, d.size - li, pData);
  }

  /** One turn of the loop: what follows the first `li` bytes moves to a buffer of its own. */
  method SplitOne(pool: Pool, d: Dfe, li: nat, sizeDfe: nat, ghost others: set<Ptr>, ghost max: nat)
    returns (ok: bool, next: Dfe)
    requires pool.Valid() && Splittable(pool.node, d) && li <= d.size && li < 0x1000_0000
    requires d.node !in others && d.pData !in others && pool.Live() == others + {d.node, d.pData}
    requires sizeDfe <= max && (Wrapped(d.size) || d.size <= max)
    modifies pool`node, pool`pool
    ensures pool.Valid()
    ensures SpareIn(pool, max) + 2 >= old(SpareIn(pool, max))
    ensures ok ==>
              && !Wrapped(d.size)
              && next.status == FULL && next.size == d.size - li
              && Splittable(pool.node, next)
              && next.node !in others + {d.node, d.pData} && next.pData !in others + {d.node, d.pData}
              && pool.Live() == others + {d.node, d.pData} + {next.node, next.pData}
              && Kept(old(pool.node), pool.node, others + {d.node, d.pData})
              && Content(pool.node[next.pData]) == old(Content(pool.node[d.pData]))[li..]
    ensures !ok ==> pool.Live() == others && Kept(old(pool.node), pool.node, others)
    ensures !ok && !Wrapped(d.size) ==> old(SpareIn(pool, max)) < 2
  {
    hide Partitioned, AtHome;
    next := d;
    ghost var both := others + {d.node, d.pData};
    var node, pData := AllocElement(pool, sizeDfe, d.size - li, max);
    if node == NULL {
      FreeElement(pool, d, others, max);
      return false, next;
    }
    next := MoveTail(pool, d, li, node, pData, both);
    ok := true;
  }

  /** The elements the splitter is to enqueue: `first` names the first one, FI the last one. */
  function Labelled(first: SduStatus, fi: nat, pieces: seq<seq<byte>>): seq<Elem> {
    seq(|pieces|, i requires 0 <= i < |pieces| =>
      Elem(if i + 1 == |pieces| then (if fi % 2 == 1 then START else FULL) else if i == 0 then first else FULL,
           pieces[i]))
  }

  /** All pieces before the last one. */
  function Queued(first: SduStatus, pieces: seq<seq<byte>>): seq<Elem> {
    seq(|pieces|, i requires 0 <= i < |pieces| => Elem(if i == 0 then first else FULL, pieces[i]))
  }

  /** `pieces` are cut off the front; the splitter goes on with `rest` and the lengths from `i` on. */
  ghost predicate SplitSoFar(data: seq<byte>, lis: seq<nat>, i: nat, pieces: seq<seq<byte>>, rest: seq<byte>)
    requires i <= |lis|
  {
    && |pieces| == i
    && match Split(rest, lis[i..])
       case None => Split(data, lis) == None
       case Some(more) => Split(data, lis) == Some(pieces + more)
  }

  lemma SplitBegins(data: seq<byte>, lis: seq<nat>)
    ensures SplitSoFar(data, lis, 0, [], data)
  {
    assert lis[0..] == lis;
    var r := Split(data, lis);
    assert r.Some? ==> [] + r.value == r.value;
  }

  lemma SplitMore(data: seq<byte>, lis: seq<nat>, i: nat, pieces: seq<seq<byte>>, rest: seq<byte>)
    requires i < |lis| && SplitSoFar(data, lis, i, pieces, rest)
    ensures if lis[i] > |rest| then Split(data, lis) == None
            else SplitSoFar(data, lis, i + 1, pieces + [rest[..lis[i]]], rest[lis[i]..])
  {
    assert lis[i..][0] == lis[i] && lis[i..][1..] == lis[i + 1..];
    if lis[i] <= |rest| {
      var more := Split(rest[lis[i]..], lis[i + 1..]);
      assert more.Some? ==> pieces + ([rest[..lis[i]]] + more.value) == (pieces + [rest[..lis[i]]]) + more.value;
    }
  }

  /**
    The loop of the splitter between two turns: `q` is enqueued, `d` holds what is left.  The
    unwrapped first turn starts from the data field `data`.
   */
  ghost predicate Splitting(node: map<Ptr, MemNode>, others: set<Ptr>, q: seq<Dfe>, d: Dfe, first: SduStatus,
                            data: seq<byte>, lis: seq<nat>, i: nat, pieces: seq<seq<byte>>)
  {
    && i <= |lis| && QueueOk(node, q) && Splittable(node, d)
    && others !! Blocks(q)
    && d.node !in others + Blocks(q) && d.pData !in others + Blocks(q)
    && LiveIn(node) == others + Blocks(q) + {d.node, d.pData}
    && d.status == (if i == 0 then first else FULL)
    && (Wrapped(d.size) ==> i == 0)
    && (!Wrapped(d.size) ==> SplitSoFar(data, lis, i, pieces, Content(node[d.pData])))
    && ElemsOf(node, q) == Queued(first, pieces)
  }

  lemma SplittingBegins(node: map<Ptr, MemNode>, others: set<Ptr>, d: Dfe, lis: seq<nat>)
    requires Splittable(node, d) && d.node !in others && d.pData !in others
    requires LiveIn(node) == others + {d.node, d.pData}
    ensures Splitting(node, others, [], d, d.status, Content(node[d.pData]), lis, 0, [])
  {
    SplitBegins(Content(node[d.pData]), lis);
    assert others + Blocks([]) == others;
  }

  /** Ownership when `e` joins the queue and `next` takes its place. */
  lemma EnqueueTurn(node: map<Ptr, MemNode>, node': map<Ptr, MemNode>, others: set<Ptr>, q: seq<Dfe>, e: Dfe, next: Dfe)
    requires QueueOk(node, q) && others !! Blocks(q)
    requires e.node !in others + Blocks(q) && e.pData !in others + Blocks(q)
    requires LiveIn(node) == others + Blocks(q) + {e.node, e.pData}
    requires Kept(node, node', LiveIn(node)) && LiveIn(node') == LiveIn(node) + {next.node, next.pData}
    requires next.node !in LiveIn(node) && next.pData !in LiveIn(node)
    requires DfeOk(node', e)
    ensures QueueOk(node', q) && ElemsOf(node', q) == ElemsOf(node, q)
    ensures QueueOk(node', q + [e]) && others !! Blocks(q + [e])
    ensures next.node !in others + Blocks(q + [e]) && next.pData !in others + Blocks(q + [e])
    ensures LiveIn(node') == others + Blocks(q + [e]) + {next.node, next.pData}
    ensures ElemsOf(node', q + [e]) == ElemsOf(node, q) + [ElemOf(node', e)]
  {
    QueueKept(node, node', q);
    QueueSnoc(node', q, e);
  }

  lemma QueuedMore(first: SduStatus, pieces: seq<seq<byte>>, piece: seq<byte>)
    ensures Queued(first, pieces + [piece]) == Queued(first, pieces) + [Elem(if pieces == [] then first else FULL, piece)]
  {
  }

  lemma ElementCut(node: map<Ptr, MemNode>, node': map<Ptr, MemNode>, d: Dfe, li: nat)
    requires Splittable(node, d) && !Wrapped(d.size) && li <= d.size
    requires d.node in node' && d.pData in node' && node'[d.node] == node[d.node] && node'[d.pData] == node[d.pData]
    requires d.status == END || d.status == FULL
    ensures DfeOk(node', d.(size := li)) && ElemOf(node', d.(size := li)) == Elem(d.status, Content(node[d.pData])[..li])
  {
  }

  /** Enqueueing `d` with its first `li` bytes and going on with `next`. */
  lemma SplitTurn(node: map<Ptr, MemNode>, node': map<Ptr, MemNode>, others: set<Ptr>, q: seq<Dfe>, d: Dfe, next: Dfe,
                  first: SduStatus, data: seq<byte>, lis: seq<nat>, i: nat, pieces: seq<seq<byte>>)
    requires Splitting(node, others, q, d, first, data, lis, i, pieces) && !Wrapped(d.size)
    requires i < |lis| && lis[i] <= d.size && (first == END || first == FULL)
    requires Kept(node, node', LiveIn(node)) && LiveIn(node') == LiveIn(node) + {next.node, next.pData}
    requires next.node !in LiveIn(node) && next.pData !in LiveIn(node)
    requires Splittable(node', next) && next.status == FULL && next.size == d.size - lis[i] && !Wrapped(next.size)
    requires Content(node'[next.pData]) == Content(node[d.pData])[lis[i]..]
    ensures Splitting(node', others, q + [d.(size := lis[i])], next, first, data, lis, i + 1,
                      pieces + [Content(node[d.pData])[..lis[i]]])
  {
    var e := d.(size := lis[i]);
    var piece := Content(node[d.pData])[..lis[i]];
    ElementCut(node, node', d, lis[i]);
    EnqueueTurn(node, node', others, q, e, next);
    SplitMore(data, lis, i, pieces, Content(node[d.pData]));
    QueuedMore(first, pieces, piece);
  }

  lemma SplitLast(data: seq<byte>, lis: seq<nat>, pieces: seq<seq<byte>>, rest: seq<byte>)
    requires SplitSoFar(data, lis, |lis|, pieces, rest)
    ensures Split(data, lis) == Some(pieces + [rest])
  {
    assert lis[|lis|..] == [];
  }

  lemma LabelledLast(first: SduStatus, fi: nat, pieces: seq<seq<byte>>, rest: seq<byte>)
    requires pieces != []
    ensures Labelled(first, fi, pieces + [rest]) ==
            Queued(first, pieces) + [Elem(if fi % 2 == 1 then START else FULL, rest)]
  {
  }

  /** Enqueueing the last element, whose status FI names. */
  lemma SplitEnds(node: map<Ptr, MemNode>, others: set<Ptr>, q: seq<Dfe>, d: Dfe, first: SduStatus, fi: nat,
                  data: seq<byte>, lis: seq<nat>, pieces: seq<seq<byte>>)
    requires lis != [] && Splitting(node, others, q, d, first, data, lis, |lis|, pieces)
    ensures var q' := q + [d.(status := if fi % 2 == 1 then START else FULL)];
            && QueueOk(node, q') && others !! Blocks(q') && LiveIn(node) == others + Blocks(q')
            && Split(data, lis).Some?
            && ElemsOf(node, q') == Labelled(first, fi, Split(data, lis).value)
  {
    var e := d.(status := if fi % 2 == 1 then START else FULL);
    var rest := Content(node[d.pData]);
    SplitLast(data, lis, pieces, rest);
    LabelledLast(first, fi, pieces, rest);
    assert DfeOk(node, e) && ElemOf(node, e) == Elem(e.status, rest);
    QueueSnoc(node, q, e);
  }

  /** The loop has not touched `others`, and its first element `first` was not wrapped once it is past it. */
  ghost predicate LoopState(nodes: map<Ptr, MemNode>, node: map<Ptr, MemNode>, others: set<Ptr>, q: seq<Dfe>, d: Dfe,
                            first: Dfe, data: seq<byte>, lis: seq<nat>, i: nat, pieces: seq<seq<byte>>, max: nat)
  {
    && Splitting(node, others, q, d, first.status, data, lis, i, pieces)
    && Kept(nodes, node, others)
    && (Wrapped(first.size) ==> i == 0 && d == first)
    && (!Wrapped(first.size) ==> !Wrapped(d.size) && d.size <= max)
  }

  /** The elements enqueued when the splitter fails, and why it does. */
  ghost predicate GaveUp(nodes: map<Ptr, MemNode>, node: map<Ptr, MemNode>, others: set<Ptr>, q: seq<Dfe>,
                         first: Dfe, data: seq<byte>, lis: seq<nat>, starved: bool)
  {
    && QueueOk(node, q) && others !! Blocks(q) && LiveIn(node) == others + Blocks(q)
    && Kept(nodes, node, others)
    && (!starved ==> Wrapped(first.size) || Split(data, lis) == None)
  }

  /** The body of the loop of the splitter, for the length `lis[i]`. */
  method EnqueueOne(pool: Pool, q: seq<Dfe>, d: Dfe, lis: seq<nat>, i: nat, sizeDfe: nat,
                    ghost nodes: map<Ptr, MemNode>, ghost others: set<Ptr>, ghost max: nat, ghost first: Dfe,
                    ghost data: seq<byte>, ghost pieces: seq<seq<byte>>)
    returns (ok: bool, q': seq<Dfe>, d': Dfe, ghost starved: bool, ghost pieces': seq<seq<byte>>)
    requires pool.Valid() && i < |lis| && lis[i] < 2048 && (first.status == END || first.status == FULL)
    requires LoopState(nodes, pool.node, others, q, d, first, data, lis, i, pieces, max)
    requires sizeDfe <= max
    modifies pool`node, pool`pool
    ensures pool.Valid()
    ensures ok ==>
              && LoopState(nodes, pool.node, others, q', d', first, data, lis, i + 1, pieces', max)
              && !starved && SpareIn(pool, max) + 2 >= old(SpareIn(pool, max))
    ensures !ok ==> GaveUp(nodes, pool.node, others, q', first, data, lis, starved)
    ensures starved ==> old(SpareIn(pool, max)) < 2
  {
    hide Partitioned, AtHome;
    var li := lis[i];
    ghost var rest := others + Blocks(q);
    q', d', starved, pieces' := q, d, false, pieces;
    if li > d.size {
      SplitMore(data, lis, i, pieces, Content(pool.node[d.pData]));
      FreeElement(pool, d, rest, max);
      QueueKept(old(pool.node), pool.node, q);
      ok := false;
    } else {
      ok, d' := SplitOne(pool, d, li, sizeDfe, rest, max);
      if ok {
        SplitTurn(old(pool.node), pool.node, others, q, d, d', first.status, data, lis, i, pieces);
        pieces' := pieces + [old(Content(pool.node[d.pData]))[..li]];
        q' := q + [d.(size := li)];
      } else {
        QueueKept(old(pool.node), pool.node, q);
        starved := !Wrapped(d.size);
      }
    }
  }

  /** What the splitter has enqueued when it succeeds. */
  ghost predicate Enqueued(nodes: map<Ptr, MemNode>, node: map<Ptr, MemNode>, others: set<Ptr>, q: seq<Dfe>,
                           first: Dfe, data: seq<byte>, lis: seq<nat>, fi: nat)
  {
    && QueueOk(node, q) && others !! Blocks(q) && LiveIn(node) == others + Blocks(q)
    && Kept(nodes, node, others)
    && !Wrapped(first.size)
    && Split(data, lis).Some?
    && ElemsOf(node, q) == Labelled(first.status, fi, Split(data, lis).value)
  }

  lemma LoopBegins(nodes: map<Ptr, MemNode>, others: set<Ptr>, first: Dfe, lis: seq<nat>, max: nat)
    requires Splittable(nodes, first) && first.node !in others && first.pData !in others
    requires LiveIn(nodes) == others + {first.node, first.pData}
    requires Wrapped(first.size) || first.size <= max
    ensures LoopState(nodes, nodes, others, [], first, first, Content(nodes[first.pData]), lis, 0, [], max)
  {
    SplittingBegins(nodes, others, first, lis);
  }

  lemma LoopEnds(nodes: map<Ptr, MemNode>, node: map<Ptr, MemNode>, others: set<Ptr>, q: seq<Dfe>, d: Dfe,
                 first: Dfe, data: seq<byte>, lis: seq<nat>, fi: nat, pieces: seq<seq<byte>>, max: nat)
    requires lis != [] && LoopState(nodes, node, others, q, d, first, data, lis, |lis|, pieces, max)
    ensures Enqueued(nodes, node, others, q + [d.(status := if fi % 2 == 1 then START else FULL)], first, data, lis, fi)
  {
    SplitEnds(node, others, q, d, first.status, fi, data, lis, pieces);
  }

  /**
    RlcDecodeAndEnqueueAMSegment.  Given memory it fails exactly when the lengths sum to more than
    the data field `data` (or the recorded size of the field had wrapped); on failure the elements
    already enqueued are left to the caller.
   */
  method DecodeAndEnqueue(pool: Pool, first: Dfe, lis: seq<nat>, fi: nat, sizeDfe: nat,
                          ghost nodes: map<Ptr, MemNode>, ghost others: set<Ptr>, ghost max: nat, ghost data: seq<byte>)
    returns (ok: bool, q: seq<Dfe>, ghost starved: bool)
    requires pool.Valid() && (first.status == END || first.status == FULL) && sizeDfe <= max
    requires lis != [] && forall i :: 0 <= i < |lis| ==> lis[i] < 2048
    requires LoopState(nodes, pool.node, others, [], first, first, data, lis, 0, [], max)
    modifies pool`node, pool`pool
    ensures pool.Valid()
    ensures if ok then Enqueued(nodes, pool.node, others, q, first, data, lis, fi)
            else GaveUp(nodes, pool.node, others, q, first, data, lis, starved)
    ensures starved ==> !ok && old(SpareIn(pool, max)) < 2 * |lis|
  {
    hide Partitioned, AtHome;
    ghost var pieces: seq<seq<byte>> := [];
    var d, i := first, 0;
    q, starved := [], false;
    while i < |lis|
      invariant 0 <= i <= |lis| && pool.Valid() && !starved
      invariant LoopState(nodes, pool.node, others, q, d, first, data, lis, i, pieces, max)
      invariant SpareIn(pool, max) + 2 * i >= old(SpareIn(pool, max))
    {
      ok, q, d, starved, pieces := EnqueueOne(pool, q, d, lis, i, sizeDfe, nodes, others, max, first, data, pieces);
      if !ok {
        return;
      }
      i := i + 1;
    }
    LoopEnds(nodes, pool.node, others, q, d, first, data, lis, fi, pieces, max);
    q := q + [d.(status := if fi % 2 == 1 then START else FULL)];
    ok := true;
  }

  // ----- RlcDecodeAmdPdu -----

  /** Allocations one PDU can need at most: a segment, an element, and two blocks for each LI. */
  const MOST_ALLOCS: nat := 2 + 2 * MAX_DFE

  ghost predicate FitsRequests(sizes: Sizes, length: nat, max: nat) {
    sizes.amdPdu <= max && sizes.segment <= max && sizes.dfe <= max && length <= max
  }

  /** A decoded segment: its own block and those of its elements, and nothing of `others`. */
  ghost predicate SegmentOk(node: map<Ptr, MemNode>, seg: Segment, others: set<Ptr>) {
    && QueueOk(node, seg.dfeQ)
    && seg.node !in others && seg.node !in Blocks(seg.dfeQ) && others !! Blocks(seg.dfeQ)
    && LiveIn(node) == others + {seg.node} + Blocks(seg.dfeQ)
  }

  /** MemRemove at the front of a live buffer: the first `count` bytes go, or all there are. */
  method RemoveFront(pool: Pool, p: Ptr, count: nat)
    requires pool.Valid() && p in pool.Live()
    modifies pool`node
    ensures pool.Valid() && pool.Live() == old(pool.Live()) && Kept(old(pool.node), pool.node, old(pool.Live()) - {p})
    ensures p in pool.node && pool.node[p].length <= |pool.node[p].data|
    ensures Content(pool.node[p]) ==
            if count <= old(pool.node[p].length) then old(Content(pool.node[p]))[count..] else []
  {
    ghost var content := Content(pool.node[p]);
    var removed := pool.MemRemove(p, 0, count);
    assert count < |content| ==> content[..0] + content[0 + count..] == content[count..];
  }

  lemma SegmentOfOne(node: map<Ptr, MemNode>, seg: Ptr, d: Dfe, others: set<Ptr>)
    requires DfeOk(node, d) && d.node !in others && d.pData !in others
    requires seg !in others && seg != d.node && seg != d.pData
    requires LiveIn(node) == others + {seg} + {d.node, d.pData}
    ensures SegmentOk(node, Segment(seg, [d]), others) && ElemsOf(node, [d]) == [ElemOf(node, d)]
  {
    assert Blocks([d]) == {d.node, d.pData};
  }

  /** MemAlloc of an element beside a segment and a buffer; both are freed when it fails. */
  method AllocDfe(pool: Pool, seg: Ptr, buf: Ptr, size: nat, ghost others: set<Ptr>, ghost max: nat) returns (dfe: Ptr)
    requires pool.Valid() && seg != buf && seg !in others && buf !in others && pool.Live() == others + {seg, buf}
    requires size <= max
    modifies pool`node, pool`pool
    ensures pool.Valid()
    ensures SpareIn(pool, max) + 1 >= old(SpareIn(pool, max))
    ensures dfe != NULL ==>
              && dfe !in others + {seg, buf} && pool.Live() == others + {seg, buf} + {dfe}
              && Kept(old(pool.node), pool.node, others + {seg, buf})
    ensures dfe == NULL ==>
              && pool.Live() == others && old(SpareIn(pool, max)) == 0
              && Kept(old(pool.node), pool.node, others)
  {
    hide Partitioned, AtHome;
    dfe := Alloc(pool, size, max);
    if dfe == NULL {
      Free(pool, buf, max);
      Free(pool, seg, max);
    }
  }

  /** Makes `buf`, less its two header bytes, the one element of the segment. */
  method EnqueueSingle(pool: Pool, h: AmdHeader, seg: Ptr, buf: Ptr, dfe: Ptr, ghost others: set<Ptr>) returns (r: Segment)
    requires pool.Valid() && seg != buf && seg !in others && buf !in others && buf != NULL
    requires dfe !in others + {seg, buf} && pool.Live() == others + {seg, buf} + {dfe}
    requires pool.node[buf].length >= 2
    modifies pool`node
    ensures pool.Valid() && Kept(old(pool.node), pool.node, others) && SegmentOk(pool.node, r, others)
    ensures ElemsOf(pool.node, r.dfeQ) == [Elem(SingleStatus(h.fi), old(Content(pool.node[buf]))[2..])]
  {
    ghost var content := Content(pool.node[buf])[2..];
    var d := Dfe(dfe, SingleStatus(h.fi), pool.node[buf].length - 2, buf);
    RemoveFront(pool, buf, 2);
    assert Content(pool.node[buf]) == content;
    SegmentOfOne(pool.node, seg, d, others);
    r := Segment(seg, [d]);
  }

  /** The branch without E: the whole data field is one element. */
  method DecodeSingle(pool: Pool, h: AmdHeader, seg: Ptr, buf: Ptr, sizes: Sizes, ghost others: set<Ptr>, ghost max: nat)
    returns (ok: bool, r: Segment)
    requires pool.Valid() && seg != buf && seg !in others && buf !in others && pool.Live() == others + {seg, buf}
    requires sizes.dfe <= max && buf != NULL && pool.node[buf].length >= 2
    modifies pool`node, pool`pool
    ensures pool.Valid() && Kept(old(pool.node), pool.node, others)
    ensures ok ==> SegmentOk(pool.node, r, others)
                   && ElemsOf(pool.node, r.dfeQ) == [Elem(SingleStatus(h.fi), old(Content(pool.node[buf]))[2..])]
    ensures !ok ==> pool.Live() == others && old(SpareIn(pool, max)) == 0
  {
    r := Segment(seg, []);
    var dfe := AllocDfe(pool, seg, buf, sizes.dfe, others, max);
    ok := dfe != NULL;
    if ok {
      assert pool.node[buf] == old(pool.node[buf]);
      r := EnqueueSingle(pool, h, seg, buf, dfe, others);
    }
  }

  /** What RlcDecodeAmdPdu makes of the PDU `b`: its elements, or nothing for a reason that is told. */
  ghost predicate Decoded(nodes: map<Ptr, MemNode>, node: map<Ptr, MemNode>, others: set<Ptr>, seg: Segment,
                          b: seq<byte>, ok: bool, starved: bool)
  {
    && Kept(nodes, node, others)
    && (ok ==> SegmentOk(node, seg, others)
               && DecodePdu(b).Some? && ElemsOf(node, seg.dfeQ) == DecodePdu(b).value.elems)
    && (!ok ==> LiveIn(node) == others && (starved || DecodePdu(b) == None))
  }

  /** The bytes after the fixed header of the PDU at the front of `data`; memory past `data` is `beyond`. */
  function InMemory(data: seq<byte>, beyond: nat -> byte): nat -> byte {
    (i: nat) => if 2 + i < |data| then data[2 + i] else beyond(2 + i)
  }

  lemma ReadInMemory(n: MemNode, beyond: nat -> byte)
    requires n.length <= |n.data|
    ensures LisWithin(InMemory(n.data, beyond), 0, n.length) == LisWithin(AfterHeader(Content(n)), 0, n.length)
  {
    BytesBeyondDoNotMatter(InMemory(n.data, beyond), AfterHeader(Content(n)), 0, n.length);
  }

  lemma LabelledIsMeant(fi: nat, pieces: seq<seq<byte>>)
    requires fi < 4 && |pieces| > 1
    ensures Labelled(if fi / 2 % 2 == 1 then END else FULL, fi, pieces) == Elements(fi, pieces)
  {
  }

  /** The recorded size of the data field, a 32-bit difference. */
  function FieldSize(length: nat, hdrSize: nat): nat
    requires length < UINT16 && hdrSize < 1000
  {
    (length + UINT32 - hdrSize) % UINT32
  }

  lemma FieldSizeWraps(length: nat, hdrSize: nat)
    requires length < UINT16 && hdrSize < 1000
    ensures if hdrSize <= length then FieldSize(length, hdrSize) == length - hdrSize && !Wrapped(length - hdrSize)
            else Wrapped(FieldSize(length, hdrSize))
  {
  }

  lemma ConcatenatedMeans(b: seq<byte>, h: AmdHeader, lis: seq<nat>)
    requires DecodeHeader(b) == Some(h) && h.dc == 1 && h.rf == 0 && h.e == 1
    requires lis != [] && LisWithin(AfterHeader(b), 0, |b|) == if HeaderSize(|lis|) <= |b| then Some(lis) else None
    ensures DecodePdu(b) ==
            if HeaderSize(|lis|) > |b| then None
            else match Split(b[HeaderSize(|lis|)..], lis)
                 case None => None
                 case Some(pieces) =>
                   Some(AmdPdu(h.sn, Labelled(if h.fi / 2 % 2 == 1 then END else FULL, h.fi, pieces)))
  {
    if HeaderSize(|lis|) <= |b| {
      SplitExact(b[HeaderSize(|lis|)..], lis);
      var r := Split(b[HeaderSize(|lis|)..], lis);
      if r.Some? { LabelledIsMeant(h.fi, r.value); }
    }
  }

  /** Strips the header off `buf` and starts the splitter on it; `size` is the recorded field size. */
  method StartSplit(pool: Pool, buf: Ptr, dfe: Ptr, hdrSize: nat, status: SduStatus, ghost others: set<Ptr>,
                    ghost nodes: map<Ptr, MemNode>, ghost max: nat, ghost lis: seq<nat>)
    returns (first: Dfe, ghost data: seq<byte>)
    requires pool.Valid() && buf != NULL && dfe != buf && dfe !in others && buf !in others
    requires pool.Live() == others + {dfe, buf} && Kept(nodes, pool.node, others)
    requires hdrSize < 1000 && pool.node[buf].length <= max && lis != []
    modifies pool`node
    ensures pool.Valid() && SpareIn(pool, max) == old(SpareIn(pool, max))
    ensures first == Dfe(dfe, status, FieldSize(old(pool.node[buf].length), hdrSize), buf)
    ensures data == if hdrSize <= old(pool.node[buf].length) then old(Content(pool.node[buf]))[hdrSize..] else []
    ensures LoopState(nodes, pool.node, others, [], first, first, data, lis, 0, [], max)
  {
    ghost var content := Content(pool.node[buf]);
    var length := pool.node[buf].length;
    data := if hdrSize <= length then content[hdrSize..] else [];
    RemoveFront(pool, buf, hdrSize);
    FieldSizeWraps(length, hdrSize);
    first := Dfe(dfe, status, FieldSize(length, hdrSize), buf);
    assert Content(pool.node[buf]) == data && pool.node[buf].length == |data|;
    LoopBegins(pool.node, others, first, lis, max);
    assert Kept(nodes, pool.node, others);
  }

  lemma SegmentEnqueued(nodes: map<Ptr, MemNode>, node: map<Ptr, MemNode>, seg: Ptr, q: seq<Dfe>, others: set<Ptr>,
                        first: Dfe, data: seq<byte>, lis: seq<nat>, fi: nat)
    requires seg !in others && Enqueued(nodes, node, others + {seg}, q, first, data, lis, fi)
    ensures SegmentOk(node, Segment(seg, q), others) && Kept(nodes, node, others)
  {
    assert others + {seg} + Blocks(q) == others + Blocks(q) + {seg};
  }

  lemma SegmentGivenUp(nodes: map<Ptr, MemNode>, node: map<Ptr, MemNode>, seg: Ptr, q: seq<Dfe>, others: set<Ptr>,
                       first: Dfe, data: seq<byte>, lis: seq<nat>, starved: bool)
    requires seg !in others && GaveUp(nodes, node, others + {seg}, q, first, data, lis, starved)
    ensures SegmentOk(node, Segment(seg, q), others) && Kept(nodes, node, others)
  {
    assert others + {seg} + Blocks(q) == others + Blocks(q) + {seg};
  }

  /** The branch with E, once the list is read: split the field or clean up. */
  method SplitSegment(pool: Pool, h: AmdHeader, seg: Ptr, buf: Ptr, lis: seq<nat>, sizes: Sizes,
                      ghost others: set<Ptr>, ghost max: nat, ghost b: seq<byte>)
    returns (ok: bool, r: Segment, ghost starved: bool)
    requires pool.Valid() && seg != buf && seg !in others && buf !in others && pool.Live() == others + {seg, buf}
    requires FitsRequests(sizes, |b|, max) && buf != NULL && Content(pool.node[buf]) == b
    requires DecodeHeader(b) == Some(h) && h.dc == 1 && h.rf == 0 && h.e == 1
    requires 1 <= |lis| <= MAX_DFE && forall i :: 0 <= i < |lis| ==> lis[i] < 2048
    requires LisWithin(AfterHeader(b), 0, |b|) == if HeaderSize(|lis|) <= |b| then Some(lis) else None
    modifies pool`node, pool`pool
    ensures pool.Valid() && Decoded(old(pool.node), pool.node, others, r, b, ok, starved)
    ensures starved ==> !ok && old(SpareIn(pool, max)) <= 2 * |lis|
  {
    hide Partitioned, AtHome, LoopState, Split, DecodePdu, DecodeHeader, LisWithin, ReadLis, BlockOk;
    pool.Fits(buf);
    r, starved := Segment(seg, []), false;
    ghost var nodes := pool.node;
    var hdrSize := HeaderSize(|lis|);
    var dfe := AllocDfe(pool, seg, buf, sizes.dfe, others, max);
    if dfe == NULL {
      return false, r, true;
    }
    assert pool.Live() == (others + {seg}) + {dfe, buf};
    var first, data := StartSplit(pool, buf, dfe, hdrSize, if h.fi / 2 % 2 == 1 then END else FULL, others + {seg}, nodes, max, lis);
    var q;
    ok, q, starved := DecodeAndEnqueue(pool, first, lis, h.fi, sizes.dfe, nodes, others + {seg}, max, data);
    r := Segment(seg, q);
    FieldSizeWraps(|b|, hdrSize);
    ConcatenatedMeans(b, h, lis);
    if ok {
      SegmentEnqueued(nodes, pool.node, seg, q, others, first, data, lis, h.fi);
    } else {
      SegmentGivenUp(nodes, pool.node, seg, q, others, first, data, lis, starved);
      DeleteSegment(pool, r, others, max);
    }
  }

  /** The branch with E: read the E/LI list, then split. */
  method DecodeConcatenated(pool: Pool, h: AmdHeader, seg: Ptr, buf: Ptr, beyond: nat -> byte, sizes: Sizes,
                            ghost others: set<Ptr>, ghost max: nat, ghost b: seq<byte>)
    returns (ok: bool, r: Segment, ghost starved: bool)
    requires pool.Valid() && seg != buf && seg !in others && buf !in others && pool.Live() == others + {seg, buf}
    requires FitsRequests(sizes, |b|, max) && buf != NULL && Content(pool.node[buf]) == b
    requires DecodeHeader(b) == Some(h) && h.dc == 1 && h.rf == 0 && h.e == 1
    modifies pool`node, pool`pool
    ensures pool.Valid() && Decoded(old(pool.node), pool.node, others, r, b, ok, starved)
    ensures starved ==> !ok && old(SpareIn(pool, max)) <= 2 * MAX_DFE
  {
    hide Partitioned, AtHome;
    pool.Fits(buf);
    r, starved := Segment(seg, []), false;
    var at := InMemory(pool.node[buf].data, beyond);
    ReadInMemory(pool.node[buf], beyond);
    var dfeCount, lis, hdrSize := GetConcatenationHeaderInfo(at);
    if dfeCount == 0 {
      Free(pool, buf, max);
      Free(pool, seg, max);
      return false, r, false;
    }
    ok, r, starved := SplitSegment(pool, h, seg, buf, lis, sizes, others, max, b);
  }

  /**
    RlcDecodeAmdPdu for a PDU `b` in the buffer `buf`.  Whatever happens the buffer changes hands:
    its bytes end up in the elements of the segment, or every block is freed again.
   */
  method DecodeAmdPdu(pool: Pool, h: AmdHeader, buf: Ptr, beyond: nat -> byte, sizes: Sizes,
                      ghost others: set<Ptr>, ghost max: nat, ghost b: seq<byte>)
    returns (ok: bool, r: Segment, ghost starved: bool)
    requires pool.Valid() && buf !in others && pool.Live() == others + {buf}
    requires FitsRequests(sizes, |b|, max) && buf != NULL && Content(pool.node[buf]) == b
    requires DecodeHeader(b) == Some(h) && h.dc == 1 && h.rf == 0
    modifies pool`node, pool`pool
    ensures pool.Valid() && Decoded(old(pool.node), pool.node, others, r, b, ok, starved)
    ensures starved ==> !ok && old(SpareIn(pool, max)) < MOST_ALLOCS
  {
    hide Partitioned, AtHome;
    pool.Fits(buf);
    ghost var nodes := pool.node;
    starved := false;
    var seg := Alloc(pool, sizes.segment, max);
    r := Segment(seg, []);
    if seg == NULL {
      Free(pool, buf, max);
      return false, r, true;
    }
    assert pool.node[buf] == nodes[buf] && pool.Live() == others + {seg, buf};
    if h.e == 0 {
      ok, r := DecodeSingle(pool, h, seg, buf, sizes, others, max);
      starved := !ok;
    } else {
      ok, r, starved := DecodeConcatenated(pool, h, seg, buf, beyond, sizes, others, max, b);
    }
  }
}
