/**
  Who owns the live blocks of the pool between packets.  Every live block has exactly one role and
  every role names exactly one block, so nothing is leaked and nothing is owned twice.
 */
module BlockOwners {
  import opened MemPool

  /** A logical channel of a UE. */
  datatype Key = Key(rnti: nat, lcId: nat)

  datatype Role = UeBlock(rnti: nat) | EntityBlock(key: Key) | HeldBlock(key: Key) | Handed | InFlight

  /**
    `owner` matches the UE contexts, the AM entities, the held SDUs (null where nothing is held) and
    the buffers handed to PDCP, in both directions.
   */
  ghost predicate Accounted(owner: map<Ptr, Role>, contexts: map<nat, Ptr>, entities: map<Key, Ptr>,
                            held: map<Key, Ptr>, buffers: seq<Ptr>)
  {
    && Covers(owner, contexts, entities, held, buffers)
    && (forall p :: p in owner ==> Justified(p, owner[p], contexts, entities, held, buffers))
  }

  /** Every block in use by the layer is listed under its role. */
  ghost predicate Covers(owner: map<Ptr, Role>, contexts: map<nat, Ptr>, entities: map<Key, Ptr>,
                         held: map<Key, Ptr>, buffers: seq<Ptr>)
  {
    && (forall r :: r in contexts ==> contexts[r] in owner && owner[contexts[r]] == UeBlock(r))
    && (forall k :: k in entities ==> entities[k] in owner && owner[entities[k]] == EntityBlock(k))
    && (forall k :: k in held && held[k] != NULL ==> held[k] in owner && owner[held[k]] == HeldBlock(k))
    && (forall i :: 0 <= i < |buffers| ==> buffers[i] in owner && owner[buffers[i]] == Handed)
    && (forall i, j :: 0 <= i < j < |buffers| ==> buffers[i] != buffers[j])
  }

  /** Every role points back at the one user of the block. */
  predicate Justified(p: Ptr, role: Role, contexts: map<nat, Ptr>, entities: map<Key, Ptr>, held: map<Key, Ptr>, buffers: seq<Ptr>) {
    match role
    case UeBlock(r) => r in contexts && contexts[r] == p
    case EntityBlock(k) => k in entities && entities[k] == p
    case HeldBlock(k) => k in held && held[k] == p && p != NULL
    case Handed => p in buffers
    case InFlight => true
  }

  /** A PDU of channel `k` in the block `buf` has been processed; the channel now holds `h`. */
  ghost function AfterPdu(owner: map<Ptr, Role>, others: set<Ptr>, k: Key, h: Ptr, given: set<Ptr>): map<Ptr, Role> {
    map p | p in others + given + (if h == NULL then {} else {h}) ::
      if p in others && p in owner then owner[p] else if p in given then Handed else HeldBlock(k)
  }

  lemma PduAccounted(owner: map<Ptr, Role>, contexts: map<nat, Ptr>, entities: map<Key, Ptr>, held: map<Key, Ptr>,
                     buffers: seq<Ptr>, k: Key, buf: Ptr, others: set<Ptr>, h: Ptr, given: set<Ptr>, more: seq<Ptr>)
    requires Accounted(owner, contexts, entities, held, buffers)
    requires k in held && buf in owner && owner[buf] == InFlight
    requires others == owner.Keys - {buf} - (if held[k] == NULL then {} else {held[k]})
    requires others !! given && (h == NULL || (h !in others && h !in given))
    requires given == (set i | 0 <= i < |more| :: more[i])
    requires forall i, j :: 0 <= i < j < |more| ==> more[i] != more[j]
    ensures Accounted(AfterPdu(owner, others, k, h, given), contexts, entities, held[k := h], buffers + more)
  {
    var owner' := AfterPdu(owner, others, k, h, given);
    var all := buffers + more;
    forall i | 0 <= i < |all|
      ensures all[i] in owner' && owner'[all[i]] == Handed
    {
      if i < |buffers| { assert all[i] == buffers[i]; } else { assert all[i] == more[i - |buffers|]; }
    }
    forall i, j | 0 <= i < j < |all|
      ensures all[i] != all[j]
    {
      if i < |buffers| <= j {
        assert all[i] == buffers[i] && all[j] == more[j - |buffers|];
      }
    }
    forall p | p in owner'
      ensures Justified(p, owner'[p], contexts, entities, held[k := h], all)
    {
      if p in others { assert Justified(p, owner[p], contexts, entities, held, buffers); }
    }
  }

  lemma InFlightFreed(owner: map<Ptr, Role>, contexts: map<nat, Ptr>, entities: map<Key, Ptr>, held: map<Key, Ptr>,
                      buffers: seq<Ptr>, buf: Ptr)
    requires Accounted(owner, contexts, entities, held, buffers)
    requires buf in owner && owner[buf] == InFlight
    ensures Accounted(owner - {buf}, contexts, entities, held, buffers)
  {
    var owner' := owner - {buf};
    forall p | p in owner'
      ensures Justified(p, owner'[p], contexts, entities, held, buffers)
    {
      assert Justified(p, owner[p], contexts, entities, held, buffers);
    }
  }

  lemma InFlightAdded(owner: map<Ptr, Role>, contexts: map<nat, Ptr>, entities: map<Key, Ptr>, held: map<Key, Ptr>,
                      buffers: seq<Ptr>, p: Ptr)
    requires Accounted(owner, contexts, entities, held, buffers) && p !in owner
    ensures Accounted(owner[p := InFlight], contexts, entities, held, buffers)
  {
    forall q | q in owner
      ensures Justified(q, owner[q], contexts, entities, held, buffers)
    {
      assert Justified(q, owner[q], contexts, entities, held, buffers);
    }
  }

  lemma ContextAdded(owner: map<Ptr, Role>, contexts: map<nat, Ptr>, entities: map<Key, Ptr>, held: map<Key, Ptr>,
                     buffers: seq<Ptr>, r: nat, p: Ptr)
    requires Accounted(owner, contexts, entities, held, buffers) && r !in contexts && p !in owner
    ensures Accounted(owner[p := UeBlock(r)], contexts[r := p], entities, held, buffers)
  {
    forall q | q in owner
      ensures Justified(q, owner[q], contexts[r := p], entities, held, buffers)
    {
      assert Justified(q, owner[q], contexts, entities, held, buffers);
    }
  }

  lemma EntityAdded(owner: map<Ptr, Role>, contexts: map<nat, Ptr>, entities: map<Key, Ptr>, held: map<Key, Ptr>,
                    buffers: seq<Ptr>, k: Key, p: Ptr)
    requires Accounted(owner, contexts, entities, held, buffers) && k !in entities && k !in held && p !in owner
    ensures Accounted(owner[p := EntityBlock(k)], contexts, entities[k := p], held[k := NULL], buffers)
  {
    forall q | q in owner
      ensures Justified(q, owner[q], contexts, entities[k := p], held[k := NULL], buffers)
    {
      assert Justified(q, owner[q], contexts, entities, held, buffers);
    }
  }

  lemma EntityRemoved(owner: map<Ptr, Role>, contexts: map<nat, Ptr>, entities: map<Key, Ptr>, held: map<Key, Ptr>,
                      buffers: seq<Ptr>, k: Key)
    requires Accounted(owner, contexts, entities, held, buffers) && k in entities && k in held && NULL !in owner
    ensures Accounted(owner - {entities[k], held[k]}, contexts, entities - {k}, held - {k}, buffers)
  {
    var owner' := owner - {entities[k], held[k]};
    forall p | p in owner'
      ensures Justified(p, owner'[p], contexts, entities - {k}, held - {k}, buffers)
    {
      assert Justified(p, owner[p], contexts, entities, held, buffers);
    }
  }

  lemma ContextRemoved(owner: map<Ptr, Role>, contexts: map<nat, Ptr>, entities: map<Key, Ptr>, held: map<Key, Ptr>,
                       buffers: seq<Ptr>, r: nat)
    requires Accounted(owner, contexts, entities, held, buffers) && r in contexts
    ensures Accounted(owner - {contexts[r]}, contexts - {r}, entities, held, buffers)
  {
    var owner' := owner - {contexts[r]};
    forall p | p in owner'
      ensures Justified(p, owner'[p], contexts - {r}, entities, held, buffers)
    {
      assert Justified(p, owner[p], contexts, entities, held, buffers);
    }
  }

  // ----- Counting -----

  ghost function Image<T(!new)>(m: map<T, Ptr>): set<Ptr> {
    set x | x in m :: m[x]
  }

  lemma {:induction false} ImageSize<T(!new)>(m: map<T, Ptr>)
    requires forall x, y :: x in m && y in m && m[x] == m[y] ==> x == y
    ensures |Image(m)| == |m|
    decreases |m|
  {
    if m.Keys == {} {
      assert m == map[] && Image(m) == {};
    } else {
      var x :| x in m;
      var m' := m - {x};
      assert m.Keys == m'.Keys + {x};
      ImageSize(m');
      assert Image(m') == Image(m) - {m[x]};
    }
  }

  lemma {:induction false} SetOfDistinct(s: seq<Ptr>)
    requires forall i, j :: 0 <= i < j < |s| ==> s[i] != s[j]
    ensures |Members(s)| == |s|
  {
    if s == [] {
      assert Members(s) == {};
    } else {
      SetOfDistinct(s[1..]);
      assert s[0] !in Members(s[1..]);
      assert Members(s) == {s[0]} + Members(s[1..]);
    }
  }

  ghost function HeldOnly(held: map<Key, Ptr>): map<Key, Ptr> {
    map k | k in held && held[k] != NULL :: held[k]
  }

  datatype Kind = ContextKind | EntityKind | HeldKind | HandedKind | InFlightKind

  function KindOf(role: Role): Kind {
    match role
    case UeBlock(_) => ContextKind
    case EntityBlock(_) => EntityKind
    case HeldBlock(_) => HeldKind
    case Handed => HandedKind
    case InFlight => InFlightKind
  }

  /** The blocks whose role is of the given kind. */
  ghost function OfKind(owner: map<Ptr, Role>, kind: Kind): set<Ptr> {
    set p | p in owner && KindOf(owner[p]) == kind
  }

  lemma KindsAddUp(owner: map<Ptr, Role>)
    ensures |owner.Keys| == |OfKind(owner, ContextKind)| + |OfKind(owner, EntityKind)|
                          + |OfKind(owner, HeldKind)| + |OfKind(owner, HandedKind)|
                          + |OfKind(owner, InFlightKind)|
  {
    var ue, en := OfKind(owner, ContextKind), OfKind(owner, EntityKind);
    var he, ha := OfKind(owner, HeldKind), OfKind(owner, HandedKind);
    var fl := OfKind(owner, InFlightKind);
    EveryKind(owner);
    KindsApart(owner);
    hide OfKind;
    FiveParts(ue, en, he, ha, fl);
  }

  lemma EveryKind(owner: map<Ptr, Role>)
    ensures owner.Keys == OfKind(owner, ContextKind) + OfKind(owner, EntityKind) + OfKind(owner, HeldKind)
                          + OfKind(owner, HandedKind) + OfKind(owner, InFlightKind)
  {
  }

  lemma KindsApart(owner: map<Ptr, Role>)
    ensures var ue, en := OfKind(owner, ContextKind), OfKind(owner, EntityKind);
            var he, ha, fl := OfKind(owner, HeldKind), OfKind(owner, HandedKind), OfKind(owner, InFlightKind);
            ue !! en && (ue + en) !! he && (ue + en + he) !! ha && (ue + en + he + ha) !! fl
  {
  }

  lemma FiveParts(a: set<Ptr>, b: set<Ptr>, c: set<Ptr>, d: set<Ptr>, e: set<Ptr>)
    requires a !! b && (a + b) !! c && (a + b + c) !! d && (a + b + c + d) !! e
    ensures |a + b + c + d + e| == |a| + |b| + |c| + |d| + |e|
  {
  }

  lemma ImagesAreKinds(owner: map<Ptr, Role>, contexts: map<nat, Ptr>, entities: map<Key, Ptr>, held: map<Key, Ptr>, buffers: seq<Ptr>)
    requires Accounted(owner, contexts, entities, held, buffers)
    ensures Image(contexts) == OfKind(owner, ContextKind)
    ensures Image(entities) == OfKind(owner, EntityKind)
    ensures Image(HeldOnly(held)) == OfKind(owner, HeldKind)
    ensures Members(buffers) == OfKind(owner, HandedKind)
  {
    forall p | p in owner
      ensures owner[p].UeBlock? ==> p in Image(contexts)
      ensures owner[p].EntityBlock? ==> p in Image(entities)
      ensures owner[p].HeldBlock? ==> p in Image(HeldOnly(held))
      ensures owner[p].Handed? ==> p in Members(buffers)
    {
      assert Justified(p, owner[p], contexts, entities, held, buffers);
      if owner[p].HeldBlock? {
        assert owner[p].key in HeldOnly(held) && HeldOnly(held)[owner[p].key] == p;
      }
    }
  }

  /**
    The number of live blocks is the number of UE contexts, AM entities, held SDUs and delivered
    buffers, and of the blocks still in flight.
   */
  lemma BlocksAddUp(owner: map<Ptr, Role>, contexts: map<nat, Ptr>, entities: map<Key, Ptr>, held: map<Key, Ptr>, buffers: seq<Ptr>)
    requires Accounted(owner, contexts, entities, held, buffers)
    ensures |owner.Keys| == |contexts| + |entities| + |HeldOnly(held)| + |buffers| + |OfKind(owner, InFlightKind)|
  {
    KindsAddUp(owner);
    ImagesAreKinds(owner, contexts, entities, held, buffers);
    ImageSize(contexts);
    ImageSize(entities);
    ImageSize(HeldOnly(held));
    SetOfDistinct(buffers);
  }
}
