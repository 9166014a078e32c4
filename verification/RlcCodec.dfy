/**
  The AMD PDU format of section 6.2.1.4 of 3GPP TS 36.322 as ulp/src/lteRlc.c reads it: the fixed
  header, the E/LI list at alternating bit offsets 0 and 4, and the split of a concatenated data
  field.  Bit masks and shifts of non-negative values are written as `%` and `/`.
 */
module RlcCodec {
  import opened Bytes
  import opened RlcReassembly

  const MAX_DFE: nat := 256
  const UINT32: nat := 0x1_0000_0000

  // ----- Fixed header -----

  datatype AmdHeader = AmdHeader(dc: nat, rf: nat, p: nat, fi: nat, e: nat, sn: nat, lsf: nat, so: nat)

  /** RlcDecodeAmdHeader; None stands for its failure result. A status PDU leaves all fields 0. */
  function DecodeHeader(b: seq<byte>): (h: Option<AmdHeader>)
    ensures h.Some? ==> |b| >= 2
  {
    if |b| < 2 then None
    else if b[0] / 128 == 0 then Some(AmdHeader(0, 0, 0, 0, 0, 0, 0, 0))
    else
      var b0: nat, b1: nat := b[0], b[1];
      var rf := b0 / 64 % 2;
      if rf == 0 then Some(AmdHeader(1, 0, b0 / 32 % 2, b0 / 8 % 4, b0 / 4 % 2, b0 % 4 * 256 + b1, 0, 0))
      else if |b| < 4 then None
      else
        var b2: nat, b3: nat := b[2], b[3];
        Some(AmdHeader(1, 1, b0 / 32 % 2, b0 / 8 % 4, b0 / 4 % 2, b0 % 4 * 256 + b1,
                       b2 / 128, b2 % 128 * 256 + b3))
  }

  function EncodeHeader(p: nat, fi: nat, e: nat, sn: nat): seq<byte>
    requires p < 2 && fi < 4 && e < 2 && sn < 1024
  {
    [128 + p * 32 + fi * 8 + e * 4 + sn / 256, sn % 256]
  }

  lemma HeaderRoundTrip(p: nat, fi: nat, e: nat, sn: nat, rest: seq<byte>)
    requires p < 2 && fi < 4 && e < 2 && sn < 1024
    ensures DecodeHeader(EncodeHeader(p, fi, e, sn) + rest) == Some(AmdHeader(1, 0, p, fi, e, sn, 0, 0))
  {
    var hi := sn / 256;
    assert hi < 4;
    var x := 128 + p * 32 + fi * 8 + e * 4 + hi;
    assert x / 128 == 1 && x / 64 == 2;
    assert x / 32 == 4 + p;
    assert x / 8 == 16 + p * 4 + fi;
    assert x / 4 == 32 + p * 8 + fi * 2 + e;
  }

  /** The header of a PDU segment (RF set), with the last segment flag and the segment offset. */
  function EncodeSegmentHeader(p: nat, fi: nat, e: nat, sn: nat, lsf: nat, so: nat): seq<byte>
    requires p < 2 && fi < 4 && e < 2 && sn < 1024 && lsf < 2 && so < 0x8000
  {
    [192 + p * 32 + fi * 8 + e * 4 + sn / 256, sn % 256, lsf * 128 + so / 256, so % 256]
  }

  lemma SegmentHeaderRoundTrip(p: nat, fi: nat, e: nat, sn: nat, lsf: nat, so: nat, rest: seq<byte>)
    requires p < 2 && fi < 4 && e < 2 && sn < 1024 && lsf < 2 && so < 0x8000
    ensures DecodeHeader(EncodeSegmentHeader(p, fi, e, sn, lsf, so) + rest) == Some(AmdHeader(1, 1, p, fi, e, sn, lsf, so))
  {
    var hi := sn / 256;
    assert hi < 4;
    var x := 192 + p * 32 + fi * 8 + e * 4 + hi;
    assert x / 128 == 1 && x / 64 == 3;
    assert x / 32 == 6 + p;
    assert x / 8 == 24 + p * 4 + fi;
    assert x / 4 == 48 + p * 8 + fi * 2 + e;
    var y := lsf * 128 + so / 256;
    assert so / 256 < 128 && y / 128 == lsf && y % 128 == so / 256;
  }

  lemma Halves(x: nat)
    ensures x / 4 / 2 == x / 8 && x / 8 / 2 == x / 16 && x / 16 / 2 == x / 32 && x / 32 / 2 == x / 64 && x / 64 / 2 == x / 128
  {
  }

  lemma Half(a: nat)
    ensures a == a / 2 * 2 + a % 2
  {
  }

  lemma Assembled(x: int, a: int, b: int, c: int, d: int, e: int, f: int, r2: int, r3: int, r4: int, r5: int, r6: int, r: int)
    requires x == a * 4 + r && a == b * 2 + r2 && b == c * 2 + r3 && c == d * 2 + r4 && d == e * 2 + r5 && e == f * 2 + r6
    ensures x == f * 128 + r6 * 64 + r5 * 32 + r4 * 16 + r3 * 8 + r2 * 4 + r
  {
  }

  /** The bit fields of the first octet make it up again. */
  lemma FirstOctet(x: byte)
    ensures x == x / 128 * 128 + x / 64 % 2 * 64 + x / 32 % 2 * 32 + x / 16 % 2 * 16 + x / 8 % 2 * 8 + x / 4 % 2 * 4 + x % 4
  {
    Halves(x);
    Half(x / 4);
    Half(x / 8);
    Half(x / 16);
    Half(x / 32);
    Half(x / 64);
    Assembled(x, x / 4, x / 8, x / 16, x / 32, x / 64, x / 128,
              x / 4 % 2, x / 8 % 2, x / 16 % 2, x / 32 % 2, x / 64 % 2, x % 4);
  }

  lemma TwoBits(x: nat)
    ensures x / 8 % 4 == x / 16 % 2 * 2 + x / 8 % 2
  {
  }

  /** Conversely, every data header that is read is the encoding of the fields it is read as. */
  lemma HeaderReadsAsSent(b: seq<byte>)
    requires DecodeHeader(b).Some? && DecodeHeader(b).value.dc == 1
    ensures var h := DecodeHeader(b).value;
            && h.p < 2 && h.fi < 4 && h.e < 2 && h.sn < 1024 && h.lsf < 2 && h.so < 0x8000
            && (h.rf == 0 ==> |b| >= 2 && b[..2] == EncodeHeader(h.p, h.fi, h.e, h.sn))
            && (h.rf != 0 ==> |b| >= 4 && b[..4] == EncodeSegmentHeader(h.p, h.fi, h.e, h.sn, h.lsf, h.so))
  {
    FirstOctet(b[0]);
    TwoBits(b[0]);
    var h := DecodeHeader(b).value;
    assert b[0] / 128 == 1;
    assert h.sn / 256 == b[0] % 4 && h.sn % 256 == b[1];
    if h.rf != 0 {
      assert h.so / 256 == b[2] % 128 && h.so % 256 == b[3];
    }
  }

  // ----- E/LI list -----

  /** Byte and bit position of the `k`-th 12-bit item. */
  function ItemByte(k: nat): nat { 12 * k / 8 }

  function ItemOffset(k: nat): nat { 12 * k % 8 }

  /** GET_E_BIT at bit offset 0 or 4 of `b0`. */
  function EBit(b0: byte, offset: nat): nat {
    if offset == 0 then b0 / 128 else b0 / 8 % 2
  }

  /** GET_LI: the 11 bits after the E bit. */
  function LengthIndicator(b0: byte, b1: byte, offset: nat): nat {
    if offset == 0 then (b0 * 16 + b1 / 16) % 2048 else (b0 * 256 + b1) % 2048
  }

  function HeaderSize(numLi: nat): nat { 2 + (12 * numLi + 7) / 8 }

  function EAt(at: nat -> byte, k: nat): nat {
    EBit(at(ItemByte(k)), ItemOffset(k))
  }

  function LiAt(at: nat -> byte, k: nat): nat {
    LengthIndicator(at(ItemByte(k)), at(ItemByte(k) + 1), ItemOffset(k))
  }

  /**
    The length indicators from item `k` on; `at` gives the bytes after the fixed header, wherever
    memory holds them.  None is the discard on a zero LI.  The list stops at MAX_DFE items.
   */
  function ReadLis(at: nat -> byte, k: nat): (r: Option<seq<nat>>)
    requires k < MAX_DFE
    ensures r.Some? ==> 1 <= |r.value| <= MAX_DFE - k
    ensures r.Some? ==> forall i :: 0 <= i < |r.value| ==> 1 <= r.value[i] < 2048
    decreases MAX_DFE - k
  {
    var li := LiAt(at, k);
    if li == 0 then None
    else if k + 1 >= MAX_DFE || EAt(at, k) == 0 then Some([li])
    else
      match ReadLis(at, k + 1)
      case None => None
      case Some(rest) => Some([li] + rest)
  }

  /** Two 12-bit items fill three bytes; an odd last one leaves four zero bits. */
  function PackItems(items: seq<nat>): seq<byte>
    requires forall i :: 0 <= i < |items| ==> items[i] < 4096
  {
    if items == [] then []
    else if |items| == 1 then [items[0] / 16, items[0] % 16 * 16]
    else
      [items[0] / 16, items[0] % 16 * 16 + items[1] / 256, items[1] % 256] + PackItems(items[2..])
  }

  /** E is set on every item but the last. */
  function LiItems(lis: seq<nat>): (items: seq<nat>)
    requires forall i :: 0 <= i < |lis| ==> lis[i] < 2048
    ensures |items| == |lis|
    ensures forall i :: 0 <= i < |items| ==> items[i] < 4096
  {
    seq(|lis|, i requires 0 <= i < |lis| => if i + 1 < |lis| then 2048 + lis[i] else lis[i])
  }

  function EncodeLis(lis: seq<nat>): seq<byte>
    requires forall i :: 0 <= i < |lis| ==> lis[i] < 2048
  {
    PackItems(LiItems(lis))
  }

  lemma {:induction false} PackSize(items: seq<nat>)
    requires forall i :: 0 <= i < |items| ==> items[i] < 4096
    ensures |PackItems(items)| == (12 * |items| + 7) / 8
  {
    if |items| >= 2 {
      PackSize(items[2..]);
    }
  }

  lemma ItemStep(k: nat)
    requires k >= 2
    ensures ItemByte(k) == ItemByte(k - 2) + 3 && ItemOffset(k) == ItemOffset(k - 2)
  {
  }

  lemma ReadItem0(item: nat)
    requires item < 4096
    ensures EBit(item / 16, 0) == item / 2048
    ensures forall b1: byte :: b1 / 16 == item % 16 ==> LengthIndicator(item / 16, b1, 0) == item % 2048
  {
  }

  lemma ReadItem4(item: nat, hi: nat)
    requires item < 4096 && hi < 16
    ensures EBit(hi * 16 + item / 256, 4) == item / 2048
    ensures LengthIndicator(hi * 16 + item / 256, item % 256, 4) == item % 2048
  {
    var e, li := item / 2048, item % 2048;
    assert item == 2048 * e + li && e < 2;
    assert item / 256 == 8 * e + li / 256 && item % 256 == li % 256;
    var b0 := hi * 16 + 8 * e + li / 256;
    assert b0 / 8 == hi * 2 + e;
    assert b0 * 256 + li % 256 == 2048 * (2 * hi + e) + li;
  }

  /** The bytes from position `base` on are `p`. */
  ghost predicate Holds(at: nat -> byte, base: nat, p: seq<byte>) {
    forall i :: base <= i < base + |p| ==> at(i) == p[i - base]
  }

  lemma HoldsTail(at: nat -> byte, base: nat, p: seq<byte>, n: nat)
    requires Holds(at, base, p) && n <= |p|
    ensures Holds(at, base + n, p[n..])
  {
  }

  /** The E bit and the LI of item `k` are those of `item`. */
  ghost predicate Reads(at: nat -> byte, base: nat, k: nat, item: nat) {
    && EBit(at(base + ItemByte(k)), ItemOffset(k)) == item / 2048
    && LengthIndicator(at(base + ItemByte(k)), at(base + ItemByte(k) + 1), ItemOffset(k)) == item % 2048
  }

  lemma ReadsShift(at: nat -> byte, base: nat, k: nat, item: nat)
    requires k >= 2 && Reads(at, base + 3, k - 2, item)
    ensures Reads(at, base, k, item)
  {
    ItemStep(k);
    assert base + 3 + ItemByte(k - 2) == base + ItemByte(k);
  }

  lemma PackedBytes(items: seq<nat>)
    requires items != [] && forall i :: 0 <= i < |items| ==> items[i] < 4096
    ensures var p := PackItems(items);
            && |p| >= 2 && p[0] == items[0] / 16 && p[1] / 16 == items[0] % 16
            && (|items| >= 2 ==> |p| >= 3 && p[1] == items[0] % 16 * 16 + items[1] / 256 && p[2] == items[1] % 256)
  {
    if |items| >= 2 {
      assert (items[0] % 16 * 16 + items[1] / 256) / 16 == items[0] % 16;
    }
  }

  lemma FirstItem(item: nat, at: nat -> byte, base: nat)
    requires item < 4096 && at(base) == item / 16 && at(base + 1) / 16 == item % 16
    ensures Reads(at, base, 0, item)
  {
    ReadItem0(item);
  }

  lemma SecondItem(item: nat, hi: nat, at: nat -> byte, base: nat)
    requires item < 4096 && hi < 16 && at(base + 1) == hi * 16 + item / 256 && at(base + 2) == item % 256
    ensures Reads(at, base, 1, item)
  {
    ReadItem4(item, hi);
  }

  /** Reading item `k` of a packed list gives back its E bit and its LI. */
  lemma {:induction false} ItemReadBack(items: seq<nat>, k: nat, at: nat -> byte, base: nat)
    requires forall i :: 0 <= i < |items| ==> items[i] < 4096
    requires k < |items|
    requires Holds(at, base, PackItems(items))
    ensures Reads(at, base, k, items[k])
    decreases k
  {
    PackedBytes(items);
    if k == 0 {
      FirstItem(items[0], at, base);
    } else if k == 1 {
      SecondItem(items[1], items[0] % 16, at, base);
    } else {
      TailHeld(items, at, base);
      ItemReadBack(items[2..], k - 2, at, base + 3);
      ReadsShift(at, base, k, items[k]);
    }
  }

  lemma TailHeld(items: seq<nat>, at: nat -> byte, base: nat)
    requires |items| >= 2 && forall i :: 0 <= i < |items| ==> items[i] < 4096
    requires Holds(at, base, PackItems(items))
    ensures Holds(at, base + 3, PackItems(items[2..]))
  {
    assert PackItems(items)[3..] == PackItems(items[2..]);
    HoldsTail(at, base, PackItems(items), 3);
  }

  lemma LiReadBack(lis: seq<nat>, at: nat -> byte, k: nat)
    requires k < |lis| && forall i :: 0 <= i < |lis| ==> lis[i] < 2048
    requires Holds(at, 0, EncodeLis(lis))
    ensures LiAt(at, k) == lis[k]
    ensures EAt(at, k) == if k + 1 < |lis| then 1 else 0
  {
    var item := LiItems(lis)[k];
    ItemReadBack(LiItems(lis), k, at, 0);
    assert item / 2048 == (if k + 1 < |lis| then 1 else 0) && item % 2048 == lis[k];
  }

  lemma {:induction false} LiListReadBack(lis: seq<nat>, at: nat -> byte, k: nat)
    requires k < |lis| <= MAX_DFE
    requires forall i :: k <= i < |lis| ==> 1 <= lis[i] < 2048 && LiAt(at, i) == lis[i]
    requires forall i :: k <= i < |lis| ==> EAt(at, i) == if i + 1 < |lis| then 1 else 0
    ensures ReadLis(at, k) == Some(lis[k..])
    decreases |lis| - k
  {
    assert LiAt(at, k) == lis[k];
    if k + 1 < |lis| {
      LiListReadBack(lis, at, k + 1);
      assert lis[k..] == [lis[k]] + lis[k + 1..];
    } else {
      assert lis[k..] == [lis[k]];
    }
  }

  /** The E/LI reader inverts the 12-bit packing of every list of 1 to 256 non-zero 11-bit lengths. */
  lemma LiRoundTrip(lis: seq<nat>, at: nat -> byte)
    requires 1 <= |lis| <= MAX_DFE
    requires forall i :: 0 <= i < |lis| ==> 1 <= lis[i] < 2048
    requires Holds(at, 0, EncodeLis(lis))
    ensures ReadLis(at, 0) == Some(lis)
    ensures 2 + |EncodeLis(lis)| == HeaderSize(|lis|)
  {
    PackSize(LiItems(lis));
    forall k | 0 <= k < |lis|
      ensures LiAt(at, k) == lis[k] && EAt(at, k) == if k + 1 < |lis| then 1 else 0
    {
      LiReadBack(lis, at, k);
    }
    LiListReadBack(lis, at, 0);
    assert lis[0..] == lis;
  }

  /** The reader's answer, cut off at a header that does not fit in `n` bytes. */
  function LisWithin(at: nat -> byte, k: nat, n: nat): Option<seq<nat>>
    requires k < MAX_DFE
  {
    match ReadLis(at, k)
    case None => None
    case Some(lis) => if HeaderSize(k + |lis|) <= n then Some(lis) else None
  }

  lemma SameItem(at: nat -> byte, at': nat -> byte, k: nat, n: nat)
    requires HeaderSize(k + 1) <= n
    requires forall i :: 0 <= i && i + 2 < n ==> at(i) == at'(i)
    ensures LiAt(at, k) == LiAt(at', k) && EAt(at, k) == EAt(at', k)
  {
    assert at(ItemByte(k)) == at'(ItemByte(k)) && at(ItemByte(k) + 1) == at'(ItemByte(k) + 1);
  }

  /**
    The reader does not look at the PDU length, but whatever lies in memory beyond the PDU never
    changes the outcome: a list that reaches past byte `n` has a header longer than `n`.
   */
  lemma {:induction false} BytesBeyondDoNotMatter(at: nat -> byte, at': nat -> byte, k: nat, n: nat)
    requires k < MAX_DFE
    requires forall i :: 0 <= i && i + 2 < n ==> at(i) == at'(i)
    ensures LisWithin(at, k, n) == LisWithin(at', k, n)
    decreases MAX_DFE - k
  {
    HeaderGrows(k);
    if HeaderSize(k + 1) <= n {
      SameItem(at, at', k, n);
      hide LiAt, EAt;
      if k + 1 < MAX_DFE { BytesBeyondDoNotMatter(at, at', k + 1, n); }
    } else {
      TooShort(at, k, n);
      TooShort(at', k, n);
    }
  }

  lemma HeaderGrows(k: nat)
    ensures HeaderSize(k + 1) == 2 + ItemByte(k) + 2
    ensures forall j :: j >= k ==> HeaderSize(j) >= HeaderSize(k)
  {
  }

  lemma TooShort(at: nat -> byte, k: nat, n: nat)
    requires k < MAX_DFE && HeaderSize(k + 1) > n
    ensures LisWithin(at, k, n) == None
  {
    HeaderGrows(k + 1);
  }

  // ----- Splitting the data field -----

  /** RlcDecodeAndEnqueueAMSegment on bytes: one piece per LI and a last one with what remains. */
  function Split(data: seq<byte>, lis: seq<nat>): Option<seq<seq<byte>>>
    decreases |lis|
  {
    if lis == [] then Some([data])
    else if lis[0] > |data| then None
    else
      match Split(data[lis[0]..], lis[1..])
      case None => None
      case Some(rest) => Some([data[..lis[0]]] + rest)
  }

  /** Splitting fails exactly when the lengths sum to more than the data; the pieces make up the data. */
  lemma {:induction false} SplitExact(data: seq<byte>, lis: seq<nat>)
    ensures var r := Split(data, lis);
            && (r.Some? <==> Sum(lis) <= |data|)
            && (r.Some? ==> |r.value| == |lis| + 1 && Flatten(r.value) == data)
            && (r.Some? ==> forall i :: 0 <= i < |lis| ==> |r.value[i]| == lis[i])
    decreases |lis|
  {
    var r := Split(data, lis);
    if lis == [] {
      assert Flatten([data]) == data + Flatten([]);
    } else if lis[0] <= |data| {
      SplitExact(data[lis[0]..], lis[1..]);
      if r.Some? {
        assert r.value[0] == data[..lis[0]] && r.value[1..] == Split(data[lis[0]..], lis[1..]).value;
      }
    }
  }

  lemma {:induction false} SplitInverts(pieces: seq<seq<byte>>, lis: seq<nat>)
    requires |pieces| == |lis| + 1
    requires forall i :: 0 <= i < |lis| ==> lis[i] == |pieces[i]|
    ensures Split(Flatten(pieces), lis) == Some(pieces)
    decreases |lis|
  {
    var data := Flatten(pieces);
    if lis == [] {
      assert data == pieces[0] + Flatten(pieces[1..]);
      assert pieces[1..] == [] && data == pieces[0];
      assert pieces == [data];
    } else {
      assert data[..lis[0]] == pieces[0] && data[lis[0]..] == Flatten(pieces[1..]);
      SplitInverts(pieces[1..], lis[1..]);
      assert pieces == [pieces[0]] + pieces[1..];
    }
  }

  // ----- A whole PDU -----

  /** RlcSetAmdPduAndDfeStatus: a PDU without E carries one element named by FI. */
  function SingleStatus(fi: nat): SduStatus {
    if fi == 1 then START else if fi == 3 then MID else if fi == 2 then END else FULL
  }

  /** The status of element `i` of the `n` elements of a concatenated PDU. */
  function ConcatStatus(fi: nat, i: nat, n: nat): SduStatus {
    if i + 1 == n then (if fi % 2 == 1 then START else FULL)
    else if i == 0 && fi / 2 == 1 then END
    else FULL
  }

  function Elements(fi: nat, pieces: seq<seq<byte>>): seq<Elem> {
    seq(|pieces|, i requires 0 <= i < |pieces| => Elem(ConcatStatus(fi, i, |pieces|), pieces[i]))
  }

  datatype AmdPdu = AmdPdu(sn: nat, elems: seq<Elem>)

  /** The bytes after the fixed header, with zeros past the end. */
  function AfterHeader(b: seq<byte>): nat -> byte {
    (i: nat) => if 2 + i < |b| then b[2 + i] else 0
  }

  /** What the entity makes of a received PDU; None when the PDU is dropped. */
  function DecodePdu(b: seq<byte>): Option<AmdPdu> {
    match DecodeHeader(b)
    case None => None
    case Some(h) =>
      if h.dc == 0 || h.rf == 1 then None
      else if h.e == 0 then Some(AmdPdu(h.sn, [Elem(SingleStatus(h.fi), b[2..])]))
      else
        match LisWithin(AfterHeader(b), 0, |b|)
        case None => None
        case Some(lis) =>
          match Split(b[HeaderSize(|lis|)..], lis)
          case None => None
          case Some(pieces) => Some(AmdPdu(h.sn, Elements(h.fi, pieces)))
  }

  /** RlcProcessAMRxPacket on the state of an entity. */
  function ReceiveBytes(st: State, b: seq<byte>, mac: Option<Report>): Outcome {
    match DecodePdu(b)
    case None => Outcome(st, [])
    case Some(pdu) => Receive(st, pdu.sn, pdu.elems, mac)
  }
}
