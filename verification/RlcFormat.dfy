/**
  The meaning of a received octet string, read off its octets as section 6.2.1.4 of 3GPP TS 36.322
  draws them: which strings are AMD PDUs for the entity, and which pieces they carry.  Everything else
  is dropped.
 */
module RlcFormat {
  import Bits
  import opened Bytes
  import opened RlcReassembly
  import opened RlcCodec

  /** The 12 bits from bit 16 + 12k on. */
  function Item(b: seq<byte>, k: nat): nat
    requires 3 + 3 * k / 2 < |b|
  {
    var b0: nat, b1: nat := b[2 + 3 * k / 2], b[3 + 3 * k / 2];
    if k % 2 == 0 then b0 * 16 + b1 / 16 else b0 % 16 * 256 + b1
  }

  /** Where the data starts behind a list of `n` items. */
  function DataStart(n: nat): nat {
    2 + (3 * n + 1) / 2
  }

  /** From item `k` on the list is `lis`: no length is 0, and the first item without E, or item 255, ends it. */
  predicate Listed(b: seq<byte>, k: nat, lis: seq<nat>)
    decreases |lis|
  {
    && lis != [] && k < 256 && DataStart(k + 1) <= |b|
    && Item(b, k) % 2048 == lis[0] != 0
    && if |lis| == 1 then Item(b, k) < 2048 || k == 255 else Item(b, k) >= 2048 && Listed(b, k + 1, lis[1..])
  }

  /** D/C is set, RF is not, and the lengths `lis`, if there are any, fit in the data. */
  predicate Framed(b: seq<byte>, lis: seq<nat>) {
    && |b| >= 2 && 128 <= b[0] < 192
    && (if b[0] / 4 % 2 == 0 then lis == [] else Listed(b, 0, lis))
    && DataStart(|lis|) + Sum(lis) <= |b|
  }

  /** Piece `i`: as long as its length says, and the last one to the end. */
  function PieceOf(b: seq<byte>, lis: seq<nat>, i: nat): seq<byte>
    requires DataStart(|lis|) + Sum(lis) <= |b| && i <= |lis|
  {
    SumParts(lis, i);
    var start := DataStart(|lis|) + Sum(lis[..i]);
    if i < |lis| then b[start..start + lis[i]] else b[start..]
  }

  /** The framing info: does the first piece continue an SDU, does the SDU of the last one go on? */
  function StatusOf(fi: nat, i: nat, last: nat): SduStatus {
    var continues, goesOn := i == 0 && fi / 2 == 1, i == last && fi % 2 == 1;
    if continues && goesOn then MID else if continues then END else if goesOn then START else FULL
  }

  function Meaning(b: seq<byte>, lis: seq<nat>): AmdPdu
    requires Framed(b, lis)
  {
    var b0: nat, b1: nat := b[0], b[1];
    AmdPdu(b0 % 4 * 256 + b1,
           seq(|lis| + 1, i requires 0 <= i < |lis| + 1 => Elem(StatusOf(b0 / 8 % 4, i, |lis|), PieceOf(b, lis, i))))
  }

  // ----- Lengths -----

  lemma {:induction false} SumParts(lis: seq<nat>, i: nat)
    requires i <= |lis|
    ensures Sum(lis[..i]) + Sum(lis[i..]) == Sum(lis)
    ensures i < |lis| ==> Sum(lis[i..]) == lis[i] + Sum(lis[i + 1..])
  {
    if i < |lis| { assert lis[i..][1..] == lis[i + 1..]; }
    if i == 0 {
      assert lis[..0] == [] && lis[0..] == lis;
    } else {
      SumParts(lis[1..], i - 1);
      assert lis[1..][..i - 1] == lis[..i][1..] && lis[1..][i - 1..] == lis[i..];
    }
  }

  lemma SplitStep(data: seq<byte>, lis: seq<nat>)
    requires lis != [] && Split(data, lis).Some?
    ensures lis[0] <= |data| && Split(data[lis[0]..], lis[1..]).Some?
    ensures Split(data, lis).value == [data[..lis[0]]] + Split(data[lis[0]..], lis[1..]).value
  {
  }

  lemma SamePiece(b: seq<byte>, start: nat, lo: nat, hi: nat)
    requires start <= |b| && lo <= hi <= |b| - start
    ensures b[start..][lo..hi] == b[start + lo..start + hi]
  {
  }

  /** Where piece `i` of the data ends. */
  function EndOf(data: seq<byte>, lis: seq<nat>, i: nat): nat
    requires i <= |lis|
  {
    if i < |lis| then Sum(lis[..i]) + lis[i] else |data|
  }

  lemma SumHead(lis: seq<nat>, i: nat)
    requires 1 <= i <= |lis|
    ensures Sum(lis[..i]) == lis[0] + Sum(lis[1..][..i - 1])
  {
    assert lis[1..][..i - 1] == lis[..i][1..];
  }

  lemma {:induction false} SplitPieces(data: seq<byte>, lis: seq<nat>, i: nat)
    requires Split(data, lis).Some? && i <= |lis|
    ensures |Split(data, lis).value| == |lis| + 1 && Sum(lis[..i]) <= EndOf(data, lis, i) <= |data|
    ensures Split(data, lis).value[i] == data[Sum(lis[..i])..EndOf(data, lis, i)]
    decreases |lis|
  {
    SplitExact(data, lis);
    SumParts(lis, i);
    if i == 0 {
      assert lis[..0] == [];
    } else {
      hide Split, Sum;
      var rest := data[lis[0]..];
      SplitStep(data, lis);
      SplitPieces(rest, lis[1..], i - 1);
      SumHead(lis, i);
      SamePiece(data, lis[0], Sum(lis[1..][..i - 1]), EndOf(rest, lis[1..], i - 1));
    }
  }

  // ----- The list -----

  lemma ItemBits(b: seq<byte>, k: nat)
    requires 3 + 3 * k / 2 < |b|
    ensures EAt(AfterHeader(b), k) == Item(b, k) / 2048 && LiAt(AfterHeader(b), k) == Item(b, k) % 2048
    ensures EAt(AfterHeader(b), k) < 2
  {
    var at, i := AfterHeader(b), 3 * k / 2;
    ItemPlace(k);
    assert at(i) == b[2 + i] && at(i + 1) == b[3 + i];
    hide EBit, LengthIndicator;
    if k % 2 == 0 { EvenItem(b[2 + i], b[3 + i]); } else { OddItem(b[2 + i], b[3 + i]); }
  }

  lemma ItemPlace(k: nat)
    ensures ItemByte(k) == 3 * k / 2 && ItemOffset(k) == if k % 2 == 0 then 0 else 4
  {
    var m := k / 2;
    if k == 2 * m { EvenPlace(m); } else { OddPlace(m); }
  }

  lemma EvenPlace(m: nat)
    ensures 12 * (2 * m) / 8 == 3 * m == 3 * (2 * m) / 2 && 12 * (2 * m) % 8 == 0
  {
    assert 12 * (2 * m) == 8 * (3 * m);
  }

  lemma OddPlace(m: nat)
    ensures 12 * (2 * m + 1) / 8 == 3 * m + 1 == 3 * (2 * m + 1) / 2 && 12 * (2 * m + 1) % 8 == 4
  {
    assert 12 * (2 * m + 1) == 8 * (3 * m + 1) + 4;
  }

  lemma EvenItem(b0: byte, b1: byte)
    ensures EBit(b0, 0) == (b0 * 16 + b1 / 16) / 2048 && LengthIndicator(b0, b1, 0) == (b0 * 16 + b1 / 16) % 2048
    ensures EBit(b0, 0) < 2
  {
    var e: nat, x: nat := b0 / 128, b0 * 16 + b1 / 16;
    assert b0 == 128 * e + b0 % 128;
    assert x == 2048 * e + (b0 % 128 * 16 + b1 / 16);
  }

  lemma OddItem(b0: byte, b1: byte)
    ensures EBit(b0, 4) == (b0 % 16 * 256 + b1) / 2048 && LengthIndicator(b0, b1, 4) == (b0 % 16 * 256 + b1) % 2048
    ensures EBit(b0, 4) < 2
  {
    var h: nat, r: nat := b0 / 16, b0 % 16;
    assert b0 == 16 * h + r && b0 / 8 == 2 * h + r / 8 && r / 8 < 2;
    OddLength(h, r / 8, r % 8, b1);
  }

  lemma OddLength(h: nat, e: nat, r: nat, b1: byte)
    requires e < 2 && r < 8
    ensures ((16 * h + 8 * e + r) * 256 + b1) % 2048 == r * 256 + b1 == ((8 * e + r) * 256 + b1) % 2048
    ensures ((8 * e + r) * 256 + b1) / 2048 == e
  {
    Bits.DivMod(2 * h + e, 2048, r * 256 + b1);
    Bits.DivMod(e, 2048, r * 256 + b1);
  }

  lemma DataStarts(n: nat)
    ensures HeaderSize(n) == DataStart(n) && DataStart(n + 1) == 4 + 3 * n / 2 && DataStart(n) <= DataStart(n + 1)
  {
    var m := n / 2;
    assert n == 2 * m || n == 2 * m + 1;
  }

  lemma LisWithinStep(at: nat -> byte, k: nat, n: nat)
    requires k < MAX_DFE && LiAt(at, k) != 0
    ensures var li, r := LiAt(at, k), LisWithin(at, k, n);
            if k + 1 < MAX_DFE && EAt(at, k) != 0 then
              r == match LisWithin(at, k + 1, n) case None => None case Some(rest) => Some([li] + rest)
            else r == if HeaderSize(k + 1) <= n then Some([li]) else None
  {
    hide LiAt, EAt, HeaderSize;
  }

  lemma HeadAndTail(li: nat, rest: seq<nat>, lis: seq<nat>)
    ensures lis == [li] + rest <==> lis != [] && lis[0] == li && lis[1..] == rest
  {
  }

  /** The reader finds exactly the list that is there. */
  lemma {:induction false} ReadsExactly(b: seq<byte>, k: nat, lis: seq<nat>)
    requires k < MAX_DFE
    ensures LisWithin(AfterHeader(b), k, |b|) == Some(lis) <==> Listed(b, k, lis)
    decreases MAX_DFE - k
  {
    hide LiAt, EAt, AfterHeader, Item, HeaderSize, LisWithin;
    var at := AfterHeader(b);
    DataStarts(k);
    DataStarts(k + 1);
    if HeaderSize(k + 1) > |b| {
      TooShort(at, k, |b|);
    } else {
      ItemBits(b, k);
      HeadAndTail(LiAt(at, k), [], lis);
      if LiAt(at, k) == 0 {
        NoList(at, k, |b|);
      } else {
        LisWithinStep(at, k, |b|);
        if k + 1 < MAX_DFE && EAt(at, k) != 0 {
          var next := LisWithin(at, k + 1, |b|);
          assert Item(b, k) >= 2048;
          if lis != [] {
            ReadsExactly(b, k + 1, lis[1..]);
            assert |lis| == 1 ==> !Listed(b, k + 1, lis[1..]);
          }
          if next.Some? { HeadAndTail(LiAt(at, k), next.value, lis); }
        } else {
          assert [LiAt(at, k)] + [] == [LiAt(at, k)];
          assert k == 255 && |lis| > 1 ==> !Listed(b, k + 1, lis[1..]);
        }
      }
    }
  }

  lemma NoList(at: nat -> byte, k: nat, n: nat)
    requires k < MAX_DFE && LiAt(at, k) == 0
    ensures LisWithin(at, k, n) == None
  {
  }

  // ----- The whole PDU -----

  lemma Statuses(fi: nat, i: nat, n: nat)
    requires fi < 4 && i < n
    ensures n == 1 ==> SingleStatus(fi) == StatusOf(fi, i, n - 1)
    ensures n > 1 ==> ConcatStatus(fi, i, n) == StatusOf(fi, i, n - 1)
  {
  }

  lemma FixedHeader(b: seq<byte>)
    requires |b| >= 2
    ensures 128 <= b[0] < 192 <==> DecodeHeader(b).Some? && DecodeHeader(b).value.dc == 1 && DecodeHeader(b).value.rf == 0
    ensures 128 <= b[0] < 192 ==>
              var h := DecodeHeader(b).value; h.fi == b[0] / 8 % 4 && h.e == b[0] / 4 % 2 && h.sn == (b[0] as nat) % 4 * 256 + b[1]
  {
    if b[0] < 128 {
      assert b[0] / 128 == 0;
    } else if b[0] < 192 {
      assert b[0] / 128 == 1 && b[0] / 64 == 2;
    } else {
      assert b[0] / 128 == 1 && b[0] / 64 == 3;
    }
  }

  lemma SinglePdu(b: seq<byte>)
    requires |b| >= 2 && 128 <= b[0] < 192 && b[0] / 4 % 2 == 0
    ensures Framed(b, []) && DecodePdu(b) == Some(Meaning(b, []))
  {
    FixedHeader(b);
    hide DecodeHeader;
    Statuses(b[0] / 8 % 4, 0, 1);
    SumParts([], 0);
    assert Meaning(b, []).elems == [Elem(SingleStatus(b[0] / 8 % 4), b[2..])];
  }

  lemma SplitIs(b: seq<byte>, lis: seq<nat>)
    requires lis != [] && Framed(b, lis)
    ensures HeaderSize(|lis|) <= |b|
    ensures Split(b[HeaderSize(|lis|)..], lis).Some?
    ensures Elements(b[0] / 8 % 4, Split(b[HeaderSize(|lis|)..], lis).value) == Meaning(b, lis).elems
  {
    hide Listed, Split, HeaderSize, DataStart, ConcatStatus, StatusOf;
    DataStarts(|lis|);
    var data := b[HeaderSize(|lis|)..];
    SplitExact(data, lis);
    var pieces := Split(data, lis).value;
    forall i | 0 <= i < |lis| + 1
      ensures Elements(b[0] / 8 % 4, pieces)[i] == Meaning(b, lis).elems[i]
    {
      PieceIs(b, lis, i);
      Statuses(b[0] / 8 % 4, i, |lis| + 1);
    }
  }

  lemma PieceIs(b: seq<byte>, lis: seq<nat>, i: nat)
    requires DataStart(|lis|) + Sum(lis) <= |b| && i <= |lis|
    ensures var pieces := Split(b[DataStart(|lis|)..], lis);
            pieces.Some? && |pieces.value| == |lis| + 1 && pieces.value[i] == PieceOf(b, lis, i)
  {
    hide DataStart, Split, Sum;
    var start := DataStart(|lis|);
    var data := b[start..];
    SplitExact(data, lis);
    SplitPieces(data, lis, i);
    SumParts(lis, i);
    SamePiece(b, start, Sum(lis[..i]), EndOf(data, lis, i));
  }

  /** DecodePdu behind the fixed header. */
  lemma DecodeConcatenated(b: seq<byte>)
    requires |b| >= 2 && 128 <= b[0] < 192 && b[0] / 4 % 2 == 1
    ensures var lis := LisWithin(AfterHeader(b), 0, |b|);
            DecodePdu(b) ==
              if lis == None || Split(b[HeaderSize(|lis.value|)..], lis.value) == None then None
              else Some(AmdPdu((b[0] as nat) % 4 * 256 + b[1], Elements(b[0] / 8 % 4, Split(b[HeaderSize(|lis.value|)..], lis.value).value)))
  {
    hide DecodeHeader, Split, Elements, LisWithin, HeaderSize, AfterHeader;
    FixedHeader(b);
  }

  lemma FramedDecodes(b: seq<byte>, lis: seq<nat>)
    requires Framed(b, lis)
    ensures DecodePdu(b) == Some(Meaning(b, lis))
  {
    hide DecodePdu, DecodeHeader, LisWithin, Split, Elements, Listed, AfterHeader, HeaderSize, StatusOf, PieceOf;
    if b[0] / 4 % 2 == 0 {
      SinglePdu(b);
    } else {
      ReadsExactly(b, 0, lis);
      DecodeConcatenated(b);
      ListedSome(b, lis);
      SplitIs(b, lis);
    }
  }

  lemma ListedSome(b: seq<byte>, lis: seq<nat>)
    requires Listed(b, 0, lis)
    ensures lis != []
  {
  }

  lemma DecodedIsFramed(b: seq<byte>) returns (lis: seq<nat>)
    requires DecodePdu(b).Some?
    ensures Framed(b, lis)
  {
    IsDataPdu(b);
    hide DecodePdu, DecodeHeader, Listed, AfterHeader, Split;
    if b[0] / 4 % 2 == 0 {
      lis := [];
    } else {
      DecodeConcatenated(b);
      lis := LisWithin(AfterHeader(b), 0, |b|).value;
      DataStarts(|lis|);
      ReadsExactly(b, 0, lis);
      SplitExact(b[HeaderSize(|lis|)..], lis);
    }
  }

  lemma IsDataPdu(b: seq<byte>)
    requires DecodePdu(b).Some?
    ensures |b| >= 2 && 128 <= b[0] < 192
  {
    FixedHeader(b);
    hide LisWithin, Split;
  }

  /**
    For every octet string: it is taken for a PDU if and only if it is framed as one, and then its
    number and its pieces are those its octets mean.
   */
  lemma DecodeMeans(b: seq<byte>)
    ensures DecodePdu(b).Some? <==> exists lis :: Framed(b, lis)
    ensures forall lis :: Framed(b, lis) ==> DecodePdu(b) == Some(Meaning(b, lis))
  {
    hide *;
    if DecodePdu(b).Some? {
      var lis := DecodedIsFramed(b);
    }
    forall lis | Framed(b, lis) ensures DecodePdu(b) == Some(Meaning(b, lis)) {
      FramedDecodes(b, lis);
    }
  }

  // ----- What is dropped -----

  /** Nothing, a single octet, a control PDU and a segment of a PDU leave the entity as it is. */
  lemma NoPdu(st: State, b: seq<byte>, mac: Option<Report>)
    requires |b| < 2 || b[0] < 128 || b[0] >= 192
    ensures ReceiveBytes(st, b, mac) == Outcome(st, [])
  {
    if DecodePdu(b).Some? {
      var lis := DecodedIsFramed(b);
    }
    hide DecodePdu;
  }

  lemma {:induction false} NoLengthIsZero(b: seq<byte>, j: nat, lis: seq<nat>, k: nat)
    requires j <= k < 256 && DataStart(k + 1) <= |b| && Item(b, k) % 2048 == 0
    requires forall i :: j <= i < k ==> 3 + 3 * i / 2 < |b| && Item(b, i) >= 2048
    ensures !Listed(b, j, lis)
    decreases k - j
  {
    if j < k && lis != [] { NoLengthIsZero(b, j + 1, lis[1..], k); }
  }

  /** A list with a length of 0, behind items with E, leaves the entity as it is. */
  lemma ZeroLength(st: State, b: seq<byte>, mac: Option<Report>, k: nat)
    requires k < 256 && DataStart(k + 1) <= |b| && b[0] / 4 % 2 == 1 && Item(b, k) % 2048 == 0
    requires forall i :: 0 <= i < k ==> 3 + 3 * i / 2 < |b| && Item(b, i) >= 2048
    ensures ReceiveBytes(st, b, mac) == Outcome(st, [])
  {
    if DecodePdu(b).Some? {
      var lis := DecodedIsFramed(b);
      NoLengthIsZero(b, 0, lis, k);
    }
    hide DecodePdu;
  }

  /** Lengths that sum to more than the data leave the entity as it is. */
  lemma LengthsTooLong(st: State, b: seq<byte>, lis: seq<nat>, mac: Option<Report>)
    requires b != [] && b[0] / 4 % 2 == 1 && Listed(b, 0, lis) && DataStart(|lis|) + Sum(lis) > |b|
    ensures ReceiveBytes(st, b, mac) == Outcome(st, [])
  {
    if DecodePdu(b).Some? {
      var found := DecodedIsFramed(b);
      ReadsExactly(b, 0, lis);
      ReadsExactly(b, 0, found);
    }
    hide DecodePdu;
  }
}
