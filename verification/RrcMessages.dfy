/**
  The RRC messages of section 6.2.2 of 3GPP TS 36.331 as the sender lays them out in unaligned PER, field
  by field, and what ulp/src/asn1.c:88-130 and ulp/src/asn1Lib.c:305-435, 1308-1338 make of them.
 */
module RrcMessages {
  import opened Bytes
  import opened Bits
  import opened PerNas

  // ----- When NAS information is refused -----

  /** A length of up to 127 has a short form and a long one; longer ones the long one. */
  function LengthForm(n: nat, long: bool): seq<bit> {
    if long then [1, 0] + IntBits(n, 14) else [0] + IntBits(n, 7)
  }

  /**
    A NAS message is accepted exactly when it has 1 to 12756 octets and at most seven bits of them are
    missing, with its length in either form; a fragmented one is refused.
   */
  lemma NasAccepted(at: nat -> byte, p: nat, limit: nat, n: nat, long: bool)
    requires n < (if long then 16384 else 128) && Carries(at, p, LengthForm(n, long))
    ensures UnpackNas(at, p, limit).Some? <==>
              1 <= n <= 12756 && p + |LengthForm(n, long)| <= limit && p + |LengthForm(n, long)| + 8 * n <= limit + 7
  {
    hide Val, Carries, Pow2, BytesFrom;
    LengthPowers();
    if long {
      CarriesSplit(at, p, [1, 0], IntBits(n, 14));
      assert [1] + [0] == [1, 0];
      CarriesSplit(at, p, [1], [0]);
      OneBit(at, p, 1);
      OneBit(at, p + 1, 0);
      NumberRead(at, p + 2, n, 14);
    } else {
      CarriesSplit(at, p, [0], IntBits(n, 7));
      OneBit(at, p, 0);
      NumberRead(at, p + 1, n, 7);
    }
  }

  lemma LengthPowers()
    ensures Pow2(7) == 128 && Pow2(14) == 16384
  {
  }

  lemma FragmentsRefused(at: nat -> byte, p: nat, limit: nat)
    requires at(p) == 1 && at(p + 1) == 1
    ensures UnpackNas(at, p, limit).None?
  {
  }

  lemma OneBit(at: nat -> byte, p: nat, b: bit)
    requires Carries(at, p, [b])
    ensures at(p) == b
  {
    assert at(p + 0) == [b][0];
  }

  /** An UL information transfer of another kind is accepted without its contents, behind any nine bits. */
  lemma OtherKindAccepted(head: seq<bit>, kind: nat, rest: seq<bit>, base: nat)
    requires |head| == 9 && 1 <= kind < 4 && |head + (IntBits(kind, 2) + rest)| <= LIBLTE_MAX_MSG_SIZE_BITS
    ensures ParsedUlInfo(Packed(head + (IntBits(kind, 2) + rest)), base) == Some(UlInfo(kind, None))
  {
    hide Carries, Memory, Packed, Val, Pow2;
    var bits := head + (IntBits(kind, 2) + rest);
    var at := Memory(Packed(bits), base + 5);
    PackedCarries(bits, base + 5);
    CarriesSplit(at, 0, head, IntBits(kind, 2) + rest);
    CarriesSplit(at, 9, IntBits(kind, 2), rest);
    FourKinds();
    NumberRead(at, 9, kind, 2);
  }

  lemma FourKinds()
    ensures Pow2(2) == 4
  {
  }

  // ----- Connection setup complete -----

  /** A PLMN identity: three digits of country code or none, and two or three of network code. */
  datatype PlmnIe = PlmnIe(mcc: Option<seq<nat>>, mnc: seq<nat>)

  datatype MmeIe = MmeIe(plmn: Option<PlmnIe>, mmegi: nat, mmec: nat)

  /** `ext`, `c1` and `optional` are bits the receiver does not look at. */
  datatype SetupIe = SetupIe(transactionId: nat, ext: bit, c1: nat, optional: bit, selectedPlmn: nat, mme: Option<MmeIe>)

  predicate DigitsOk(ds: seq<nat>) {
    forall i :: 0 <= i < |ds| ==> ds[i] < 16
  }

  predicate PlmnOk(ie: PlmnIe) {
    && 2 <= |ie.mnc| <= 3 && DigitsOk(ie.mnc)
    && (ie.mcc.Some? ==> |ie.mcc.value| == 3 && DigitsOk(ie.mcc.value))
  }

  predicate MmeOk(ie: MmeIe) {
    (ie.plmn.Some? ==> PlmnOk(ie.plmn.value)) && ie.mmegi < 0x1_0000 && ie.mmec < 256
  }

  /** Every field fits its bits; the selected PLMN is counted from 1. */
  predicate SetupOk(ie: SetupIe) {
    && ie.transactionId < 4 && ie.c1 < 4 && 1 <= ie.selectedPlmn <= 8
    && (ie.mme.Some? ==> MmeOk(ie.mme.value))
  }

  function DigitBits(ds: seq<nat>): seq<bit> {
    if |ds| == 2 then IntBits(ds[0], 4) + IntBits(ds[1], 4)
    else if |ds| == 3 then IntBits(ds[0], 4) + IntBits(ds[1], 4) + IntBits(ds[2], 4)
    else []
  }

  function MccBits(ie: PlmnIe): seq<bit> {
    match ie.mcc
    case Some(mcc) => [1] + DigitBits(mcc)
    case None => [0]
  }

  function PlmnBits(ie: PlmnIe): seq<bit> {
    MccBits(ie) + ([if |ie.mnc| == 2 then 0 else 1] + DigitBits(ie.mnc))
  }

  function MmeBits(ie: MmeIe): seq<bit> {
    (match ie.plmn
     case Some(plmn) => [1] + PlmnBits(plmn)
     case None => [0])
    + (IntBits(ie.mmegi, 16) + IntBits(ie.mmec, 8))
  }

  /** What stands before the registered MME, behind `head`, the five bits of the message type. */
  function SetupHead(head: seq<bit>, ie: SetupIe): (r: seq<bit>)
    requires |head| == 5 && ie.selectedPlmn >= 1
    ensures |r| == 15
  {
    head + (IntBits(ie.transactionId, 2) + ([ie.ext] + (IntBits(ie.c1, 2) + ([if ie.mme.Some? then 1 else 0] +
    ([ie.optional] + IntBits(ie.selectedPlmn - 1, 3))))))
  }

  function SetupBits(head: seq<bit>, ie: SetupIe, nas: seq<byte>): seq<bit>
    requires |head| == 5 && ie.selectedPlmn >= 1
  {
    SetupHead(head, ie) + ((if ie.mme.Some? then MmeBits(ie.mme.value) else []) + NasBits(nas))
  }

  /** Digits as the receiver stores them: one hexadecimal digit each, behind a filler of ones. */
  function Stored(ds: seq<nat>): nat
    requires 2 <= |ds| <= 3
  {
    if |ds| == 2 then 0xFF00 + ds[0] * 0x10 + ds[1] else 0xF000 + ds[0] * 0x100 + ds[1] * 0x10 + ds[2]
  }

  function StoredPlmn(ie: PlmnIe): Plmn
    requires PlmnOk(ie)
  {
    Plmn(if ie.mcc.Some? then Stored(ie.mcc.value) else 0xFFFF, Stored(ie.mnc))
  }

  function StoredMme(ie: MmeIe): RegisteredMme
    requires MmeOk(ie)
  {
    RegisteredMme(if ie.plmn.Some? then Some(StoredPlmn(ie.plmn.value)) else None, ie.mmegi, ie.mmec)
  }

  function StoredSetup(ie: SetupIe, nas: seq<byte>): SetupComplete
    requires SetupOk(ie)
  {
    SetupComplete(ie.transactionId, if ie.mme.Some? then Some(StoredMme(ie.mme.value)) else None, ie.selectedPlmn, nas)
  }

  lemma DigitsRead(at: nat -> byte, p: nat, ds: seq<nat>)
    requires 2 <= |ds| <= 3 && DigitsOk(ds) && Carries(at, p, DigitBits(ds))
    ensures Digits(at, p, |ds|) == Stored(ds)
  {
    hide Val, Carries;
    assert Pow2(4) == 16;
    if |ds| == 3 { CarriesSplit(at, p, IntBits(ds[0], 4) + IntBits(ds[1], 4), IntBits(ds[2], 4)); }
    CarriesSplit(at, p, IntBits(ds[0], 4), IntBits(ds[1], 4));
    NumberRead(at, p, ds[0], 4);
    NumberRead(at, p + 4, ds[1], 4);
    if |ds| == 3 { NumberRead(at, p + 8, ds[2], 4); }
  }

  lemma MccReads(at: nat -> byte, p: nat, ie: PlmnIe)
    requires PlmnOk(ie) && Carries(at, p, MccBits(ie))
    ensures at(p) == if ie.mcc.Some? then 1 else 0
    ensures ie.mcc.Some? ==> Digits(at, p + 1, 3) == Stored(ie.mcc.value)
    ensures |MccBits(ie)| == if ie.mcc.Some? then 13 else 1
  {
    hide Carries, Digits, DigitsOk;
    if ie.mcc.Some? {
      CarriesSplit(at, p, [1], DigitBits(ie.mcc.value));
      OneBit(at, p, 1);
      DigitsRead(at, p + 1, ie.mcc.value);
    } else {
      OneBit(at, p, 0);
    }
  }

  lemma PlmnReads(at: nat -> byte, p: nat, ie: PlmnIe)
    requires PlmnOk(ie) && Carries(at, p, PlmnBits(ie))
    ensures UnpackPlmn(at, p) == Parsed(StoredPlmn(ie), p + |PlmnBits(ie)|)
  {
    hide Carries, Digits, DigitsOk, MccBits, Stored;
    var q := p + |MccBits(ie)|;
    CarriesSplit(at, p, MccBits(ie), [if |ie.mnc| == 2 then 0 else 1] + DigitBits(ie.mnc));
    CarriesSplit(at, q, [if |ie.mnc| == 2 then 0 else 1], DigitBits(ie.mnc));
    OneBit(at, q, if |ie.mnc| == 2 then 0 else 1);
    MccReads(at, p, ie);
    DigitsRead(at, q + 1, ie.mnc);
  }

  lemma MmeReads(at: nat -> byte, p: nat, ie: MmeIe)
    requires MmeOk(ie) && Carries(at, p, MmeBits(ie))
    ensures UnpackMme(at, p) == Parsed(StoredMme(ie), p + |MmeBits(ie)|)
  {
    hide Carries, Val, UnpackPlmn, PlmnBits, StoredPlmn, PlmnOk;
    var plmn := if ie.plmn.Some? then [1] + PlmnBits(ie.plmn.value) else [0];
    var q := p + |plmn|;
    CarriesSplit(at, p, plmn, IntBits(ie.mmegi, 16) + IntBits(ie.mmec, 8));
    CarriesSplit(at, q, IntBits(ie.mmegi, 16), IntBits(ie.mmec, 8));
    if ie.plmn.Some? {
      CarriesSplit(at, p, [1], PlmnBits(ie.plmn.value));
      OneBit(at, p, 1);
      PlmnReads(at, p + 1, ie.plmn.value);
    } else {
      OneBit(at, p, 0);
    }
    assert Pow2(8) == 256 && Pow2(16) == 0x1_0000;
    NumberRead(at, q, ie.mmegi, 16);
    NumberRead(at, q + 16, ie.mmec, 8);
  }

  lemma HeadReads(at: nat -> byte, head: seq<bit>, ie: SetupIe)
    requires |head| == 5 && SetupOk(ie) && Carries(at, 0, SetupHead(head, ie))
    ensures Val(at, 5, 2) == ie.transactionId && at(10) == (if ie.mme.Some? then 1 else 0)
    ensures Val(at, 12, 3) == ie.selectedPlmn - 1
  {
    hide Carries, Val, MmeOk;
    var present: seq<bit> := [if ie.mme.Some? then 1 else 0];
    var plmn := IntBits(ie.selectedPlmn - 1, 3);
    var optional := [ie.optional] + plmn;
    var c1 := IntBits(ie.c1, 2) + (present + optional);
    CarriesSplit(at, 0, head, IntBits(ie.transactionId, 2) + ([ie.ext] + c1));
    CarriesSplit(at, 5, IntBits(ie.transactionId, 2), [ie.ext] + c1);
    CarriesSplit(at, 7, [ie.ext], c1);
    CarriesSplit(at, 8, IntBits(ie.c1, 2), present + optional);
    CarriesSplit(at, 10, present, optional);
    CarriesSplit(at, 11, [ie.optional], plmn);
    OneBit(at, 10, if ie.mme.Some? then 1 else 0);
    assert Pow2(2) == 4 && Pow2(3) == 8;
    NumberRead(at, 5, ie.transactionId, 2);
    NumberRead(at, 12, ie.selectedPlmn - 1, 3);
  }

  lemma SetupReads(at: nat -> byte, limit: nat, head: seq<bit>, ie: SetupIe, nas: seq<byte>)
    requires |head| == 5 && SetupOk(ie) && 1 <= |nas| <= LIBLTE_MAX_MSG_SIZE_BYTES
    requires Carries(at, 0, SetupBits(head, ie, nas)) && |SetupBits(head, ie, nas)| <= limit + 7
    ensures UnpackSetupComplete(at, 5, limit) == Some(StoredSetup(ie, nas))
  {
    hide Carries, Val, SetupHead, MmeBits, NasBits, UnpackMme, UnpackNas, MmeOk, StoredMme;
    var mme := if ie.mme.Some? then MmeBits(ie.mme.value) else [];
    CarriesSplit(at, 0, SetupHead(head, ie), mme + NasBits(nas));
    CarriesSplit(at, 15, mme, NasBits(nas));
    HeadReads(at, head, ie);
    if ie.mme.Some? { MmeReads(at, 15, ie.mme.value); }
    NasRoundTrip(at, 15 + |mme|, limit, nas);
  }

  /** Every connection setup complete is parsed to the fields it was made of and its NAS message, whatever follows. */
  lemma SetupCompleteRoundTrip(head: seq<bit>, ie: SetupIe, nas: seq<byte>, rest: seq<bit>, base: nat)
    requires |head| == 5 && SetupOk(ie) && 1 <= |nas| <= LIBLTE_MAX_MSG_SIZE_BYTES
    requires |SetupBits(head, ie, nas) + rest| <= LIBLTE_MAX_MSG_SIZE_BITS
    ensures ParsedSetupComplete(Packed(SetupBits(head, ie, nas) + rest), base) == Some(StoredSetup(ie, nas))
  {
    hide Carries, Memory, Packed, UnpackSetupComplete, SetupHead, MmeBits, MmeOk, StoredSetup, NasBits;
    var bits := SetupBits(head, ie, nas);
    var msg := Packed(bits + rest);
    PackedCarries(bits + rest, base + 5);
    CarriesSplit(Memory(msg, base + 5), 0, bits, rest);
    SetupReads(Memory(msg, base + 5), BitLength(msg), head, ie, nas);
  }

  // ----- Connection request -----

  predicate UeIdOk(id: UeId) {
    match id
    case STmsi(mmec, mTmsi) => mmec < 0x100 && mTmsi < 0x1_0000_0000
    case RandomValue(value) => value < 0x100_0000_0000
  }

  /** The kind of identity and its 40 bits. */
  function UeIdBits(id: UeId): seq<bit> {
    match id
    case STmsi(mmec, mTmsi) => [0] + (IntBits(mmec, 8) + IntBits(mTmsi, 32))
    case RandomValue(value) => [1] + IntBits(value, 40)
  }

  /** A connection request behind the two bits of the message type; a spare bit and what follows are not read. */
  function ConnReqBits(head: seq<bit>, ext: bit, req: ConnReq): seq<bit> {
    head + ([ext] + (UeIdBits(req.ueId) + IntBits(req.cause, 3)))
  }

  /** Bits read in two parts are the number read in one. */
  lemma {:induction false} ReadInParts(at: nat -> byte, p: nat, a: nat, b: nat)
    requires forall k :: p + a <= k < p + a + b ==> at(k) < 2
    ensures Val(at, p, a + b) == Val(at, p, a) * Pow2(b) + Val(at, p + a, b)
    decreases b
  {
    hide BitOr;
    if b > 0 {
      ReadInParts(at, p, a, b - 1);
      ValBit(at, p, a + b);
      ValBit(at, p + a, b);
      Swapped(Val(at, p, a), Pow2(b - 1));
      Doubled(Val(at, p, a), Pow2(b - 1));
    }
  }

  lemma Pow32()
    ensures Pow2(32) == 0x1_0000_0000 && Pow2(40) == 0x100_0000_0000
  {
    assert Pow2(8) == 256 && Pow2(16) == 0x1_0000 && Pow2(24) == 0x100_0000;
  }

  lemma UeIdReads(at: nat -> byte, p: nat, id: UeId)
    requires UeIdOk(id) && Carries(at, p, UeIdBits(id))
    ensures at(p) == (if id.STmsi? then 0 else 1)
    ensures var high, low := Val(at, p + 1, 8), Val(at, p + 9, 32);
            id == if id.STmsi? then STmsi(high, low) else RandomValue(high * 0x1_0000_0000 + low)
  {
    hide Val, Carries, Pow2;
    Pow32();
    match id
    case STmsi(mmec, mTmsi) =>
      CarriesSplit(at, p, [0], IntBits(mmec, 8) + IntBits(mTmsi, 32));
      CarriesSplit(at, p + 1, IntBits(mmec, 8), IntBits(mTmsi, 32));
      OneBit(at, p, 0);
      EightBits();
      NumberRead(at, p + 1, mmec, 8);
      NumberRead(at, p + 9, mTmsi, 32);
    case RandomValue(value) =>
      CarriesSplit(at, p, [1], IntBits(value, 40));
      OneBit(at, p, 1);
      NumberRead(at, p + 1, value, 40);
      AreBits(at, p + 1, IntBits(value, 40));
      ReadInParts(at, p + 1, 8, 32);
  }

  lemma EightBits()
    ensures Pow2(8) == 256 && Pow2(3) == 8
  {
  }

  lemma AreBits(at: nat -> byte, p: nat, bits: seq<bit>)
    requires Carries(at, p, bits)
    ensures forall k :: p <= k < p + |bits| ==> at(k) < 2
  {
    forall k | p <= k < p + |bits|
      ensures at(k) < 2
    {
      assert at(p + (k - p)) == bits[k - p];
    }
  }

  lemma SingleRead(at: nat -> byte, p: nat)
    ensures Val(at, p, 1) == at(p)
  {
    assert Val(at, p, 0) == 0;
  }

  lemma ConnReqReads(at: nat -> byte, head: seq<bit>, ext: bit, req: ConnReq)
    requires |head| == 2 && UeIdOk(req.ueId) && req.cause < 8 && Carries(at, 0, ConnReqBits(head, ext, req))
    ensures UnpackConnReq(at, 2) == req
  {
    hide Val, Carries, Pow2;
    CarriesSplit(at, 0, head, [ext] + (UeIdBits(req.ueId) + IntBits(req.cause, 3)));
    CarriesSplit(at, 2, [ext], UeIdBits(req.ueId) + IntBits(req.cause, 3));
    CarriesSplit(at, 3, UeIdBits(req.ueId), IntBits(req.cause, 3));
    UeIdReads(at, 3, req.ueId);
    SingleRead(at, 3);
    EightBits();
    NumberRead(at, 44, req.cause, 3);
  }

  /** Every connection request is parsed to its identity and cause, whatever follows. */
  lemma ConnReqRoundTrip(head: seq<bit>, ext: bit, req: ConnReq, rest: seq<bit>, base: nat)
    requires |head| == 2 && UeIdOk(req.ueId) && req.cause < 8
    requires |ConnReqBits(head, ext, req) + rest| <= LIBLTE_MAX_MSG_SIZE_BITS
    ensures ParsedConnReq(Packed(ConnReqBits(head, ext, req) + rest), base) == Some(req)
  {
    hide Carries, Memory, Packed, UnpackConnReq, ConnReqBits, UeIdOk;
    var bits := ConnReqBits(head, ext, req);
    PackedCarries(bits + rest, base + 2);
    CarriesSplit(Memory(Packed(bits + rest), base + 2), 0, bits, rest);
    ConnReqReads(Memory(Packed(bits + rest), base + 2), head, ext, req);
  }
}
