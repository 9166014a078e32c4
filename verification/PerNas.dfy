/**
  Extraction of NAS messages from unaligned PER (ulp/src/asn1Lib.c:66-194, 305-440 and
  ulp/src/asn1.c:67-130): the message is spread into one bit per octet of a buffer that all parses
  share, and read back field by field.

  Behind the buffer its record holds, in the 64-bit build, four octets of padding and a pointer
  (ulp/inc/asn1Lib.h:117-121), and these octets are what is read when a message ends there.
 */
module PerNas {
  import opened Bytes
  import opened Bits

  const LIBLTE_MAX_MSG_SIZE_BITS: nat := 102048
  const LIBLTE_MAX_MSG_SIZE_BYTES: nat := 12756
  const UINT32: nat := 0x1_0000_0000

  /** The octets between the buffer and the pointer; the record is static, so that they are 0. */
  const PADDING: nat := 4

  type bit = b: int | 0 <= b < 2

  // ----- Bits and numbers -----

  /** What is read as `n` bits from `p` on, most significant bit first; the octets are or-ed together. */
  function Val(at: nat -> byte, p: nat, n: nat): nat {
    if n == 0 then 0 else BitOr(2 * Val(at, p, n - 1), at(p + n - 1))
  }

  /** An octet that is a bit is appended. */
  lemma ValBit(at: nat -> byte, p: nat, n: nat)
    requires n > 0 && at(p + n - 1) < 2
    ensures Val(at, p, n) == 2 * Val(at, p, n - 1) + at(p + n - 1)
  {
    OrBit(Val(at, p, n - 1), at(p + n - 1));
  }

  lemma OrBit(v: nat, b: nat)
    requires b < 2
    ensures BitOr(2 * v, b) == 2 * v + b
  {
    assert Pow2(1) == 2;
    OrDisjoint(v, 1, b);
    hide BitOr;
  }

  /** The `n` low bits of a number, most significant bit first. */
  function IntBits(v: nat, n: nat): (r: seq<bit>)
    ensures |r| == n
  {
    seq(n, i requires 0 <= i < n => v / Pow2(n - 1 - i) % 2)
  }

  /** Bit `k` of a message. */
  function BitOf(msg: seq<byte>, k: nat): bit
    requires k / 8 < |msg|
  {
    msg[k / 8] / Pow2(7 - k % 8) % 2
  }

  function BitsOf(msg: seq<byte>): (r: seq<bit>)
    ensures |r| == 8 * |msg|
  {
    seq(8 * |msg|, k requires 0 <= k < 8 * |msg| => BitOf(msg, k))
  }

  /** `bits` are what is read from `p` on. */
  ghost predicate Carries(at: nat -> byte, p: nat, bits: seq<bit>) {
    forall i :: 0 <= i < |bits| ==> at(p + i) == bits[i]
  }

  lemma CarriesSplit(at: nat -> byte, p: nat, a: seq<bit>, b: seq<bit>)
    requires Carries(at, p, a + b)
    ensures Carries(at, p, a) && Carries(at, p + |a|, b)
  {
    forall i | 0 <= i < |a|
      ensures at(p + i) == a[i]
    {
      assert (a + b)[i] == a[i];
    }
    forall i | 0 <= i < |b|
      ensures at(p + |a| + i) == b[i]
    {
      assert (a + b)[|a| + i] == b[i] && at(p + (|a| + i)) == (a + b)[|a| + i];
    }
  }

  lemma Halves(v: nat, p: nat)
    requires p >= 1
    ensures v / (2 * p) == v / p / 2
  {
    var q := v / p;
    assert v == q * p + v % p && q == q / 2 * 2 + q % 2;
    Swapped(q / 2, p);
    Spread(q / 2 * 2, q % 2, p);
    Grouped(q / 2, 2, p);
    DivMod(q / 2, 2 * p, q % 2 * p + v % p);
  }

  /** Reading back the bits of a number gives the number. */
  lemma {:induction false} ReadsNumber(at: nat -> byte, p: nat, v: nat, n: nat, j: nat)
    requires Carries(at, p, IntBits(v, n)) && v < Pow2(n) && j <= n
    ensures Val(at, p, j) == v / Pow2(n - j)
    decreases j
  {
    if j > 0 {
      ReadsNumber(at, p, v, n, j - 1);
      BitRead(at, p, v, n, j - 1);
      ValBit(at, p, j);
      assert Pow2(n - (j - 1)) == 2 * Pow2(n - j);
      hide Pow2, Carries, IntBits;
      Halves(v, Pow2(n - j));
    } else {
      WholeNumber(v, Pow2(n));
    }
  }

  lemma BitRead(at: nat -> byte, p: nat, v: nat, n: nat, i: nat)
    requires Carries(at, p, IntBits(v, n)) && i < n
    ensures at(p + i) == v / Pow2(n - 1 - i) % 2
  {
    assert at(p + i) == IntBits(v, n)[i];
  }

  lemma WholeNumber(v: nat, p: nat)
    requires v < p
    ensures v / p == 0
  {
  }

  lemma NumberRead(at: nat -> byte, p: nat, v: nat, n: nat)
    requires Carries(at, p, IntBits(v, n)) && v < Pow2(n)
    ensures Val(at, p, n) == v
  {
    ReadsNumber(at, p, v, n, n);
  }

  /** The `i`-th byte of a message reads back. */
  lemma ByteRead(at: nat -> byte, p: nat, msg: seq<byte>, i: nat)
    requires Carries(at, p, BitsOf(msg)) && i < |msg|
    ensures Val(at, p + 8 * i, 8) == msg[i]
  {
    forall j | 0 <= j < 8
      ensures at(p + 8 * i + j) == IntBits(msg[i], 8)[j]
    {
      assert at(p + (8 * i + j)) == BitsOf(msg)[8 * i + j];
      assert (8 * i + j) / 8 == i && (8 * i + j) % 8 == j;
    }
    assert Pow2(8) == 256;
    NumberRead(at, p + 8 * i, msg[i], 8);
  }

  // ----- Dedicated NAS information -----

  /** The length determinant of section 10.9 of ITU-T X.691, below 16384. */
  function LengthBits(n: nat): seq<bit> {
    if n < 128 then [0] + IntBits(n, 7) else [1, 0] + IntBits(n, 14)
  }

  function NasBits(nas: seq<byte>): seq<bit> {
    LengthBits(|nas|) + BitsOf(nas)
  }

  function BytesFrom(at: nat -> byte, p: nat, n: nat): (r: seq<byte>)
    ensures |r| == n
  {
    seq(n, i requires 0 <= i < n => Octet(at, p + 8 * i))
  }

  /** An octet of a message keeps the low eight bits of what is read. */
  function Octet(at: nat -> byte, p: nat): byte {
    Val(at, p, 8) % 256
  }

  lemma {:induction false} ValBound(at: nat -> byte, p: nat, n: nat)
    requires forall k :: at(k) < 2
    ensures Val(at, p, n) < Pow2(n)
  {
    if n > 0 {
      ValBound(at, p, n - 1);
      ValBit(at, p, n);
    }
  }

  datatype Length = Length(n: nat, next: nat)

  /** The length at `p`; fragmented messages read as length 0. */
  function ReadLength(at: nat -> byte, p: nat): Length {
    if at(p) == 0 then Length(Val(at, p + 1, 7), p + 8)
    else if at(p + 1) == 0 then Length(Val(at, p + 2, 14), p + 16)
    else Length(0, p + 2)
  }

  /** May a NAS message of `n` bytes start at `p`?  Up to seven of its last bits may be missing. */
  predicate LengthOk(n: nat, p: nat, limit: int) {
    p <= limit && 1 <= n <= LIBLTE_MAX_MSG_SIZE_BYTES && 8 * n <= limit - p + 7
  }

  /** liblte_rrc_unpack_dedicated_info_nas_ie in a message that ends at `limit`. */
  function UnpackNas(at: nat -> byte, p: nat, limit: int): Option<seq<byte>> {
    var l := ReadLength(at, p);
    if LengthOk(l.n, l.next, limit) then Some(BytesFrom(at, l.next, l.n)) else None
  }

  lemma LengthReads(at: nat -> byte, p: nat, n: nat)
    requires n < 16384 && Carries(at, p, LengthBits(n))
    ensures ReadLength(at, p) == Length(n, p + |LengthBits(n)|)
  {
    assert Pow2(7) == 128 && Pow2(14) == 16384;
    if n < 128 {
      CarriesSplit(at, p, [0], IntBits(n, 7));
      assert at(p + 0) == [0][0];
      NumberRead(at, p + 1, n, 7);
    } else {
      CarriesSplit(at, p, [1, 0], IntBits(n, 14));
      assert at(p + 0) == [1, 0][0] && at(p + 1) == [1, 0][1];
      NumberRead(at, p + 2, n, 14);
    }
  }

  /** A NAS message of 1 to 12756 bytes is found again at any bit position. */
  lemma NasRoundTrip(at: nat -> byte, p: nat, limit: int, nas: seq<byte>)
    requires 1 <= |nas| <= LIBLTE_MAX_MSG_SIZE_BYTES
    requires Carries(at, p, NasBits(nas)) && p + |NasBits(nas)| <= limit + 7
    ensures UnpackNas(at, p, limit) == Some(nas)
  {
    hide Val, Carries, LengthBits, ReadLength;
    CarriesSplit(at, p, LengthBits(|nas|), BitsOf(nas));
    LengthReads(at, p, |nas|);
    var q := p + |LengthBits(|nas|)|;
    forall i | 0 <= i < |nas|
      ensures BytesFrom(at, q, |nas|)[i] == nas[i]
    {
      ByteRead(at, q, nas, i);
    }
    assert BytesFrom(at, q, |nas|) == nas;
  }

  // ----- Messages -----

  /** UL information transfer; other kinds than NAS are not unpacked. */
  datatype UlInfo = UlInfo(infoType: nat, nas: Option<seq<byte>>)

  function UnpackUlInfo(at: nat -> byte, p: nat, limit: int): Option<UlInfo> {
    var infoType := Val(at, p + 4, 2);
    if infoType == 0 then
      match UnpackNas(at, p + 6, limit)
      case Some(nas) => Some(UlInfo(0, Some(nas)))
      case None => None
    else if p + 6 <= limit then Some(UlInfo(infoType, None))
    else None
  }

  datatype Plmn = Plmn(mcc: nat, mnc: nat)

  datatype RegisteredMme = RegisteredMme(plmn: Option<Plmn>, mmegi: nat, mmec: nat)

  datatype SetupComplete = SetupComplete(transactionId: nat, registeredMme: Option<RegisteredMme>, selectedPlmn: nat, nas: seq<byte>)

  datatype Parsed<T> = Parsed(value: T, next: nat)

  /** Decimal digits as the fields store them, behind a filler. */
  function Digits(at: nat -> byte, p: nat, n: nat): nat {
    if n == 2 then 0xFF00 + Val(at, p, 4) * 16 + Val(at, p + 4, 4)
    else 0xF000 + Val(at, p, 4) * 256 + Val(at, p + 4, 4) * 16 + Val(at, p + 8, 4)
  }

  function UnpackPlmn(at: nat -> byte, p: nat): Parsed<Plmn> {
    var q := if at(p) == 1 then p + 13 else p + 1;
    var mcc := if at(p) == 1 then Digits(at, p + 1, 3) else 0xFFFF;
    if at(q) == 0 then Parsed(Plmn(mcc, Digits(at, q + 1, 2)), q + 9)
    else Parsed(Plmn(mcc, Digits(at, q + 1, 3)), q + 13)
  }

  function UnpackMme(at: nat -> byte, p: nat): Parsed<RegisteredMme> {
    var plmn := if at(p) == 1 then Some(UnpackPlmn(at, p + 1).value) else None;
    var q := if at(p) == 1 then UnpackPlmn(at, p + 1).next else p + 1;
    Parsed(RegisteredMme(plmn, Val(at, q, 16), Val(at, q + 16, 8)), q + 24)
  }

  function UnpackSetupComplete(at: nat -> byte, p: nat, limit: int): Option<SetupComplete> {
    var present := at(p + 5) == 1;
    var q := if present then UnpackMme(at, p + 10).next else p + 10;
    match UnpackNas(at, q, limit)
    case None => None
    case Some(nas) => Some(SetupComplete(Val(at, p, 2), if present then Some(UnpackMme(at, p + 10).value) else None,
                                         Val(at, p + 7, 3) + 1, nas))
  }

  /** The identity in a connection request has 40 bits, whichever it is. */
  datatype UeId = STmsi(mmec: nat, mTmsi: nat) | RandomValue(value: nat)

  /** RRC connection request; the message length is not checked. */
  datatype ConnReq = ConnReq(ueId: UeId, cause: nat)

  function UnpackConnReq(at: nat -> byte, p: nat): ConnReq {
    var high, low := Val(at, p + 2, 8), Val(at, p + 10, 32);
    ConnReq(if Val(at, p + 1, 1) == 0 then STmsi(high, low) else RandomValue(high * 0x1_0000_0000 + low), Val(at, p + 42, 3))
  }

  // ----- The shared bit buffer -----

  /** unsigned int bitLen = length << 3 */
  function BitLength(msg: seq<byte>): nat {
    8 * |msg| % UINT32
  }

  /** Octet `k` of the pointer behind the padding. */
  function AddressOctet(ptr: nat, k: nat): byte {
    ptr / Pow2(8 * k) % 256
  }

  /** What lies behind the buffer; nothing further than the pointer is ever read. */
  function Behind(ptr: nat, k: nat): byte {
    if PADDING <= k < PADDING + 8 then AddressOctet(ptr, k - PADDING) else 0
  }

  /** What a parse reads: the bits of its message, then zeros, then padding and the pointer. */
  function OctetAt(msg: seq<byte>, ptr: nat, k: nat): byte {
    if k < BitLength(msg) && k / 8 < |msg| then BitOf(msg, k)
    else if k < LIBLTE_MAX_MSG_SIZE_BITS then 0
    else Behind(ptr, k - LIBLTE_MAX_MSG_SIZE_BITS)
  }

  function Memory(msg: seq<byte>, ptr: nat): nat -> byte {
    (k: nat) => OctetAt(msg, ptr, k)
  }

  predicate TooLong(msg: seq<byte>) {
    BitLength(msg) > LIBLTE_MAX_MSG_SIZE_BITS
  }

  /** `base` is the address of the buffer; the pointer stands behind the type of the message. */
  function ParsedUlInfo(msg: seq<byte>, base: nat): Option<UlInfo> {
    if TooLong(msg) then None else UnpackUlInfo(Memory(msg, base + 5), 5, BitLength(msg))
  }

  function ParsedSetupComplete(msg: seq<byte>, base: nat): Option<SetupComplete> {
    if TooLong(msg) then None else UnpackSetupComplete(Memory(msg, base + 5), 5, BitLength(msg))
  }

  function ParsedConnReq(msg: seq<byte>, base: nat): Option<ConnReq> {
    if TooLong(msg) then None else Some(UnpackConnReq(Memory(msg, base + 2), 2))
  }

  // ----- When the address shows -----

  ghost predicate Agree(f: nat -> byte, g: nat -> byte, end: nat) {
    forall k :: 0 <= k < end ==> f(k) == g(k)
  }

  lemma {:induction false} SameVal(f: nat -> byte, g: nat -> byte, p: nat, n: nat, end: nat)
    requires Agree(f, g, end) && p + n <= end
    ensures Val(f, p, n) == Val(g, p, n)
  {
    if n > 0 { SameVal(f, g, p, n - 1, end); }
  }

  /** Where the octets of the NAS message at `p` end. */
  function NasEnd(at: nat -> byte, p: nat): nat {
    var l := ReadLength(at, p);
    l.next + 8 * l.n
  }

  lemma SameLength(f: nat -> byte, g: nat -> byte, p: nat, end: nat)
    requires Agree(f, g, end) && p + 16 <= end
    ensures ReadLength(f, p) == ReadLength(g, p)
  {
    SameVal(f, g, p + 1, 7, end);
    SameVal(f, g, p + 2, 14, end);
    assert f(p) == g(p) && f(p + 1) == g(p + 1);
  }

  lemma SameNas(f: nat -> byte, g: nat -> byte, p: nat, limit: nat, end: nat)
    requires Agree(f, g, end) && p + 16 <= end
    requires UnpackNas(f, p, limit).Some? ==> NasEnd(f, p) <= end
    ensures UnpackNas(f, p, limit) == UnpackNas(g, p, limit)
  {
    SameLength(f, g, p, end);
    var l := ReadLength(f, p);
    if LengthOk(l.n, l.next, limit) {
      forall i | 0 <= i < l.n
        ensures BytesFrom(f, l.next, l.n)[i] == BytesFrom(g, l.next, l.n)[i]
      {
        SameVal(f, g, l.next + 8 * i, 8, end);
      }
      assert BytesFrom(f, l.next, l.n) == BytesFrom(g, l.next, l.n);
    }
  }

  /** Two addresses of the buffer make no difference before the pointer. */
  lemma SameBefore(msg: seq<byte>, ptr1: nat, ptr2: nat)
    ensures Agree(Memory(msg, ptr1), Memory(msg, ptr2), LIBLTE_MAX_MSG_SIZE_BITS + PADDING)
  {
    hide BitOf, AddressOctet, BitLength;
    forall k | 0 <= k < LIBLTE_MAX_MSG_SIZE_BITS + PADDING
      ensures OctetAt(msg, ptr1, k) == OctetAt(msg, ptr2, k)
    {
    }
  }

  lemma Eighth(n: nat, k: int)
    requires n == 8 * k
    ensures n % 8 == 0
  {
  }

  /** The length of a message in bits is a multiple of eight. */
  lemma WholeOctets(msg: seq<byte>)
    ensures BitLength(msg) % 8 == 0
  {
    var w := 8 * |msg| / UINT32;
    assert 8 * |msg| == w * UINT32 + BitLength(msg);
    Eighth(BitLength(msg), |msg| - w * 0x2000_0000);
  }

  /** An UL information transfer ends at most three octets behind the buffer. */
  lemma UlInfoEnds(at: nat -> byte, limit: nat)
    requires limit % 8 == 0 && limit <= LIBLTE_MAX_MSG_SIZE_BITS && UnpackNas(at, 11, limit).Some?
    ensures NasEnd(at, 11) <= LIBLTE_MAX_MSG_SIZE_BITS + PADDING
  {
    hide Val, BytesFrom;
    var l := ReadLength(at, 11);
    assert l.next == 19 || l.next == 27;
    ThreeBehind(l.n, l.next, limit);
  }

  lemma ThreeBehind(n: nat, next: nat, limit: nat)
    requires limit % 8 == 0 && next % 8 == 3 && 8 * n <= limit - next + 7
    ensures next + 8 * n <= limit + 3
  {
    var m, q := limit / 8, next / 8;
    assert limit == 8 * m && next == 8 * q + 3;
    assert 8 * n <= 8 * (m - q) + 4;
  }

  /** An UL information transfer never shows the address, nor does a connection request. */
  lemma AddressNeverShows(msg: seq<byte>, b1: nat, b2: nat)
    ensures ParsedUlInfo(msg, b1) == ParsedUlInfo(msg, b2)
    ensures ParsedConnReq(msg, b1) == ParsedConnReq(msg, b2)
  {
    if !TooLong(msg) {
      var end := LIBLTE_MAX_MSG_SIZE_BITS + PADDING;
      SameBefore(msg, b1 + 5, b2 + 5);
      SameBefore(msg, b1 + 2, b2 + 2);
      WholeOctets(msg);
      hide Memory, BitLength;
      SameUlInfo(Memory(msg, b1 + 5), Memory(msg, b2 + 5), BitLength(msg), end);
      SameFields(Memory(msg, b1 + 2), Memory(msg, b2 + 2), end);
    }
  }

  /** Where the dedicated NAS information of a connection setup complete starts. */
  function NasStart(at: nat -> byte): nat {
    if at(10) == 1 then UnpackMme(at, 15).next else 15
  }

  /** The NAS message is accepted, and its last octet takes in a part of the pointer. */
  predicate ShowsAddress(msg: seq<byte>) {
    var at := Memory(msg, 0);
    !TooLong(msg) && UnpackNas(at, NasStart(at), BitLength(msg)).Some?
    && NasEnd(at, NasStart(at)) > LIBLTE_MAX_MSG_SIZE_BITS + PADDING
  }

  /** Only a message of the largest size can do that. */
  lemma OnlyTheLongest(msg: seq<byte>)
    requires ShowsAddress(msg)
    ensures BitLength(msg) == LIBLTE_MAX_MSG_SIZE_BITS
  {
    WholeOctets(msg);
    hide Memory, BitLength, NasStart;
  }

  lemma SameStart(f: nat -> byte, g: nat -> byte, end: nat)
    requires Agree(f, g, end) && end >= 100
    ensures NasStart(f) == NasStart(g) && NasStart(f) <= 66 && ReadLength(f, NasStart(f)) == ReadLength(g, NasStart(g))
  {
    hide UnpackMme, ReadLength;
    assert f(10) == g(10);
    SameMme(f, g, end);
    SameLength(f, g, NasStart(f), end);
  }

  lemma NoPart(msg: seq<byte>, b1: nat, b2: nat)
    requires !ShowsAddress(msg)
    ensures ParsedSetupComplete(msg, b1) == ParsedSetupComplete(msg, b2)
  {
    if !TooLong(msg) {
      var end := LIBLTE_MAX_MSG_SIZE_BITS + PADDING;
      var f, g, z := Memory(msg, b1 + 5), Memory(msg, b2 + 5), Memory(msg, 0);
      SameBefore(msg, b1 + 5, b2 + 5);
      SameBefore(msg, b1 + 5, 0);
      hide Memory, UnpackMme, Val;
      SameStart(f, z, end);
      SameSetupComplete(f, g, BitLength(msg), end);
    }
  }

  lemma SameUlInfo(f: nat -> byte, g: nat -> byte, limit: nat, end: nat)
    requires Agree(f, g, end) && limit % 8 == 0 && limit <= LIBLTE_MAX_MSG_SIZE_BITS
    requires end == LIBLTE_MAX_MSG_SIZE_BITS + PADDING
    ensures UnpackUlInfo(f, 5, limit) == UnpackUlInfo(g, 5, limit)
  {
    if UnpackNas(f, 11, limit).Some? { UlInfoEnds(f, limit); }
    hide Val, UnpackNas;
    SameVal(f, g, 9, 2, end);
    SameNas(f, g, 11, limit, end);
  }

  lemma SameSetupComplete(f: nat -> byte, g: nat -> byte, limit: nat, end: nat)
    requires Agree(f, g, end) && end >= 100
    requires UnpackNas(f, NasStart(f), limit).Some? ==> NasEnd(f, NasStart(f)) <= end
    ensures UnpackSetupComplete(f, 5, limit) == UnpackSetupComplete(g, 5, limit)
  {
    hide Val, UnpackNas, UnpackMme;
    SameFields(f, g, end);
    SameMme(f, g, end);
    SameStart(f, g, end);
    SameNas(f, g, NasStart(f), limit, end);
  }

  lemma SameFields(f: nat -> byte, g: nat -> byte, end: nat)
    requires Agree(f, g, end) && end >= 100
    ensures f(10) == g(10) && Val(f, 5, 2) == Val(g, 5, 2) && Val(f, 12, 3) == Val(g, 12, 3)
    ensures UnpackConnReq(f, 2) == UnpackConnReq(g, 2)
  {
    hide Val;
    SameVal(f, g, 5, 2, end);
    SameVal(f, g, 12, 3, end);
    SameVal(f, g, 3, 1, end);
    SameVal(f, g, 4, 8, end);
    SameVal(f, g, 12, 32, end);
    SameVal(f, g, 44, 3, end);
  }

  lemma SameDigits(f: nat -> byte, g: nat -> byte, p: nat, end: nat)
    requires Agree(f, g, end) && p + 12 <= end
    ensures Digits(f, p, 2) == Digits(g, p, 2) && Digits(f, p, 3) == Digits(g, p, 3)
  {
    SameVal(f, g, p, 4, end);
    SameVal(f, g, p + 4, 4, end);
    SameVal(f, g, p + 8, 4, end);
  }

  lemma SameMme(f: nat -> byte, g: nat -> byte, end: nat)
    requires Agree(f, g, end) && end >= 100
    ensures UnpackMme(f, 15) == UnpackMme(g, 15) && UnpackMme(f, 15).next <= 66
  {
    hide Val, Digits;
    assert f(15) == g(15) && f(16) == g(16);
    SameDigits(f, g, 17, end);
    var q := if f(16) == 1 then 29 else 17;
    assert f(q) == g(q);
    SameDigits(f, g, q + 1, end);
    var r := if f(15) == 1 then UnpackPlmn(f, 16).next else 16;
    SameVal(f, g, r, 16, end);
    SameVal(f, g, r + 16, 8, end);
  }

  // ----- Encoding whole messages -----

  /** Bits packed into bytes, the last one filled up with zeros. */
  function Packed(bits: seq<bit>): (r: seq<byte>)
    ensures |r| == (|bits| + 7) / 8
  {
    seq((|bits| + 7) / 8, i requires 0 <= i < (|bits| + 7) / 8 => Octet(BitsFrom(bits), 8 * i))
  }

  function BitsFrom(bits: seq<bit>): nat -> byte {
    (k: nat) => if k < |bits| then bits[k] else 0
  }

  /** The bits of a number come back out of it. */
  lemma {:induction false} NumberBits(at: nat -> byte, p: nat, n: nat, i: nat)
    requires i < n && forall k :: at(k) < 2
    ensures Val(at, p, n) / Pow2(n - 1 - i) % 2 == at(p + i)
    decreases n
  {
    hide Val, BitOr;
    var v := Val(at, p, n - 1);
    ValBit(at, p, n);
    if i < n - 1 {
      NumberBits(at, p, n - 1, i);
      Halves2(v, at(p + n - 1), Pow2(n - 2 - i));
    } else {
      assert Pow2(0) == 1;
    }
  }

  lemma Halves2(v: nat, b: bit, p: nat)
    requires p >= 1
    ensures (2 * v + b) / (2 * p) == v / p
  {
    var q, r := v / p, v % p;
    assert v == q * p + r;
    Swapped(q, p);
    Grouped(2, q, p);
    DivMod(q, 2 * p, 2 * r + b);
  }

  lemma OctetOfBits(at: nat -> byte, p: nat)
    requires forall k :: at(k) < 2
    ensures Octet(at, p) == Val(at, p, 8)
  {
    ValBound(at, p, 8);
    assert Pow2(8) == 256;
    hide Val;
  }

  lemma PackedBits(bits: seq<bit>, k: nat)
    requires k < |bits|
    ensures BitOf(Packed(bits), k) == bits[k]
  {
    hide Val, BitOr;
    var at, p := BitsFrom(bits), 8 * (k / 8);
    NumberBits(at, p, 8, k % 8);
    OctetOfBits(at, p);
    hide Pow2;
  }

  /** The message a parse sees carries the bits it was packed from. */
  lemma PackedCarries(bits: seq<bit>, ptr: nat)
    requires |bits| <= LIBLTE_MAX_MSG_SIZE_BITS
    ensures BitLength(Packed(bits)) == (|bits| + 7) / 8 * 8 && !TooLong(Packed(bits))
    ensures Carries(Memory(Packed(bits), ptr), 0, bits)
  {
    forall k | 0 <= k < |bits|
      ensures Memory(Packed(bits), ptr)(k) == bits[k]
    {
      PackedBits(bits, k);
    }
  }

  /** An UL information transfer message: 5 bits of type, extension, choice, option bit, and kind 0. */
  function UlInfoBits(head: seq<bit>, nas: seq<byte>): seq<bit>
    requires |head| == 9
  {
    head + [0, 0] + NasBits(nas)
  }

  /** Every NAS message that fits is taken out of its RRC message unchanged. */
  lemma UlInfoRoundTrip(head: seq<bit>, nas: seq<byte>, base: nat)
    requires |head| == 9 && 1 <= |nas| && |UlInfoBits(head, nas)| <= LIBLTE_MAX_MSG_SIZE_BITS
    ensures ParsedUlInfo(Packed(UlInfoBits(head, nas)), base) == Some(UlInfo(0, Some(nas)))
  {
    var bits := UlInfoBits(head, nas);
    hide Carries, Memory, Packed, UnpackUlInfo;
    PackedCarries(bits, base + 5);
    UlInfoRead(Memory(Packed(bits), base + 5), BitLength(Packed(bits)), head, nas);
  }

  lemma UlInfoRead(at: nat -> byte, limit: nat, head: seq<bit>, nas: seq<byte>)
    requires |head| == 9 && 1 <= |nas| <= LIBLTE_MAX_MSG_SIZE_BYTES
    requires Carries(at, 0, UlInfoBits(head, nas)) && |UlInfoBits(head, nas)| <= limit
    ensures UnpackUlInfo(at, 5, limit) == Some(UlInfo(0, Some(nas)))
  {
    CarriesSplit(at, 0, head + [0, 0], NasBits(nas));
    CarriesSplit(at, 0, head, [0, 0]);
    assert at(9 + 0) == [0, 0][0] && at(9 + 1) == [0, 0][1];
    TwoZeros(at, 9);
    hide Val, Carries;
    NasRoundTrip(at, 11, limit, nas);
  }

  lemma TwoZeros(at: nat -> byte, p: nat)
    requires at(p) == 0 && at(p + 1) == 0
    ensures Val(at, p, 2) == 0
  {
    assert Val(at, p, 1) == 2 * Val(at, p, 0) + at(p);
  }

  // ----- A part of the pointer in the last octet -----

  /** An octet that is 0 shifts what was read. */
  lemma ValZero(at: nat -> byte, p: nat, n: nat)
    requires n > 0 && at(p + n - 1) == 0
    ensures Val(at, p, n) == 2 * Val(at, p, n - 1)
  {
    ValBit(at, p, n);
  }

  /** Behind the buffer there is nothing but bit `b`, in the first octet of the pointer. */
  ghost predicate OnlyBehind(at: nat -> byte, b: bit) {
    forall k :: LIBLTE_MAX_MSG_SIZE_BITS <= k < LIBLTE_MAX_MSG_SIZE_BITS + 7 ==>
      at(k) == if k == LIBLTE_MAX_MSG_SIZE_BITS + PADDING then b else 0
  }

  /** Eight octets from `p`, the last `e` of them behind the buffer. */
  lemma LastOctet(at: nat -> byte, p: nat, e: nat, b: bit)
    requires 5 <= e <= 7 && p + 8 == LIBLTE_MAX_MSG_SIZE_BITS + e
    requires OnlyBehind(at, b)
    ensures Val(at, p, 8) == (32 * Val(at, p, 8 - e) + b) * Pow2(e - 5)
  {
    hide BitOr, Val, Pow2;
    var m := 8 - e;
    ValZero(at, p, m + 1);
    ValZero(at, p, m + 2);
    ValZero(at, p, m + 3);
    ValZero(at, p, m + 4);
    ValBit(at, p, m + 5);
    assert Val(at, p, m + 5) == 32 * Val(at, p, m) + b;
    if e >= 6 { ValZero(at, p, m + 6); }
    if e == 7 { ValZero(at, p, m + 7); }
    SmallPowers(e - 5);
  }

  lemma SmallPowers(k: nat)
    requires k < 3
    ensures Pow2(k) == if k == 0 then 1 else if k == 1 then 2 else 4
  {
  }

  lemma OctetsDiffer(v: nat, e: nat)
    requires 5 <= e <= 7
    ensures 32 * v * Pow2(e - 5) % 256 != (32 * v + 1) * Pow2(e - 5) % 256
  {
    SmallPowers(e - 5);
    hide Pow2;
  }

  /** Addresses whose pointers are 2^24 and 2^24 + 1. */
  const BASE: nat := 0x100_0000 - 5

  lemma LowOctets(b: bit, k: nat)
    requires k < 7
    ensures Behind(BASE + b + 5, k) == if k == PADDING then b else 0
  {
    assert Pow2(0) == 1 && Pow2(8) == 256 && Pow2(16) == 0x1_0000;
    var ptr := 0x100_0000 + b;
    assert ptr % 256 == b && ptr / 256 == 0x1_0000 && ptr / 0x1_0000 == 256;
  }

  lemma BehindTheBuffer(msg: seq<byte>, b: bit)
    requires !TooLong(msg)
    ensures OnlyBehind(Memory(msg, BASE + b + 5), b)
  {
    hide Behind, BitOf, Pow2;
    var ptr := BASE + b + 5;
    forall k | LIBLTE_MAX_MSG_SIZE_BITS <= k < LIBLTE_MAX_MSG_SIZE_BITS + 7
      ensures OctetAt(msg, ptr, k) == if k == LIBLTE_MAX_MSG_SIZE_BITS + PADDING then b else 0
    {
      LowOctets(b, k - LIBLTE_MAX_MSG_SIZE_BITS);
    }
  }

  lemma SameAccepted(f: nat -> byte, g: nat -> byte, p: nat, limit: nat)
    requires ReadLength(f, p) == ReadLength(g, p)
    ensures UnpackNas(f, p, limit).Some? <==> UnpackNas(g, p, limit).Some?
    ensures NasEnd(f, p) == NasEnd(g, p)
  {
    hide ReadLength, BytesFrom;
  }

  lemma DifferentMessages(f: nat -> byte, g: nat -> byte, limit: nat)
    requires UnpackNas(f, NasStart(f), limit).Some? && UnpackNas(g, NasStart(g), limit).Some?
    requires UnpackNas(f, NasStart(f), limit).value != UnpackNas(g, NasStart(g), limit).value
    ensures UnpackSetupComplete(f, 5, limit) != UnpackSetupComplete(g, 5, limit)
  {
    hide Val, UnpackNas, UnpackMme;
  }

  lemma PartShows(msg: seq<byte>)
    requires ShowsAddress(msg)
    ensures ParsedSetupComplete(msg, BASE) != ParsedSetupComplete(msg, BASE + 1)
  {
    hide Memory, OctetAt, BitLength, UnpackMme, Val, ReadLength, Agree, OnlyBehind, UnpackNas, NasStart, NasEnd, UnpackSetupComplete;
    var f, g, z, end := Memory(msg, BASE + 0 + 5), Memory(msg, BASE + 1 + 5), Memory(msg, 0), LIBLTE_MAX_MSG_SIZE_BITS + PADDING;
    SameBefore(msg, BASE + 5, 0);
    SameBefore(msg, BASE + 6, 0);
    SameBefore(msg, BASE + 5, BASE + 6);
    BehindTheBuffer(msg, 0);
    BehindTheBuffer(msg, 1);
    SameStart(f, z, end);
    SameStart(g, z, end);
    SameAccepted(f, z, NasStart(f), BitLength(msg));
    LastDiffers(f, g, NasStart(f), BitLength(msg));
    DifferentMessages(f, g, BitLength(msg));
  }

  lemma LastDiffers(f: nat -> byte, g: nat -> byte, p: nat, limit: nat)
    requires limit <= LIBLTE_MAX_MSG_SIZE_BITS && ReadLength(f, p) == ReadLength(g, p)
    requires UnpackNas(f, p, limit).Some? && NasEnd(f, p) > LIBLTE_MAX_MSG_SIZE_BITS + PADDING
    requires Agree(f, g, LIBLTE_MAX_MSG_SIZE_BITS + PADDING)
    requires OnlyBehind(f, 0) && OnlyBehind(g, 1)
    ensures UnpackNas(g, p, limit).Some? && UnpackNas(f, p, limit).value != UnpackNas(g, p, limit).value
  {
    hide Val;
    var l := ReadLength(f, p);
    var q, e := l.next + 8 * (l.n - 1), NasEnd(f, p) - LIBLTE_MAX_MSG_SIZE_BITS;
    LastOctet(f, q, e, 0);
    LastOctet(g, q, e, 1);
    SameVal(f, g, q, 8 - e, LIBLTE_MAX_MSG_SIZE_BITS + PADDING);
    OctetsDiffer(Val(f, q, 8 - e), e);
    assert BytesFrom(f, l.next, l.n)[l.n - 1] != BytesFrom(g, l.next, l.n)[l.n - 1];
  }

  /**
    The result of a connection setup complete depends on where the buffer lies if and only if the
    NAS message is accepted and ends behind the padding.
   */
  lemma AddressShows(msg: seq<byte>)
    ensures (exists b1: nat, b2: nat :: ParsedSetupComplete(msg, b1) != ParsedSetupComplete(msg, b2)) <==> ShowsAddress(msg)
  {
    hide ParsedSetupComplete, ShowsAddress;
    if ShowsAddress(msg) {
      PartShows(msg);
    } else {
      forall b1: nat, b2: nat ensures ParsedSetupComplete(msg, b1) == ParsedSetupComplete(msg, b2) {
        NoPart(msg, b1, b2);
      }
    }
  }

  /** A setup complete without a registered MME whose NAS message takes up all there is. */
  function LongestBits(): seq<bit> {
    seq(15, _ => 0) + LengthBits(12753) + seq(102017, _ => 0)
  }

  lemma LongestHead(at: nat -> byte)
    requires Carries(at, 0, LongestBits())
    ensures at(10) == 0 && Carries(at, 15, LengthBits(12753))
  {
    var head: seq<bit>, zeros: seq<bit> := seq(15, _ => 0), seq(102017, _ => 0);
    CarriesSplit(at, 0, head + LengthBits(12753), zeros);
    CarriesSplit(at, 0, head, LengthBits(12753));
    assert at(0 + 10) == head[10];
  }

  lemma LongestSize()
    ensures |LongestBits()| == LIBLTE_MAX_MSG_SIZE_BITS && |LengthBits(12753)| == 16
  {
  }

  lemma LongestShows()
    ensures |LongestBits()| == LIBLTE_MAX_MSG_SIZE_BITS && ShowsAddress(Packed(LongestBits()))
  {
    hide Memory, OctetAt, Packed, BitLength, Carries, Val, LongestBits, LengthBits, BytesFrom, UnpackMme;
    var msg := Packed(LongestBits());
    var at := Memory(msg, 0);
    LongestSize();
    PackedCarries(LongestBits(), 0);
    LongestHead(at);
    LengthReads(at, 15, 12753);
  }

  // ----- The parser and its buffer -----

  lemma {:induction false} OrShifted(a: nat, b: nat, k: nat)
    ensures BitOr(a * Pow2(k), b * Pow2(k)) == BitOr(a, b) * Pow2(k)
  {
    hide BitOr;
    if k > 0 {
      OrShifted(a, b, k - 1);
      OrTwice(a, b, Pow2(k - 1));
    }
  }

  lemma OrTwice(a: nat, b: nat, w: nat)
    requires BitOr(a * w, b * w) == BitOr(a, b) * w
    ensures BitOr(a * (2 * w), b * (2 * w)) == BitOr(a, b) * (2 * w)
  {
    hide BitOr;
    Twice(a, w);
    Twice(b, w);
    Twice(BitOr(a, b), w);
    OrDoubled(a * w, b * w);
  }

  lemma Twice(a: nat, w: nat)
    ensures a * (2 * w) == 2 * (a * w)
  {
  }

  lemma OrDoubled(a: nat, b: nat)
    ensures BitOr(2 * a, 2 * b) == 2 * BitOr(a, b)
  {
  }

  lemma NextBit(at: nat -> byte, p: nat, i: nat, n: nat)
    requires i < n
    ensures BitOr(Val(at, p, i) * Pow2(n - i), at(p + i) * Pow2(n - i - 1)) == Val(at, p, i + 1) * Pow2(n - i - 1)
  {
    var w := Pow2(n - i - 1);
    Swapped(Val(at, p, i), w);
    OrShifted(2 * Val(at, p, i), at(p + i), n - i - 1);
    hide BitOr;
  }

  class Asn1 {
    const buff: array<byte>

    /** The address of the buffer, and the pointer behind it. */
    const base: nat
    var msg: nat

    /** Asn1Init */
    constructor (base: nat)
      ensures Clear() && fresh(buff) && this.base == base
    {
      this.base := base;
      msg := 0;
      buff := new byte[LIBLTE_MAX_MSG_SIZE_BITS](_ => 0);
    }

    /** Between parses every octet of the buffer is 0. */
    ghost predicate Clear()
      reads buff
    {
      buff.Length == LIBLTE_MAX_MSG_SIZE_BITS && forall i :: 0 <= i < buff.Length ==> buff[i] == 0
    }

    /** `at` is the memory as a parse reads it. */
    ghost predicate Sees(at: nat -> byte)
      reads this, buff
    {
      && buff.Length == LIBLTE_MAX_MSG_SIZE_BITS
      && (forall k :: 0 <= k < buff.Length ==> at(k) == buff[k])
      && (forall k :: buff.Length <= k ==> at(k) == Behind(msg, k - buff.Length))
    }

    method ReadBit(p: nat, ghost at: nat -> byte) returns (b: byte)
      requires Sees(at)
      ensures b == at(p)
    {
      b := if p < buff.Length then buff[p] else Behind(msg, p - buff.Length);
    }

    /** liblte_bits_2_value; its 32 bits suffice, as behind the buffer no more than eight octets are read at once. */
    method Bits2Value(p: nat, n: nat, ghost at: nat -> byte) returns (value: nat)
      requires Sees(at)
      ensures value == Val(at, p, n)
    {
      hide BitOr;
      value := 0;
      for i := 0 to n
        invariant value == Val(at, p, i) * Pow2(n - i)
      {
        var b := ReadBit(p + i, at);
        NextBit(at, p, i, n);
        value := BitOr(value, b * Pow2(n - i - 1));
      }
      assert Pow2(n - n) == 1;
    }

    /** convert_bytes_to_bits_vector for whole bytes, with convert_int_to_bits_vector as its inner loop. */
    method ConvertBytesToBits(msg: seq<byte>, nbytes: nat)
      requires nbytes <= |msg| && 8 * nbytes <= buff.Length
      modifies buff
      ensures forall k :: 0 <= k < 8 * nbytes ==> buff[k] == BitOf(msg, k)
      ensures forall k :: 8 * nbytes <= k < buff.Length ==> buff[k] == old(buff[k])
    {
      for i := 0 to nbytes
        invariant forall k :: 0 <= k < 8 * i ==> buff[k] == BitOf(msg, k)
        invariant forall k :: 8 * i <= k < buff.Length ==> buff[k] == old(buff[k])
      {
        for j := 0 to 8
          invariant forall k :: 0 <= k < 8 * i + j ==> buff[k] == BitOf(msg, k)
          invariant forall k :: 8 * i + j <= k < buff.Length ==> buff[k] == old(buff[k])
        {
          assert (8 * i + j) / 8 == i && (8 * i + j) % 8 == j;
          buff[8 * i + j] := msg[i] / Pow2(7 - j) % 2;
        }
      }
    }

    /** Spreads a message over the cleared buffer. */
    method Load(text: seq<byte>)
      requires Clear() && !TooLong(text)
      modifies buff
      ensures Sees(Memory(text, msg))
    {
      WholeOctets(text);
      ConvertBytesToBits(text, BitLength(text) / 8);
    }

    /** memset of the bits that were written. */
    method Unload(text: seq<byte>)
      requires !TooLong(text) && Sees(Memory(text, msg))
      modifies buff
      ensures Clear()
    {
      for k := 0 to BitLength(text)
        invariant forall i :: 0 <= i < k ==> buff[i] == 0
        invariant forall i :: k <= i < buff.Length ==> buff[i] == old(buff[i])
      {
        buff[k] := 0;
      }
      forall i | BitLength(text) <= i < buff.Length
        ensures buff[i] == 0
      {
        assert Memory(text, msg)(i) == 0;
      }
    }

    /** liblte_rrc_unpack_dedicated_info_nas_ie; `nBits` bits are left in the message, -1 after a failure. */
    method UnpackDedicatedInfoNas(p: nat, nBits: int, ghost at: nat -> byte)
      returns (nas: seq<byte>, nBits': int)
      requires Sees(at)
      ensures UnpackNas(at, p, p + nBits) == if nBits' >= 0 then Some(nas) else None
    {
      hide Val;
      nas := [];
      var q, nBytes := p + 1, 0;
      nBits' := nBits;
      var long := ReadBit(p, at);
      if long == 0 {
        nBytes := Bits2Value(q, 7, at);
        q := q + 7;
        nBits' := nBits' - 7;
      } else {
        var fragmented := ReadBit(q, at);
        q := q + 1;
        if fragmented == 0 {
          nBytes := Bits2Value(q, 14, at);
          q := q + 14;
          nBits' := nBits' - 14;
        }
        nBits' := nBits' - 1;
      }
      nBits' := nBits' - 1;
      if nBits' < 0 || nBytes == 0 || nBytes > LIBLTE_MAX_MSG_SIZE_BYTES || 8 * nBytes > nBits' + 7 {
        nBits' := -1;
        return;
      }
      for i := 0 to nBytes
        invariant |nas| == i && forall j :: 0 <= j < i ==> nas[j] == Octet(at, q + 8 * j)
      {
        var octet := Bits2Value(q + 8 * i, 8, at);
        nas := nas + [octet % 256];
      }
      assert nas == BytesFrom(at, q, nBytes);
    }

    /** Asn1ParseUlInfoTransMsg: the result is a function of the message, and the buffer is clear again. */
    method Asn1ParseUlInfoTransMsg(text: seq<byte>) returns (r: Option<UlInfo>)
      requires Clear()
      modifies buff, this`msg
      ensures Clear() && r == ParsedUlInfo(text, base)
    {
      hide Val, Memory;
      msg := base;
      if TooLong(text) {
        return None;
      }
      msg := msg + 5;
      ghost var at := Memory(text, msg);
      Load(text);
      var nBits: int := BitLength(text) - 5 - 6;
      var infoType := Bits2Value(9, 2, at);
      r := None;
      if infoType == 0 {
        var nas;
        nas, nBits := UnpackDedicatedInfoNas(11, nBits, at);
        if nBits >= 0 {
          r := Some(UlInfo(0, Some(nas)));
        }
      } else if nBits >= 0 {
        r := Some(UlInfo(infoType, None));
      }
      Unload(text);
    }

    /** liblte_rrc_unpack_plmn_identity_ie */
    method UnpackPlmnIdentity(p: nat, ghost at: nat -> byte) returns (plmn: Plmn, q: nat)
      requires Sees(at)
      ensures Parsed(plmn, q) == UnpackPlmn(at, p)
    {
      var mcc, mnc := 0xFFFF, 0;
      q := p + 1;
      var mccOpt := ReadBit(p, at);
      if mccOpt == 1 {
        mcc := ReadDigits(q, 3, at);
        q := q + 12;
      }
      var mncSize := ReadBit(q, at);
      if mncSize == 0 {
        mnc := ReadDigits(q + 1, 2, at);
        q := q + 9;
      } else {
        mnc := ReadDigits(q + 1, 3, at);
        q := q + 13;
      }
      plmn := Plmn(mcc, mnc);
    }

    method ReadDigits(p: nat, n: nat, ghost at: nat -> byte) returns (v: nat)
      requires Sees(at) && 2 <= n <= 3
      ensures v == Digits(at, p, n)
    {
      var a := Bits2Value(p, 4, at);
      var b := Bits2Value(p + 4, 4, at);
      if n == 2 {
        v := 0xFF00 + a * 16 + b;
      } else {
        var c := Bits2Value(p + 8, 4, at);
        v := 0xF000 + a * 256 + b * 16 + c;
      }
    }

    method UnpackRegisteredMme(p: nat, ghost at: nat -> byte) returns (mme: RegisteredMme, q: nat)
      requires Sees(at)
      ensures Parsed(mme, q) == UnpackMme(at, p)
    {
      hide Val;
      var plmn := None;
      q := p + 1;
      var plmnIdPresent := ReadBit(p, at);
      if plmnIdPresent == 1 {
        var id;
        id, q := UnpackPlmnIdentity(q, at);
        plmn := Some(id);
      }
      var mmegi := Bits2Value(q, 16, at);
      var mmec := Bits2Value(q + 16, 8, at);
      q := q + 24;
      mme := RegisteredMme(plmn, mmegi, mmec);
    }

    /** Asn1ParseRrcSetupComplMsg */
    method Asn1ParseRrcSetupComplMsg(text: seq<byte>) returns (r: Option<SetupComplete>)
      requires Clear()
      modifies buff, this`msg
      ensures Clear() && r == ParsedSetupComplete(text, base)
    {
      hide Val, Memory, BitLength, UnpackMme, UnpackNas;
      msg := base;
      if TooLong(text) {
        return None;
      }
      msg := msg + 5;
      ghost var at := Memory(text, msg);
      Load(text);
      var transactionId := Bits2Value(5, 2, at);
      var present := ReadBit(10, at);
      var selectedPlmn := Bits2Value(12, 3, at);
      var mme, q := None, 15;
      if present == 1 {
        var m;
        m, q := UnpackRegisteredMme(q, at);
        mme := Some(m);
      }
      var nas, nBits := UnpackDedicatedInfoNas(q, BitLength(text) - q, at);
      r := if nBits >= 0 then Some(SetupComplete(transactionId, mme, selectedPlmn + 1, nas)) else None;
      Unload(text);
    }

    /** Asn1ParseRrcConnReqMsg */
    method Asn1ParseRrcConnReqMsg(text: seq<byte>) returns (r: Option<ConnReq>)
      requires Clear()
      modifies buff, this`msg
      ensures Clear() && r == ParsedConnReq(text, base)
    {
      hide Val, Memory;
      msg := base;
      if TooLong(text) {
        return None;
      }
      msg := msg + 2;
      ghost var at := Memory(text, msg);
      Load(text);
      var ueIdType := Bits2Value(3, 1, at);
      var high := Bits2Value(4, 8, at);
      var low := Bits2Value(12, 32, at);
      var cause := Bits2Value(44, 3, at);
      r := Some(ConnReq(if ueIdType == 0 then STmsi(high, low) else RandomValue(high * 0x1_0000_0000 + low), cause));
      Unload(text);
    }
  }
}
