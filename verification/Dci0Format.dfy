/**
  DCI format 0 as sections 5.3.3.1.1 and 5.3.3.1.3 of 3GPP TS 36.212 lay it out: every field with its
  weight in the 32-bit word, and the size of the message.  The places here are numbers; the encoder
  and the decoder of ulp/src/dci0.c get theirs from a running offset.
 */
module Dci0Format {
  import opened Bits
  import opened Dci0

  /** The weight of the CQI request in FDD; for no LTE bandwidth, the resource indication is left out. */
  function Unit(bw: nat): nat {
    match bw
    case 100 => 32
    case 75 => 64
    case 50 => 128
    case 25 => 512
    case 15 => 2048
    case 6 => 8192
    case _ => 0x4_0000
  }

  predicate LteBandwidth(bw: nat) {
    bw == 100 || bw == 75 || bw == 50 || bw == 25 || bw == 15 || bw == 6
  }

  /** How many values the resource indication takes. */
  function Room(bw: nat): nat {
    match bw
    case 100 => 8192
    case 75 => 4096
    case 50 => 2048
    case 25 => 512
    case 15 => 128
    case 6 => 32
    case _ => 1
  }

  /** The values of the hopping bits, which are the uppermost bits of the resource indication. */
  function HopRoom(bw: nat): nat {
    if bw >= 50 then 4 else 2
  }

  /** The resource allocation, with the bits of the indication that hopping leaves. */
  function Resource(bw: nat, m: UlDciMsg): nat
    requires Bandwidth(bw)
  {
    var riv := CalcRivByRb(bw, Allocation(m.rbStart, m.numOfRb));
    if !LteBandwidth(bw) then 0
    else if m.freqEnabledFlag == 0 then riv % Room(bw)
    else m.freqHoppingBits % HopRoom(bw) * (Room(bw) / HopRoom(bw)) + riv % (Room(bw) / HopRoom(bw))
  }

  /** The sum of all fields, each with its weight and cut to its width; the format flag, of weight 2^31, is 0. */
  function Word(bw: nat, tdd: bool, m: UlDciMsg): int
    requires Bandwidth(bw)
  {
    var u := Unit(bw);
    m.freqEnabledFlag % 2 * 0x4000_0000 + Resource(bw, m) * (4096 * u)
    + m.mcs % 32 * (128 * u) + m.ndi % 2 * (64 * u) + m.tpc % 4 * (16 * u) + m.cyclicShift2forDMRS % 8 * (2 * u)
    + if tdd then m.ulIndexOrDAI % 4 * (u / 2) + m.cqiReq % 2 * (u / 4) else m.cqiReq % 2 * u
  }

  lemma ValueNext(fields: seq<Field>, i: nat)
    requires i < |fields|
    ensures Value(fields[..i + 1]) == Value(fields[..i]) * Pow2(fields[i].width) + fields[i].value % Pow2(fields[i].width)
  {
    assert fields[..i + 1][..i] == fields[..i];
  }

  lemma SmallPowers()
    ensures Pow2(0) == 1 && Pow2(1) == 2 && Pow2(2) == 4 && Pow2(3) == 8 && Pow2(4) == 16 && Pow2(5) == 32
    ensures Pow2(6) == 64 && Pow2(7) == 128 && Pow2(8) == 256 && Pow2(9) == 512 && Pow2(10) == 1024
  {
  }

  lemma LargePowers()
    ensures Pow2(11) == 2048 && Pow2(12) == 4096 && Pow2(13) == 8192 && Pow2(14) == 0x4000 && Pow2(15) == 0x8000
    ensures Pow2(16) == 0x1_0000 && Pow2(17) == 0x2_0000 && Pow2(18) == 0x4_0000
  {
    assert Pow2(10) == 1024;
  }

  lemma HugePowers()
    ensures Pow2(19) == 0x8_0000 && Pow2(20) == 0x10_0000 && Pow2(21) == 0x20_0000 && Pow2(22) == 0x40_0000
    ensures Pow2(23) == 0x80_0000 && Pow2(24) == 0x100_0000 && Pow2(25) == 0x200_0000 && Pow2(26) == 0x400_0000
    ensures Pow2(27) == 0x800_0000 && Pow2(28) == 0x1000_0000 && Pow2(29) == 0x2000_0000 && Pow2(30) == 0x4000_0000
    ensures Pow2(31) == 0x8000_0000
  {
    LargePowers();
  }

  /** The widths as numbers of values. */
  lemma Rooms(bw: nat)
    requires LteBandwidth(bw)
    ensures var n, h := RivBits(bw), HopBits(bw);
            && n > h && Pow2(n) == Room(bw) && Pow2(h) == HopRoom(bw) && Pow2(n - h) == Room(bw) / HopRoom(bw)
            && HopRoom(bw) * (Room(bw) / HopRoom(bw)) == Room(bw)
  {
    hide Pow2;
    SmallPowers();
    LargePowers();
  }

  lemma Shifted3(f: nat, h: nat, r: nat, p: nat, q: nat)
    ensures (f * p + h) * q + r == f * (p * q) + (h * q + r)
  {
    Spread(f * p, h, q);
    Grouped(f, p, q);
  }

  /** The first four fields as a number. */
  lemma HeadValue(bw: nat, tdd: bool, m: UlDciMsg)
    requires Bandwidth(bw)
    ensures Value(Fields(bw, tdd, m)[..4]) == m.freqEnabledFlag % 2 * Room(bw) + Resource(bw, m)
  {
    hide Value, Pow2, CalcRivByRb, RivBits, HopBits, Room, HopRoom;
    var fs, riv := Fields(bw, tdd, m), CalcRivByRb(bw, Allocation(m.rbStart, m.numOfRb));
    EmptyValue(fs);
    ValueNext(fs, 0);
    ValueNext(fs, 1);
    ValueNext(fs, 2);
    ValueNext(fs, 3);
    SmallPowers();
    if LteBandwidth(bw) {
      Rooms(bw);
      if m.freqEnabledFlag != 0 {
        var p, q := HopRoom(bw), Room(bw) / HopRoom(bw);
        Shifted3(m.freqEnabledFlag % 2, m.freqHoppingBits % p, riv % q, p, q);
      }
    } else {
      NoRoom(bw);
    }
  }

  lemma NoRoom(bw: nat)
    requires !LteBandwidth(bw)
    ensures RivBits(bw) == 0 && Room(bw) == 1
  {
  }

  lemma EmptyValue(fields: seq<Field>)
    ensures Value(fields[..0]) == 0
  {
  }

  /** And the others behind it. */
  lemma TailValue(bw: nat, tdd: bool, m: UlDciMsg)
    requires Bandwidth(bw)
    ensures var fs := Fields(bw, tdd, m);
            Value(fs) == if tdd then
                           Value(fs[..4]) * 16384 + m.mcs % 32 * 512 + m.ndi % 2 * 256 + m.tpc % 4 * 64
                           + m.cyclicShift2forDMRS % 8 * 8 + m.ulIndexOrDAI % 4 * 2 + m.cqiReq % 2
                         else
                           Value(fs[..4]) * 4096 + m.mcs % 32 * 128 + m.ndi % 2 * 64 + m.tpc % 4 * 16
                           + m.cyclicShift2forDMRS % 8 * 2 + m.cqiReq % 2
  {
    hide Value, Pow2, RivFields;
    var fs := Fields(bw, tdd, m);
    ValueNext(fs, 4);
    ValueNext(fs, 5);
    ValueNext(fs, 6);
    ValueNext(fs, 7);
    ValueNext(fs, 8);
    ValueNext(fs, 9);
    SmallPowers();
    assert fs[..10] == fs;
  }

  /** The weights of the highest and the lowest fields. */
  lemma Units(bw: nat)
    ensures var n, u := RivBits(bw), Unit(bw);
            && n <= 13 && Room(bw) * (4096 * u) == 0x4000_0000 && Pow2(18 - n) == u && Pow2(16 - n) == u / 4
            && u / 2 == 2 * (u / 4) && u == 4 * (u / 4)
  {
    hide Pow2;
    SmallPowers();
    LargePowers();
  }

  lemma Weighted(h: nat, a: nat, b: nat, c: nat, d: nat, e: nat, u: nat)
    ensures (h * 4096 + a * 128 + b * 64 + c * 16 + d * 2 + e) * u
            == h * (4096 * u) + a * (128 * u) + b * (64 * u) + c * (16 * u) + d * (2 * u) + e * u
  {
  }

  lemma WeightedTdd(h: nat, a: nat, b: nat, c: nat, d: nat, i: nat, e: nat, k: nat)
    ensures (h * 16384 + a * 512 + b * 256 + c * 64 + d * 8 + i * 2 + e) * k
            == h * (4096 * (4 * k)) + a * (128 * (4 * k)) + b * (64 * (4 * k)) + c * (16 * (4 * k)) + d * (2 * (4 * k))
               + i * (2 * k) + e * k
  {
  }

  /** Every message, fitting or not, is encoded as the sum of its fields with their weights. */
  lemma EncodesAsWord(bw: nat, tdd: bool, m: UlDciMsg)
    requires Bandwidth(bw)
    ensures EncodedDci0(bw, tdd, m) == Word(bw, tdd, m)
  {
    hide Value, Pow2, Pack, Width, Resource, RivBits, Unit, Room, RivFields;
    var fs := Fields(bw, tdd, m);
    FieldOffsets(bw, tdd, m);
    assert fs[..10] == fs;
    PackIsValue(fs);
    HeadValue(bw, tdd, m);
    TailValue(bw, tdd, m);
    Units(bw);
    var f, r, u := m.freqEnabledFlag % 2, Resource(bw, m), Unit(bw);
    var h := f * Room(bw) + r;
    Spread(f * Room(bw), r, 4096 * u);
    Grouped(f, Room(bw), 4096 * u);
    if tdd {
      WeightedTdd(h, m.mcs % 32, m.ndi % 2, m.tpc % 4, m.cyclicShift2forDMRS % 8, m.ulIndexOrDAI % 4, m.cqiReq % 2, u / 4);
    } else {
      Weighted(h, m.mcs % 32, m.ndi % 2, m.tpc % 4, m.cyclicShift2forDMRS % 8, m.cqiReq % 2, u);
    }
  }

  /** In 20 MHz FDD without hopping, for a message whose fields fit. */
  lemma TwentyMegahertz(m: UlDciMsg, riv: nat)
    requires m.freqEnabledFlag == 0 && riv == CalcRivByRb(100, Allocation(m.rbStart, m.numOfRb)) && riv < 8192
    requires m.mcs < 32 && m.ndi < 2 && m.tpc < 4 && m.cyclicShift2forDMRS < 8 && m.cqiReq < 2
    ensures EncodedDci0(100, false, m) ==
              riv * 0x2_0000 + m.mcs * 0x1000 + m.ndi * 0x800 + m.tpc * 0x200 + m.cyclicShift2forDMRS * 0x40 + m.cqiReq * 0x20
  {
    hide CalcRivByRb, EncodedDci0;
    EncodesAsWord(100, false, m);
  }

  // ----- Decoding -----

  /** The run that a value stands for: the second form where the first does not end before the last block. */
  function RunRead(bw: nat, riv: nat): Allocation
    requires bw > 0
  {
    var q, r := riv / bw, riv % bw;
    if r + q + 1 < bw then Allocation(r, q + 1)
    else Allocation(bw - 1 - r, if q <= bw then bw - q + 1 else 0)
  }

  /** The resource indication; with hopping, without its uppermost bits. */
  function Indication(bw: nat, word: nat): nat {
    if !LteBandwidth(bw) then 0
    else if word / 0x4000_0000 % 2 == 0 then word / (4096 * Unit(bw)) % Room(bw)
    else word / (4096 * Unit(bw)) % (Room(bw) / HopRoom(bw))
  }

  /** What the places of a word say; hopping bits and the TDD field are kept where there are none. */
  function Read(bw: nat, tdd: bool, word: nat, before: UlDciMsg): UlDciMsg
    requires Bandwidth(bw)
  {
    var u, hopping := Unit(bw), word / 0x4000_0000 % 2;
    var a := RunRead(bw, Indication(bw, word));
    UlDciMsg(hopping,
             if hopping == 0 || !LteBandwidth(bw) then before.freqHoppingBits
             else if bw >= 50 then word / 0x1000_0000 % 4 else word / 0x2000_0000 % 2,
             a.rbStart, a.numOfRb, word / (128 * u) % 32, word / (64 * u) % 2, word / (16 * u) % 4, word / (2 * u) % 8,
             if tdd then word / (u / 2) % 4 else before.ulIndexOrDAI, word / (if tdd then u / 4 else u) % 2)
  }

  /** A value that the places hold is read as its quotient and remainder say. */
  lemma RunIsRead(bw: nat, riv: nat)
    requires Bandwidth(bw) && riv < bw * bw && (bw <= 100 || riv == 0)
    ensures CalcRbByRiv(bw, riv) == RunRead(bw, riv)
  {
    hide CalcRbByRiv, RunRead;
    var q, r := Parts(bw, riv);
    Decoded(bw, riv, q, r);
    FromParts(bw, riv, q, r);
  }

  lemma FromParts(bw: nat, riv: nat, q: nat, r: nat)
    requires Bandwidth(bw) && q == riv / bw && r == riv % bw && q < bw && r < bw && (bw <= 100 || q == r == 0)
    ensures RunRead(bw, riv) == if r + q + 1 < bw then Allocation(r, q + 1) else Allocation(bw - 1 - r, (bw - q + 1) % 256)
  {
    InEightBits(bw, q, r);
  }

  lemma Parts(bw: nat, riv: nat) returns (q: nat, r: nat)
    requires bw >= 1 && riv < bw * bw
    ensures q == riv / bw && r == riv % bw && riv == q * bw + r && q < bw && r < bw && (riv == 0 ==> q == r == 0)
  {
    q, r := riv / bw, riv % bw;
    assert riv == q * bw + r;
    if q >= bw { Products(bw, q, bw); }
    if riv == 0 { DivMod(0, bw, 0); }
  }

  lemma InEightBits(bw: nat, q: nat, r: nat)
    requires Bandwidth(bw) && q < bw && r < bw && (bw <= 100 || q == r == 0)
    ensures r + q + 1 >= bw ==> (bw - q + 1) % 256 == bw - q + 1
  {
  }

  lemma IndicationInSquare(bw: nat, word: nat)
    requires Bandwidth(bw)
    ensures Indication(bw, word) < bw * bw
  {
  }

  /** The offsets of the decoder as weights. */
  lemma Places(bw: nat)
    ensures var n, u := RivBits(bw), Unit(bw);
            && Pow2(32 - (2 + n)) == 4096 * u && Pow2(32 - (n + 7)) == 128 * u && Pow2(32 - (n + 8)) == 64 * u
            && Pow2(32 - (n + 10)) == 16 * u && Pow2(32 - (n + 13)) == 2 * u && Pow2(32 - (n + 14)) == u
            && Pow2(32 - (n + 15)) == u / 2 && Pow2(32 - (n + 16)) == u / 4
  {
    hide Pow2;
    SmallPowers();
    LargePowers();
    HugePowers();
  }

  /** Every word is decoded by its places; one with the format flag set changes nothing. */
  lemma DecodesByPlaces(bw: nat, tdd: bool, word: nat, before: UlDciMsg)
    requires Bandwidth(bw)
    ensures DecodedDci0(bw, tdd, word, before) == if word / 0x8000_0000 % 2 != 0 then before else Read(bw, tdd, word, before)
  {
    hide Pow2, CalcRbByRiv, RunRead;
    SmallPowers();
    LargePowers();
    HugePowers();
    Places(bw);
    IndicationInSquare(bw, word);
    RunIsRead(bw, Indication(bw, word));
  }

  // ----- Sizes -----

  /** The sizes that no format 1A message has, which would be ambiguous. */
  predicate Ambiguous(n: nat) {
    n in {12, 14, 16, 20, 24, 26, 32, 40, 44, 56}
  }

  /**
    Format 1A: two flags, the resource indication, 5 bits of modulation and coding scheme, 3 or 4 of HARQ
    process, 1 of new data, 2 of redundancy version, 2 of power control and in TDD 2 of assignment index.
   */
  function Format1ASize(rivBits: nat, tdd: bool): nat {
    var n := rivBits + 2 + 5 + (if tdd then 4 else 3) + 1 + 2 + 2 + if tdd then 2 else 0;
    if Ambiguous(n) then n + 1 else n
  }

  /**
    The resource indication has as few bits as hold every run of the band, and format 0 is padded to the
    size of format 1A.
   */
  lemma SizesAreStandard(bw: nat, tdd: bool)
    requires LteBandwidth(bw)
    ensures RivBits(bw) > 0 && Pow2(RivBits(bw) - 1) < bw * (bw + 1) / 2 <= Pow2(RivBits(bw)) == Room(bw)
    ensures BitLength(bw, tdd) == Format1ASize(RivBits(bw), tdd)
  {
    hide Pow2;
    SmallPowers();
    LargePowers();
  }
}
