/**
  Uplink grants: the resource indication value of section 8.1.1 of 3GPP TS 36.213 and DCI format 0
  of section 5.3.3.1.1 of 3GPP TS 36.212, as ulp/src/dci0.c computes them.  The build for TDD
  (LTE_TDD) is the parameter `tdd`.
 */
module Dci0 {
  import opened Bits

  const UINT32: nat := 0x1_0000_0000

  // ----- Resource indication value -----

  /** The bandwidth, in resource blocks, is an unsigned char. */
  predicate Bandwidth(bw: nat) {
    1 <= bw < 256
  }

  datatype Allocation = Allocation(rbStart: nat, numOfRb: nat)

  /** A run of resource blocks inside the band. */
  predicate InBand(bw: nat, a: Allocation) {
    a.numOfRb >= 1 && a.rbStart + a.numOfRb <= bw
  }

  /** calcRivByRb; C's conversion to unsigned int is the remainder modulo 2^32. */
  function CalcRivByRb(bw: nat, a: Allocation): nat
    requires Bandwidth(bw)
  {
    if a.numOfRb - 1 <= bw / 2 then ((a.numOfRb - 1) * bw + a.rbStart) % UINT32
    else ((bw - a.numOfRb + 1) * bw + (bw - 1 - a.rbStart)) % UINT32
  }

  function FromRiv(bw: nat, riv: nat): Allocation
    requires Bandwidth(bw)
  {
    Allocation(riv % bw, (riv / bw + 1) % 256)
  }

  /** calcRbByRiv; the number of blocks is an unsigned char, the subtraction is in 32 bits. */
  function CalcRbByRiv(bw: nat, riv: nat): Allocation
    requires Bandwidth(bw)
  {
    var a := FromRiv(bw, riv);
    if a.rbStart + a.numOfRb >= bw then FromRiv(bw, (bw * bw + bw - 1 - riv) % UINT32) else a
  }

  /** calcRbByRiv with its out-parameters. */
  method CalcRbByRivInPlace(bw: nat, riv: nat) returns (rbStart: nat, numOfRb: nat)
    requires Bandwidth(bw)
    ensures Allocation(rbStart, numOfRb) == CalcRbByRiv(bw, riv)
  {
    rbStart := riv % bw;
    numOfRb := (riv / bw + 1) % 256;
    var tmp := bw * bw + bw - 1;
    if rbStart + numOfRb >= bw {
      rbStart := (tmp - riv) % UINT32 % bw;
      numOfRb := ((tmp - riv) % UINT32 / bw + 1) % 256;
    }
  }

  /** Quotient and remainder of the indication value, in both of its forms. */
  lemma RivParts(bw: nat, a: Allocation)
    requires Bandwidth(bw) && InBand(bw, a)
    ensures var riv, low := CalcRivByRb(bw, a), a.numOfRb - 1 <= bw / 2;
            && riv == riv / bw * bw + riv % bw && riv / bw <= bw
            && riv / bw == (if low then a.numOfRb - 1 else bw - a.numOfRb + 1)
            && riv % bw == (if low then a.rbStart else bw - 1 - a.rbStart)
  {
    if a.numOfRb - 1 <= bw / 2 {
      OneForm(bw, a.numOfRb - 1, a.rbStart);
    } else {
      OneForm(bw, bw - a.numOfRb + 1, bw - 1 - a.rbStart);
    }
  }

  lemma OneForm(bw: nat, q: nat, r: nat)
    requires Bandwidth(bw) && q <= bw && r < bw
    ensures var riv := (q * bw + r) % UINT32;
            riv == q * bw + r && riv / bw == q && riv % bw == r
  {
    Squared(bw);
    Products(q, bw, bw);
    DivMod(q, bw, r);
  }

  function Runs(bw: nat): nat {
    bw * (bw + 1) / 2
  }

  lemma RunsTwice(bw: nat)
    ensures 2 * Runs(bw) == bw * bw + bw
  {
    assert bw * (bw + 1) == bw * bw + bw;
    if bw % 2 == 0 {
      EvenProduct(bw / 2, bw + 1);
    } else {
      EvenProduct((bw + 1) / 2, bw);
    }
  }

  lemma EvenProduct(k: nat, m: nat)
    ensures 2 * k * m / 2 * 2 == 2 * k * m && m * (2 * k) == 2 * k * m
  {
    Doubled(k, m);
  }

  lemma BelowRuns(bw: nat, q: nat, r: nat)
    requires r < bw && (2 * q + 1 <= bw || (2 * q == bw && 2 * r < bw))
    ensures q * bw + r < Runs(bw)
  {
    RunsTwice(bw);
    if 2 * q == bw {
      assert 2 * (q * bw) == bw * bw;
    } else {
      Products(2 * q + 1, bw, bw);
      assert (2 * q + 1) * bw == 2 * (q * bw) + bw;
    }
  }

  lemma AboveRuns(bw: nat, q: nat, r: nat)
    requires r < bw && q * bw + r < Runs(bw)
    ensures 2 * q + 1 <= bw || (2 * q == bw && 2 * r < bw)
  {
    RunsTwice(bw);
    Doubled(q, bw);
    if 2 * q > bw {
      Products(bw, 2 * q, bw);
    }
  }

  /** Every run in the band has a value below N(N+1)/2. */
  lemma RivInRange(bw: nat, a: Allocation)
    requires Bandwidth(bw) && InBand(bw, a)
    ensures CalcRivByRb(bw, a) < Runs(bw)
  {
    RivParts(bw, a);
    var riv := CalcRivByRb(bw, a);
    BelowRuns(bw, riv / bw, riv % bw);
  }

  lemma RivInjective(bw: nat, a: Allocation, b: Allocation)
    requires Bandwidth(bw) && InBand(bw, a) && InBand(bw, b)
    requires CalcRivByRb(bw, a) == CalcRivByRb(bw, b)
    ensures a == b
  {
    RivParts(bw, a);
    RivParts(bw, b);
  }

  /** The run that has the value `riv`. */
  function RunOf(bw: nat, riv: nat): Allocation
    requires Bandwidth(bw) && riv < Runs(bw)
  {
    var q, r := riv / bw, riv % bw;
    if q + r < bw then Allocation(r, q + 1) else Allocation(bw - 1 - r, if q <= bw then bw - q + 1 else 0)
  }

  lemma RivSurjective(bw: nat, riv: nat)
    requires Bandwidth(bw) && riv < Runs(bw)
    ensures InBand(bw, RunOf(bw, riv)) && CalcRivByRb(bw, RunOf(bw, riv)) == riv
  {
    var q, r := riv / bw, riv % bw;
    assert riv == q * bw + r;
    AboveRuns(bw, q, r);
    var a := RunOf(bw, riv);
    RivParts(bw, a);
  }

  /**
    Decoding the value of a run gives the run back exactly when the run ends before the last
    resource block or has its value in the second form: for a run that reaches the end of the band
    in the first form, the test with `>=` differs from the standard.
   */
  lemma RivRoundTrip(bw: nat, a: Allocation)
    requires Bandwidth(bw) && InBand(bw, a)
    ensures CalcRbByRiv(bw, CalcRivByRb(bw, a)) == a <==> (a.rbStart + a.numOfRb < bw || a.numOfRb - 1 > bw / 2)
  {
    hide CalcRivByRb, CalcRbByRiv;
    RivParts(bw, a);
    var riv := CalcRivByRb(bw, a);
    RunBack(bw, a, riv / bw, riv % bw);
    Decoded(bw, riv, riv / bw, riv % bw);
  }

  lemma RunBack(bw: nat, a: Allocation, q: nat, r: nat)
    requires Bandwidth(bw) && InBand(bw, a)
    requires q == if a.numOfRb - 1 <= bw / 2 then a.numOfRb - 1 else bw - a.numOfRb + 1
    requires r == if a.numOfRb - 1 <= bw / 2 then a.rbStart else bw - 1 - a.rbStart
    ensures q < bw && r < bw
    ensures a == (if r + q + 1 < bw then Allocation(r, q + 1) else Allocation(bw - 1 - r, (bw - q + 1) % 256))
            <==> (a.rbStart + a.numOfRb < bw || a.numOfRb - 1 > bw / 2)
  {
  }

  /** What a value in the band decodes to, by its quotient and remainder. */
  lemma Decoded(bw: nat, riv: nat, q: nat, r: nat)
    requires Bandwidth(bw) && riv == q * bw + r && r < bw && q < bw
    ensures CalcRbByRiv(bw, riv) == if r + q + 1 < bw then Allocation(r, q + 1) else Allocation(bw - 1 - r, (bw - q + 1) % 256)
  {
    Squared(bw);
    DivMod(q, bw, r);
    Corrected(bw, riv, q, r);
    SmallRemainder(bw * bw + bw - 1 - riv, bw * bw + bw);
  }

  lemma SmallRemainder(x: nat, most: nat)
    requires x < most < UINT32
    ensures x % UINT32 == x
  {
  }

  lemma Squared(bw: nat)
    requires bw < 256
    ensures bw * bw < 65536
  {
    Products(bw, 256, bw);
  }

  lemma Corrected(bw: nat, riv: nat, q: nat, r: nat)
    requires riv == q * bw + r && r < bw && q <= bw
    ensures var rest := bw * bw + bw - 1 - riv;
            rest >= 0 && rest / bw == bw - q && rest % bw == bw - 1 - r
  {
    Products(q, bw, bw);
    assert (bw - q) * bw == bw * bw - q * bw;
    DivMod(bw - q, bw, bw - 1 - r);
  }

  // ----- Bit fields of a 32-bit word, most significant bit first -----

  /** GET_BITS_VAL_FROM_INT32 */
  function GetBits(word: nat, offset: nat, width: nat): nat
    requires offset <= 32
  {
    word / Pow2(32 - offset) % Pow2(width)
  }

  /** ADD_BITS_VAL_TO_INT32 */
  function AddBits(word: nat, value: nat, offset: nat, width: nat): nat
    requires offset <= 32
  {
    BitOr(word, value % Pow2(width) * Pow2(32 - offset))
  }

  datatype Field = Field(width: nat, value: nat)

  function Width(fields: seq<Field>): nat {
    if fields == [] then 0 else Width(fields[..|fields| - 1]) + fields[|fields| - 1].width
  }

  /** The word with all fields added, each right behind the one before. */
  function Pack(fields: seq<Field>): nat
    requires Width(fields) <= 32
  {
    if fields == [] then 0
    else
      var last := fields[|fields| - 1];
      AddBits(Pack(fields[..|fields| - 1]), last.value, Width(fields), last.width)
  }

  /** The fields as one number. */
  function Value(fields: seq<Field>): nat {
    if fields == [] then 0
    else
      var last := fields[|fields| - 1];
      Value(fields[..|fields| - 1]) * Pow2(last.width) + last.value % Pow2(last.width)
  }

  /** The word is the number the fields make, shifted to the top. */
  lemma {:induction false} PackIsValue(fields: seq<Field>)
    requires Width(fields) <= 32
    ensures Pack(fields) == Value(fields) * Pow2(32 - Width(fields))
    decreases |fields|
  {
    if fields != [] {
      var front, f := fields[..|fields| - 1], fields[|fields| - 1];
      PackIsValue(front);
      AddedIsSum(Value(front), f.value % Pow2(f.width), f.width, 32 - Width(fields));
    }
  }

  lemma {:induction false} WidthOfPrefix(fields: seq<Field>, i: nat)
    requires i <= |fields|
    ensures Width(fields[..i]) <= Width(fields)
    decreases |fields|
  {
    if i < |fields| {
      assert fields[..|fields| - 1][..i] == fields[..i];
      WidthOfPrefix(fields[..|fields| - 1], i);
    } else {
      assert fields[..i] == fields;
    }
  }

  /** Dropping the bits of the later fields leaves the number the earlier ones make. */
  lemma {:induction false} ValueOfPrefix(fields: seq<Field>, i: nat)
    requires i <= |fields|
    ensures Width(fields[..i]) <= Width(fields)
    ensures Value(fields) / Pow2(Width(fields) - Width(fields[..i])) == Value(fields[..i])
    decreases |fields|
  {
    WidthOfPrefix(fields, i);
    if i == |fields| {
      assert fields[..i] == fields;
    } else {
      var front, f := fields[..|fields| - 1], fields[|fields| - 1];
      assert front[..i] == fields[..i];
      WidthOfPrefix(front, i);
      ValueOfPrefix(front, i);
      DropTwice(Value(front), f.value % Pow2(f.width), f.width, Width(front) - Width(front[..i]));
    }
  }

  lemma DropTwice(v: nat, x: nat, w: nat, k: nat)
    requires x < Pow2(w)
    ensures (v * Pow2(w) + x) / Pow2(w + k) == v / Pow2(k)
  {
    Pow2Sum(w, k);
    DivTwice(v, x, Pow2(w), Pow2(k));
  }

  lemma DivTwice(v: nat, x: nat, p: nat, q: nat)
    requires x < p && q >= 1
    ensures p * q >= 1 && (v * p + x) / (p * q) == v / q
  {
    var a, r := v / q, v % q;
    assert v == a * q + r;
    Spread(a * q, r, p);
    Grouped(a, q, p);
    assert q * p == p * q;
    Products(r, q, p);
    DivMod(a, p * q, r * p + x);
  }

  /** Every field reads back as what was put in, cut to its width. */
  lemma ReadBack(fields: seq<Field>, i: nat)
    requires Width(fields) <= 32 && i < |fields|
    ensures Width(fields[..i + 1]) <= 32
    ensures GetBits(Pack(fields), Width(fields[..i + 1]), fields[i].width) == fields[i].value % Pow2(fields[i].width)
  {
    HighPart(fields, i + 1);
    LastOfValue(fields[..i + 1]);
  }

  lemma HighPart(fields: seq<Field>, i: nat)
    requires Width(fields) <= 32 && i <= |fields|
    ensures Width(fields[..i]) <= 32 && Pack(fields) / Pow2(32 - Width(fields[..i])) == Value(fields[..i])
  {
    hide *;
    WidthOfPrefix(fields, i);
    PackIsValue(fields);
    ValueOfPrefix(fields, i);
    Shifted(Pack(fields), Value(fields), 32 - Width(fields), Width(fields) - Width(fields[..i]));
  }

  lemma Shifted(word: nat, v: nat, w: nat, k: nat)
    requires word == v * Pow2(w)
    ensures word / Pow2(w + k) == v / Pow2(k)
  {
    DropTwice(v, 0, w, k);
  }

  lemma LastOfValue(fields: seq<Field>)
    requires fields != []
    ensures var f := fields[|fields| - 1]; Value(fields) % Pow2(f.width) == f.value % Pow2(f.width)
  {
    var front, f := fields[..|fields| - 1], fields[|fields| - 1];
    DivMod(Value(front), Pow2(f.width), f.value % Pow2(f.width));
  }

  // ----- DCI format 0 -----

  datatype UlDciMsg = UlDciMsg(freqEnabledFlag: nat, freqHoppingBits: nat, rbStart: nat, numOfRb: nat, mcs: nat, ndi: nat,
                               tpc: nat, cyclicShift2forDMRS: nat, ulIndexOrDAI: nat, cqiReq: nat)

  /** Bits of the resource indication; 0 for a bandwidth that is not an LTE bandwidth. */
  function RivBits(bw: nat): (n: nat)
    ensures n <= 13
  {
    match bw
    case 100 => 13
    case 75 => 12
    case 50 => 11
    case 25 => 9
    case 15 => 7
    case 6 => 5
    case _ => 0
  }

  /** How many of them carry the hopping bits when hopping is on. */
  function HopBits(bw: nat): nat {
    if bw >= 50 then 2 else 1
  }

  /** The message size the encoder reports. */
  function BitLength(bw: nat, tdd: bool): (n: nat)
    ensures n <= 32
  {
    match bw
    case 100 => if tdd then 31 else 28
    case 75 => if tdd then 30 else 27
    case 50 => if tdd then 29 else 27
    case 25 => if tdd then 27 else 25
    case 15 => if tdd then 25 else 22
    case 6 => if tdd then 23 else 21
    case _ => 0
  }

  function RivFields(bw: nat, m: UlDciMsg): seq<Field>
    requires Bandwidth(bw)
  {
    var riv := CalcRivByRb(bw, Allocation(m.rbStart, m.numOfRb));
    if RivBits(bw) == 0 then [Field(0, 0), Field(0, 0)]
    else if m.freqEnabledFlag == 0 then [Field(0, 0), Field(RivBits(bw), riv)]
    else [Field(HopBits(bw), m.freqHoppingBits), Field(RivBits(bw) - HopBits(bw), riv)]
  }

  /** The message as bit fields, the format flag first; a field that is left out has width 0. */
  function Fields(bw: nat, tdd: bool, m: UlDciMsg): seq<Field>
    requires Bandwidth(bw)
  {
    var r := RivFields(bw, m);
    [Field(1, 0), Field(1, m.freqEnabledFlag), r[0], r[1], Field(5, m.mcs), Field(1, m.ndi), Field(2, m.tpc),
     Field(3, m.cyclicShift2forDMRS), Field(if tdd then 2 else 0, m.ulIndexOrDAI), Field(1, m.cqiReq)]
  }

  lemma PackNext(fields: seq<Field>, i: nat)
    requires i < |fields|
    ensures Width(fields[..i + 1]) == Width(fields[..i]) + fields[i].width
    ensures Width(fields[..i + 1]) <= 32 ==>
              Pack(fields[..i + 1]) == AddBits(Pack(fields[..i]), fields[i].value, Width(fields[..i + 1]), fields[i].width)
  {
    assert fields[..i + 1][..i] == fields[..i];
  }

  /** Where the fields end. */
  lemma FieldOffsets(bw: nat, tdd: bool, m: UlDciMsg)
    requires Bandwidth(bw)
    ensures var fs, n := Fields(bw, tdd, m), RivBits(bw);
            && Width(fs[..1]) == 1 && Width(fs[..2]) == 2 && Width(fs[..3]) == 2 + fs[2].width && Width(fs[..4]) == 2 + n
            && Width(fs[..5]) == n + 7 && Width(fs[..6]) == n + 8 && Width(fs[..7]) == n + 10 && Width(fs[..8]) == n + 13
            && Width(fs[..9]) == n + (if tdd then 15 else 13) && Width(fs[..10]) == n + (if tdd then 16 else 14)
  {
    var fs := Fields(bw, tdd, m);
    hide Width, CalcRivByRb;
    EmptyWidth(fs);
    WidthNext(fs, 0);
    WidthNext(fs, 1);
    WidthNext(fs, 2);
    WidthNext(fs, 3);
    WidthNext(fs, 4);
    WidthNext(fs, 5);
    WidthNext(fs, 6);
    WidthNext(fs, 7);
    WidthNext(fs, 8);
    WidthNext(fs, 9);
  }

  lemma WidthNext(fields: seq<Field>, i: nat)
    requires i < |fields|
    ensures Width(fields[..i + 1]) == Width(fields[..i]) + fields[i].width
  {
    assert fields[..i + 1][..i] == fields[..i];
  }

  lemma EmptyWidth(fields: seq<Field>)
    ensures Width(fields[..0]) == 0 && Pack(fields[..0]) == 0
  {
  }

  /** The encoded message. */
  function EncodedDci0(bw: nat, tdd: bool, m: UlDciMsg): nat
    requires Bandwidth(bw)
  {
    var fs := Fields(bw, tdd, m);
    FieldOffsets(bw, tdd, m);
    assert fs[..10] == fs;
    Pack(fs)
  }

  /** One ADD_BITS_VAL_TO_INT32 with the offset moved first. */
  method AddField(word: nat, offset: nat, value: nat, width: nat, ghost fields: seq<Field>, ghost i: nat)
    returns (word': nat, offset': nat)
    requires i < |fields| && fields[i] == Field(width, value) && offset == Width(fields[..i]) && offset + width <= 32
    requires word == Pack(fields[..i])
    ensures offset' == Width(fields[..i + 1]) == offset + width && word' == Pack(fields[..i + 1])
  {
    PackNext(fields, i);
    offset' := offset + width;
    word' := AddBits(word, value, offset', width);
  }

  /** encodeDci0 with its out-parameters; the bit length is left as it is for an unknown bandwidth. */
  method EncodeDci0(bw: nat, tdd: bool, m: UlDciMsg, bitLength: nat) returns (dci0Data: nat, dci0BitLength: nat)
    requires Bandwidth(bw)
    ensures dci0Data == EncodedDci0(bw, tdd, m)
    ensures dci0BitLength == if RivBits(bw) > 0 then BitLength(bw, tdd) else bitLength
  {
    hide Pack, Width;
    ghost var fs := Fields(bw, tdd, m);
    FieldOffsets(bw, tdd, m);
    EmptyWidth(fs);
    PackFlag(fs);
    var offset := 1;
    dci0BitLength := bitLength;
    dci0Data, offset := AddField(0, offset, m.freqEnabledFlag, 1, fs, 1);
    var riv := CalcRivByRb(bw, Allocation(m.rbStart, m.numOfRb));
    if RivBits(bw) > 0 {
      dci0BitLength := BitLength(bw, tdd);
      if m.freqEnabledFlag == 0 {
        PackNothing(fs, 2);
        dci0Data, offset := AddField(dci0Data, offset, riv, RivBits(bw), fs, 3);
      } else {
        dci0Data, offset := AddField(dci0Data, offset, m.freqHoppingBits, HopBits(bw), fs, 2);
        dci0Data, offset := AddField(dci0Data, offset, riv, RivBits(bw) - HopBits(bw), fs, 3);
      }
    } else {
      PackNothing(fs, 2);
      PackNothing(fs, 3);
    }
    dci0Data, offset := AddField(dci0Data, offset, m.mcs, 5, fs, 4);
    dci0Data, offset := AddField(dci0Data, offset, m.ndi, 1, fs, 5);
    dci0Data, offset := AddField(dci0Data, offset, m.tpc, 2, fs, 6);
    dci0Data, offset := AddField(dci0Data, offset, m.cyclicShift2forDMRS, 3, fs, 7);
    if tdd {
      dci0Data, offset := AddField(dci0Data, offset, m.ulIndexOrDAI, 2, fs, 8);
    } else {
      PackNothing(fs, 8);
    }
    dci0Data, offset := AddField(dci0Data, offset, m.cqiReq, 1, fs, 9);
    assert fs[..10] == fs;
  }

  /** The format flag is 0 and needs no adding. */
  lemma PackFlag(fields: seq<Field>)
    requires |fields| > 0 && fields[0] == Field(1, 0)
    ensures Width(fields[..1]) == 1 && Pack(fields[..1]) == 0
  {
    assert fields[..1] == [Field(1, 0)];
    assert Pack(fields[..1][..0]) == 0;
  }

  /** A field of width 0 leaves no trace. */
  lemma PackNothing(fields: seq<Field>, i: nat)
    requires i < |fields| && fields[i].width == 0 && Width(fields[..i]) <= 32
    ensures Width(fields[..i + 1]) == Width(fields[..i]) && Pack(fields[..i + 1]) == Pack(fields[..i])
  {
    PackNext(fields, i);
    assert fields[i].value % Pow2(0) == 0;
    OrNothing(Pack(fields[..i]));
  }

  lemma OrNothing(a: nat)
    ensures BitOr(a, 0) == a
  {
  }

  /** decodeDci0 on the message `old`; a word of another format changes nothing. */
  function DecodedDci0(bw: nat, tdd: bool, word: nat, before: UlDciMsg): UlDciMsg
    requires Bandwidth(bw)
  {
    if GetBits(word, 1, 1) != 0 then before
    else
      var n, h, hopping := RivBits(bw), HopBits(bw), GetBits(word, 2, 1) != 0;
      var riv := if n == 0 then 0 else GetBits(word, 2 + n, if hopping then n - h else n);
      var a := CalcRbByRiv(bw, riv);
      var last := n + if tdd then 15 else 13;
      UlDciMsg(GetBits(word, 2, 1), if hopping && n > 0 then GetBits(word, 2 + h, h) else before.freqHoppingBits,
               a.rbStart, a.numOfRb, GetBits(word, n + 7, 5), GetBits(word, n + 8, 1), GetBits(word, n + 10, 2),
               GetBits(word, n + 13, 3), if tdd then GetBits(word, last, 2) else before.ulIndexOrDAI,
               GetBits(word, last + 1, 1))
  }

  /** decodeDci0, field by field with the running offset. */
  method DecodeDci0(bw: nat, tdd: bool, word: nat, before: UlDciMsg) returns (m: UlDciMsg)
    requires Bandwidth(bw)
    ensures m == DecodedDci0(bw, tdd, word, before)
  {
    hide GetBits, CalcRbByRiv;
    m := before;
    var offset, riv := 1, 0;
    if GetBits(word, offset, 1) != 0 {
      return;
    }
    offset := offset + 1;
    m := m.(freqEnabledFlag := GetBits(word, offset, 1));
    var n, h := RivBits(bw), HopBits(bw);
    if n > 0 {
      if m.freqEnabledFlag == 0 {
        offset := offset + n;
        riv := GetBits(word, offset, n);
      } else {
        offset := offset + h;
        m := m.(freqHoppingBits := GetBits(word, offset, h));
        offset := offset + (n - h);
        riv := GetBits(word, offset, n - h);
      }
    }
    var rbStart, numOfRb := CalcRbByRivInPlace(bw, riv);
    m := m.(rbStart := rbStart, numOfRb := numOfRb);
    offset := offset + 5;
    m := m.(mcs := GetBits(word, offset, 5));
    offset := offset + 1;
    m := m.(ndi := GetBits(word, offset, 1));
    offset := offset + 2;
    m := m.(tpc := GetBits(word, offset, 2));
    offset := offset + 3;
    m := m.(cyclicShift2forDMRS := GetBits(word, offset, 3));
    if tdd {
      offset := offset + 2;
      m := m.(ulIndexOrDAI := GetBits(word, offset, 2));
    }
    offset := offset + 1;
    m := m.(cqiReq := GetBits(word, offset, 1));
  }

  /** Every field fits its width, and the resource indication the bits that hopping leaves for it. */
  predicate Fits(bw: nat, tdd: bool, m: UlDciMsg)
    requires Bandwidth(bw)
  {
    && RivBits(bw) > 0 && InBand(bw, Allocation(m.rbStart, m.numOfRb))
    && forall i :: 0 <= i < 10 && (tdd || i != 8) && (m.freqEnabledFlag != 0 || i != 2) ==>
         Fields(bw, tdd, m)[i].value < Pow2(Fields(bw, tdd, m)[i].width)
  }

  lemma FitsInBand(bw: nat, tdd: bool, m: UlDciMsg)
    requires Bandwidth(bw) && Fits(bw, tdd, m)
    ensures RivBits(bw) > 0 && InBand(bw, Allocation(m.rbStart, m.numOfRb))
  {
  }

  /** What the encoding keeps of a message: not the hopping bits without hopping, nor the TDD field in FDD. */
  function Kept(tdd: bool, m: UlDciMsg, before: UlDciMsg): UlDciMsg {
    m.(freqHoppingBits := if m.freqEnabledFlag != 0 then m.freqHoppingBits else before.freqHoppingBits,
       ulIndexOrDAI := if tdd then m.ulIndexOrDAI else before.ulIndexOrDAI)
  }

  lemma Small(v: nat, p: nat)
    requires v < p
    ensures v % p == v
  {
  }

  /** Each field of an encoded message that fits reads back. */
  lemma FieldReadsBack(bw: nat, tdd: bool, m: UlDciMsg, i: nat)
    requires Bandwidth(bw) && Fits(bw, tdd, m) && i < 10 && (tdd || i != 8) && (m.freqEnabledFlag != 0 || i != 2)
    ensures var fs := Fields(bw, tdd, m);
            && Width(fs[..i + 1]) <= 32
            && GetBits(EncodedDci0(bw, tdd, m), Width(fs[..i + 1]), fs[i].width) == fs[i].value
  {
    var fs := Fields(bw, tdd, m);
    FieldOffsets(bw, tdd, m);
    assert fs[..10] == fs;
    ReadBack(fs, i);
    Small(fs[i].value, Pow2(fs[i].width));
  }

  /**
    Decoding an encoded message gives the message back, for every LTE bandwidth, in FDD and TDD and
    with and without hopping, exactly when its allocation survives calcRbByRiv (RivRoundTrip).
   */
  lemma DciRoundTrip(bw: nat, tdd: bool, m: UlDciMsg, before: UlDciMsg)
    requires Bandwidth(bw) && Fits(bw, tdd, m)
    ensures DecodedDci0(bw, tdd, EncodedDci0(bw, tdd, m), before) == Kept(tdd, m, before)
            <==> (m.rbStart + m.numOfRb < bw || m.numOfRb - 1 > bw / 2)
  {
    hide GetBits, Width, Pack, EncodedDci0, Fits, CalcRivByRb, CalcRbByRiv;
    FitsInBand(bw, tdd, m);
    FieldOffsets(bw, tdd, m);
    FieldReadsBack(bw, tdd, m, 0);
    FieldReadsBack(bw, tdd, m, 1);
    if m.freqEnabledFlag != 0 { FieldReadsBack(bw, tdd, m, 2); }
    FieldReadsBack(bw, tdd, m, 3);
    FieldReadsBack(bw, tdd, m, 4);
    FieldReadsBack(bw, tdd, m, 5);
    FieldReadsBack(bw, tdd, m, 6);
    FieldReadsBack(bw, tdd, m, 7);
    if tdd { FieldReadsBack(bw, tdd, m, 8); }
    FieldReadsBack(bw, tdd, m, 9);
    RivRoundTrip(bw, Allocation(m.rbStart, m.numOfRb));
  }

  /** Without hopping every run in the band fits the resource indication. */
  lemma UnhoppedFits(bw: nat, a: Allocation)
    requires RivBits(bw) > 0 && InBand(bw, a)
    ensures CalcRivByRb(bw, a) < Pow2(RivBits(bw))
  {
    RivInRange(bw, a);
    assert Pow2(5) == 32 && Pow2(7) == 128 && Pow2(9) == 512 && Pow2(11) == 2048;
    assert Pow2(12) == 4096 && Pow2(13) == 8192;
  }

  /** No bit is set beyond the reported length. */
  lemma NothingBeyond(bw: nat, tdd: bool, m: UlDciMsg)
    requires Bandwidth(bw) && RivBits(bw) > 0
    ensures EncodedDci0(bw, tdd, m) % Pow2(32 - BitLength(bw, tdd)) == 0
  {
    var fs := Fields(bw, tdd, m);
    FieldOffsets(bw, tdd, m);
    assert fs[..10] == fs;
    PackIsValue(fs);
    var unused, spare := 32 - Width(fs), 32 - BitLength(bw, tdd);
    Multiple(Value(fs), unused - spare, spare);
  }

  lemma Multiple(v: nat, a: nat, b: nat)
    ensures v * Pow2(a + b) % Pow2(b) == 0
  {
    Pow2Sum(a, b);
    Grouped(v, Pow2(a), Pow2(b));
    DivMod(v * Pow2(a), Pow2(b), 0);
  }
}
