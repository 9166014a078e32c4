/**
  A codec of the kind the JSON model asks for: each double is written as the decimal number its bits
  make.  It shows that JsonValue.CodecOk can be met.
 */
module JsonCodec {
  import opened Bytes
  import opened JsonText
  import opened JsonValue

  function Digits(n: nat): (r: seq<byte>)
    ensures r != [] && forall i :: 0 <= i < |r| ==> IsDigit(r[i])
  {
    if n < 10 then [48 + n] else Digits(n / 10) + [48 + n % 10]
  }

  function Decimal(t: seq<byte>): nat
    requires forall i :: 0 <= i < |t| ==> IsDigit(t[i])
  {
    if t == [] then 0
    else
      assert IsDigit(t[|t| - 1]);
      var last: nat := t[|t| - 1];
      Decimal(t[..|t| - 1]) * 10 + (last - 48)
  }

  predicate AllDigits(t: seq<byte>) {
    t != [] && forall i :: 0 <= i < |t| ==> IsDigit(t[i])
  }

  function ReadDecimal(t: seq<byte>): Option<Read<Number>> {
    if AllDigits(t) && Decimal(t) < 0x1_0000_0000_0000_0000 then
      var n: Number := Decimal(t);
      Some(Read(n, |t|))
    else None
  }

  function DecimalCodec(): Codec {
    Codec((n: Number) => Digits(n), (t: seq<byte>) => ReadDecimal(t))
  }

  lemma {:induction false} DecimalInverts(n: nat)
    ensures Decimal(Digits(n)) == n
  {
    if n >= 10 {
      DecimalInverts(n / 10);
      assert Digits(n)[..|Digits(n)| - 1] == Digits(n / 10);
    } else {
      assert Digits(n)[..0] == [];
    }
  }

  function Pow10(k: nat): nat {
    if k == 0 then 1 else 10 * Pow10(k - 1)
  }

  lemma {:induction false} DigitsFit(n: nat, k: nat)
    requires n < Pow10(k) && k >= 1
    ensures |Digits(n)| <= k
    decreases k
  {
    if n >= 10 { DigitsFit(n / 10, k - 1); }
  }

  lemma TwentyDigits()
    ensures Pow10(20) == 100_000_000_000_000_000_000
  {
    assert Pow10(5) == 100_000;
    assert Pow10(10) == 100_000 * Pow10(5);
    assert Pow10(15) == 100_000 * Pow10(10);
    assert Pow10(20) == 100_000 * Pow10(15);
  }

  /** The hypothesis of the round trip and of the printer holds of this codec. */
  lemma CodecExists()
    ensures CodecOk(DecimalCodec())
  {
    var cd := DecimalCodec();
    forall n: Number | IsFinite(n)
      ensures && 1 <= |cd.show(n)| <= 25
              && (cd.show(n)[0] == 45 || IsDigit(cd.show(n)[0]))
              && (forall i :: 0 <= i < |cd.show(n)| ==> NumberByte(cd.show(n)[i]))
              && cd.read(cd.show(n)) == Some(Read(n, |cd.show(n)|))
    {
      TwentyDigits();
      DigitsFit(n, 20);
      DecimalInverts(n);
    }
  }
}
