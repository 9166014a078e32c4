/** Octets and the few sequence notions every other module of the model shares. */
module Bytes {

  type byte = b: int | 0 <= b < 256

  datatype Option<+T> = None | Some(value: T)

  /** The concatenation of a list of octet strings. */
  function Flatten(parts: seq<seq<byte>>): seq<byte> {
    if parts == [] then [] else parts[0] + Flatten(parts[1..])
  }

  function Sum(ns: seq<nat>): nat {
    if ns == [] then 0 else ns[0] + Sum(ns[1..])
  }

  /** What memcpy leaves behind when it writes `src` into `dst` at offset `at`. */
  function Splice(dst: seq<byte>, at: nat, src: seq<byte>): (r: seq<byte>)
    requires at + |src| <= |dst|
    ensures |r| == |dst|
  {
    dst[..at] + src + dst[at + |src|..]
  }

  function Zeros(n: nat): (r: seq<byte>)
    ensures |r| == n && forall i :: 0 <= i < n ==> r[i] == 0
  {
    seq(n, _ => 0)
  }

  /** `part` stands in `mem` at position `at`. */
  predicate Stands(mem: seq<byte>, at: nat, part: seq<byte>) {
    at + |part| <= |mem| && mem[at..at + |part|] == part
  }

  lemma StandsSplit(mem: seq<byte>, at: nat, a: seq<byte>, b: seq<byte>)
    requires Stands(mem, at, a + b)
    ensures Stands(mem, at, a) && Stands(mem, at + |a|, b)
  {
    assert (a + b)[..|a|] == a && (a + b)[|a|..] == b;
    assert mem[at..at + |a|] == mem[at..at + |a + b|][..|a|];
    assert mem[at + |a|..at + |a| + |b|] == mem[at..at + |a + b|][|a|..];
  }
}
