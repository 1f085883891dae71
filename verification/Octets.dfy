/**
 Numbers in memory: host byte order, `swap_endian`, and the network order it yields.
 */
module Octets {

  type Byte = b: int | 0 <= b < 256

  /** Byte order of the host. */
  datatype Order = Little | Big

  function Reverse(s: seq<Byte>): seq<Byte> {
    seq(|s|, i requires 0 <= i < |s| => s[|s| - 1 - i])
  }

  function Limit(n: nat): nat { if n == 0 then 1 else 256 * Limit(n - 1) }

  function LittleBytes(n: nat, v: nat): seq<Byte> {
    if n == 0 then [] else [v % 256] + LittleBytes(n - 1, v / 256)
  }

  function LittleValue(bytes: seq<Byte>): nat {
    if bytes == [] then 0 else bytes[0] + 256 * LittleValue(bytes[1..])
  }

  /** The `n` bytes of the unsigned number `v` in the memory of the host. */
  function Bytes(o: Order, n: nat, v: nat): seq<Byte> {
    if o.Little? then LittleBytes(n, v) else Reverse(LittleBytes(n, v))
  }

  /** The unsigned number the host reads from `bytes`. */
  function Value(o: Order, bytes: seq<Byte>): nat {
    LittleValue(if o.Little? then bytes else Reverse(bytes))
  }

  lemma ReverseReverse(s: seq<Byte>)
    ensures |Reverse(s)| == |s| && Reverse(Reverse(s)) == s
  {
    assert forall i :: 0 <= i < |s| ==> Reverse(Reverse(s))[i] == s[i];
  }

  lemma {:induction false} LittleRoundTrip(n: nat, v: nat)
    requires v < Limit(n)
    ensures |LittleBytes(n, v)| == n && LittleValue(LittleBytes(n, v)) == v
  {
    if n > 0 {
      LittleRoundTrip(n - 1, v / 256);
      assert LittleBytes(n, v)[1..] == LittleBytes(n - 1, v / 256);
    }
  }

  lemma {:induction false} LittleReadBack(bytes: seq<Byte>)
    ensures LittleValue(bytes) < Limit(|bytes|)
    ensures LittleBytes(|bytes|, LittleValue(bytes)) == bytes
  {
    if bytes != [] {
      LittleReadBack(bytes[1..]);
      var rest := LittleValue(bytes[1..]);
      assert (bytes[0] + 256 * rest) / 256 == rest;
    }
  }

  /** Storing a number and reading it back, in either byte order. */
  lemma RoundTrip(o: Order, n: nat, v: nat)
    requires v < Limit(n)
    ensures |Bytes(o, n, v)| == n && Value(o, Bytes(o, n, v)) == v
  {
    LittleRoundTrip(n, v);
    ReverseReverse(LittleBytes(n, v));
  }

  lemma ReadBack(o: Order, bytes: seq<Byte>)
    ensures Value(o, bytes) < Limit(|bytes|)
    ensures Bytes(o, |bytes|, Value(o, bytes)) == bytes
  {
    ReverseReverse(bytes);
    LittleReadBack(if o.Little? then bytes else Reverse(bytes));
  }

  // ----- swap_endian -----

  /** What `swap_endian` of an `n`-byte number returns on a host of order `o`. */
  function Swapped(o: Order, n: nat, v: nat): nat { Value(o, Reverse(Bytes(o, n, v))) }

  method SwapEndian(o: Order, n: nat, u: nat) returns (r: nat)
    requires u < Limit(n)
    ensures r == Swapped(o, n, u)
  {
    var source := Bytes(o, n, u);
    RoundTrip(o, n, u);
    var dest := new Byte[n];
    for k := 0 to n
      invariant forall j :: 0 <= j < k ==> dest[j] == source[n - 1 - j]
    {
      dest[k] := source[n - k - 1];
    }
    assert dest[..] == Reverse(source);
    r := Value(o, dest[..]);
  }

  /** `swap_endian` undoes itself, its result has the bytes reversed in memory, and it
      is the same function of the number on hosts of both byte orders. On a little
      endian host the reversed bytes are the number in network order. */
  lemma SwapInverts(o: Order, n: nat, v: nat)
    requires v < Limit(n)
    ensures Swapped(o, n, v) < Limit(n)
    ensures Swapped(o, n, Swapped(o, n, v)) == v
    ensures Bytes(o, n, Swapped(o, n, v)) == Reverse(Bytes(o, n, v))
    ensures Swapped(Little, n, v) == Swapped(Big, n, v)
    ensures Bytes(Little, n, Swapped(Little, n, v)) == Bytes(Big, n, v)
  {
    RoundTrip(o, n, v);
    RoundTrip(Little, n, v);
    ReverseReverse(LittleBytes(n, v));
    ReverseReverse(Bytes(o, n, v));
    ReadBack(o, Reverse(Bytes(o, n, v)));
    ReadBack(Little, Reverse(Bytes(Little, n, v)));
  }
}
