/**
 The Internet checksum as `in_cksum` computes it, 32-bit accumulation and two folds,
 against the word-by-word end-around-carry sum of section 1 of RFC 1071.
 */
module Checksum {
  import opened Octets

  function WordOf(o: Order, b0: Byte, b1: Byte): int {
    if o.Little? then b0 + 256 * b1 else 256 * b0 + b1
  }

  /** The 16-bit words of a buffer; a last odd byte is the first byte of a word. */
  function Words(o: Order, bytes: seq<Byte>): seq<int>
  {
    if |bytes| == 0 then []
    else if |bytes| == 1 then [WordOf(o, bytes[0], 0)]
    else [WordOf(o, bytes[0], bytes[1])] + Words(o, bytes[2..])
  }

  function Sum(ws: seq<int>): int {
    if ws == [] then 0 else ws[0] + Sum(ws[1..])
  }

  // ----- the standard's sum -----

  /** One's complement addition of 16-bit numbers: the carry goes around. */
  function AddCarry(a: int, b: int): int {
    if a + b >= 0x1_0000 then a + b - 0x1_0000 + 1 else a + b
  }

  function CarrySum(ws: seq<int>): int {
    if ws == [] then 0 else AddCarry(CarrySum(ws[..|ws| - 1]), ws[|ws| - 1])
  }

  /** The checksum of the standard: the complement of the one's complement sum. */
  function Rfc1071(o: Order, bytes: seq<Byte>): (r: int)
    ensures 0 <= r <= 0xFFFF
  {
    WordsShape(o, bytes);
    CarrySumIsCanon(Words(o, bytes));
    0xFFFF - CarrySum(Words(o, bytes))
  }

  // ----- the program's sum -----

  /** The two folds of the 32-bit accumulator, and the complement cut to 16 bits. */
  function Folded(sum: int): int
    requires 0 <= sum < 0x1_0000_0000
  {
    var once := sum / 0x1_0000 + sum % 0x1_0000;
    var twice := Add32(once, once / 0x1_0000);
    0xFFFF - twice % 0x1_0000
  }

  /** `uint32_t` addition. */
  function Add32(a: int, b: int): (r: int)
    ensures 0 <= r < 0x1_0000_0000
  {
    (a + b) % 0x1_0000_0000
  }

  lemma Add32Wraps(total: int, w: int)
    ensures Add32(total % 0x1_0000_0000, w) == (total + w) % 0x1_0000_0000
  {
  }

  /** What the accumulator holds after a whole buffer. */
  function Accumulated(o: Order, bytes: seq<Byte>): (r: int)
    ensures 0 <= r < 0x1_0000_0000
  {
    Sum(Words(o, bytes)) % 0x1_0000_0000
  }

  /** The buffer from `w` on starts with one more word. */
  lemma NextWord(o: Order, bytes: seq<Byte>, w: nat)
    requires w + 1 < |bytes|
    ensures Sum(Words(o, bytes[w..])) == WordOf(o, bytes[w], bytes[w + 1]) + Sum(Words(o, bytes[w + 2..]))
  {
    assert bytes[w..][0] == bytes[w] && bytes[w..][1] == bytes[w + 1] && bytes[w..][2..] == bytes[w + 2..];
    SumCons(WordOf(o, bytes[w], bytes[w + 1]), Words(o, bytes[w + 2..]));
  }

  lemma LastByte(o: Order, bytes: seq<Byte>, w: nat)
    requires w <= |bytes| <= w + 1
    ensures Sum(Words(o, bytes[w..])) == if w < |bytes| then WordOf(o, bytes[w], 0) else 0
  {
    if w < |bytes| {
      assert bytes[w..] == [bytes[w]];
      SumCons(WordOf(o, bytes[w], 0), []);
      assert [WordOf(o, bytes[w], 0)] + [] == [WordOf(o, bytes[w], 0)];
    } else {
      assert bytes[w..] == [];
    }
  }

  /** The accumulation of `in_cksum` over `bytes`, two bytes at a time. */
  method Accumulate(o: Order, addr: array<Byte>, len: int) returns (sum: int)
    requires len <= addr.Length
    ensures sum == Accumulated(o, addr[..if len > 0 then len else 0])
  {
    ghost var bytes := addr[..if len > 0 then len else 0];
    ghost var total := 0;
    var nleft, w := len, 0;
    sum := 0;
    assert bytes[0..] == bytes;
    while nleft > 1
      invariant 0 <= w <= |bytes| && (w > 0 ==> len >= 0)
      invariant if len >= 0 then w + nleft == len == |bytes| else nleft == len && bytes == []
      invariant sum == total % 0x1_0000_0000
      invariant total + Sum(Words(o, bytes[w..])) == Sum(Words(o, bytes))
    {
      var word := WordOf(o, addr[w], addr[w + 1]);
      NextWord(o, bytes, w);
      Add32Wraps(total, word);
      sum := Add32(sum, word);
      total := total + word;
      w := w + 2;
      nleft := nleft - 2;
    }
    LastByte(o, bytes, w);
    if nleft == 1 {
      Add32Wraps(total, WordOf(o, addr[w], 0));
      sum := Add32(sum, WordOf(o, addr[w], 0));
    }
  }

  /** `in_cksum` over the first `len` bytes of a buffer. */
  method InCksum(o: Order, addr: array<Byte>, len: int) returns (answer: int)
    requires len <= addr.Length
    ensures answer == Folded(Accumulated(o, addr[..if len > 0 then len else 0]))
    ensures len <= 131074 ==> answer == Rfc1071(o, addr[..if len > 0 then len else 0])
  {
    var sum := Accumulate(o, addr, len);
    sum := sum / 0x1_0000 + sum % 0x1_0000;
    sum := Add32(sum, sum / 0x1_0000);
    answer := 0xFFFF - sum % 0x1_0000;
    if len <= 131074 {
      InCksumIsRfc1071(o, addr[..if len > 0 then len else 0]);
    }
  }

  lemma SumCons(w: int, ws: seq<int>)
    ensures Sum([w] + ws) == w + Sum(ws)
  {
    assert ([w] + ws)[1..] == ws;
  }

  // ----- both sums are the residue modulo 65535, with 0 kept for 0 -----

  /** The one's complement value of a sum: 0 for 0, else its residue in 1..65535. */
  function Canon(n: int): int
    requires n >= 0
  {
    if n == 0 then 0 else (n - 1) % 0xFFFF + 1
  }

  lemma CanonAdd(n: int, w: int)
    requires n >= 0 && 0 <= w <= 0xFFFF
    ensures AddCarry(Canon(n), w) == Canon(n + w)
  {
    if n > 0 {
      var q := (n - 1) / 0xFFFF;
      var c := Canon(n);
      assert n == 0xFFFF * q + c && 1 <= c <= 0xFFFF;
      CanonIs(n + w, if c + w > 0xFFFF then q + 1 else q, AddCarry(c, w));
    } else if w > 0 {
      CanonIs(w, 0, w);
    }
  }

  lemma CanonIs(n: int, q: int, c: int)
    requires n == 0xFFFF * q + c && 1 <= c <= 0xFFFF && q >= 0
    ensures Canon(n) == c
  {
    assert (0xFFFF * q + (c - 1)) % 0xFFFF == c - 1;
  }

  ghost predicate Are16Bit(ws: seq<int>) {
    forall i :: 0 <= i < |ws| ==> 0 <= ws[i] <= 0xFFFF
  }

  lemma {:induction false} SumLast(ws: seq<int>)
    requires ws != []
    ensures Sum(ws) == Sum(ws[..|ws| - 1]) + ws[|ws| - 1]
  {
    if |ws| > 1 {
      SumLast(ws[1..]);
      assert ws[1..][..|ws| - 2] == ws[..|ws| - 1][1..];
    } else {
      assert ws[1..] == [] && ws[..0] == [];
    }
  }

  lemma {:induction false} CarrySumIsCanon(ws: seq<int>)
    requires Are16Bit(ws)
    ensures 0 <= Sum(ws) <= 0xFFFF * |ws|
    ensures CarrySum(ws) == Canon(Sum(ws))
  {
    if ws != [] {
      var front := ws[..|ws| - 1];
      CarrySumIsCanon(front);
      SumLast(ws);
      CanonAdd(Sum(front), ws[|ws| - 1]);
    }
  }

  lemma FoldedIsCanon(sum: int)
    requires 0 <= sum < 0x1_0000_0000
    ensures Folded(sum) == 0xFFFF - Canon(sum)
  {
    var hi, lo := sum / 0x1_0000, sum % 0x1_0000;
    var once := hi + lo;
    assert sum == 0xFFFF * hi + once;
    if once == 0 {
    } else if once < 0x1_0000 {
      CanonIs(sum, hi, once);
    } else {
      var twice := once + once / 0x1_0000;
      assert once / 0x1_0000 == 1;
      CanonIs(sum, hi + 1, once - 0xFFFF);
      assert twice % 0x1_0000 == once - 0xFFFF;
    }
  }

  lemma {:induction false} WordsShape(o: Order, bytes: seq<Byte>)
    ensures |Words(o, bytes)| == (|bytes| + 1) / 2
    ensures Are16Bit(Words(o, bytes))
    ensures forall i :: 0 <= i < |Words(o, bytes)| ==>
              Words(o, bytes)[i] == WordOf(o, bytes[2 * i], if 2 * i + 1 < |bytes| then bytes[2 * i + 1] else 0)
    decreases |bytes|
  {
    if |bytes| >= 2 {
      WordsShape(o, bytes[2..]);
    }
  }

  lemma SumBound(o: Order, bytes: seq<Byte>)
    requires |bytes| <= 131074
    ensures 0 <= Sum(Words(o, bytes)) < 0x1_0000_0000
    ensures CarrySum(Words(o, bytes)) == Canon(Sum(Words(o, bytes)))
  {
    WordsShape(o, bytes);
    var ws := Words(o, bytes);
    assert |ws| <= 65537;
    CarrySumIsCanon(ws);
  }

  lemma FitsIn32(n: int)
    requires 0 <= n < 0x1_0000_0000
    ensures n % 0x1_0000_0000 == n
  {
  }

  /** For every buffer of at most 131074 bytes, odd lengths included, the accumulator
      does not overflow and the result is the checksum of the standard. */
  lemma InCksumIsRfc1071(o: Order, bytes: seq<Byte>)
    requires |bytes| <= 131074
    ensures Accumulated(o, bytes) == Sum(Words(o, bytes))
    ensures Folded(Accumulated(o, bytes)) == Rfc1071(o, bytes)
  {
    SumBound(o, bytes);
    var sum := Sum(Words(o, bytes));
    FitsIn32(sum);
    FoldedIsCanon(sum);
  }

  // ----- a packet with its checksum stored checks to zero -----

  lemma {:induction false} SumUpdate(ws: seq<int>, k: nat, v: int)
    requires k < |ws|
    ensures Sum(ws[k := v]) == Sum(ws) - ws[k] + v
  {
    var ws' := ws[k := v];
    if k == 0 {
      assert ws'[1..] == ws[1..];
    } else {
      assert ws'[1..] == ws[1..][k - 1 := v];
      SumUpdate(ws[1..], k - 1, v);
    }
  }

  /** Storing the complement of the sum in a word that was 0 makes the sum all ones. */
  lemma StoredSumVerifies(ws: seq<int>, k: nat)
    requires Are16Bit(ws) && k < |ws| && ws[k] == 0
    ensures CarrySum(ws[k := 0xFFFF - CarrySum(ws)]) == 0xFFFF
  {
    CarrySumIsCanon(ws);
    var n := Sum(ws);
    var c := 0xFFFF - Canon(n);
    var ws' := ws[k := c];
    assert Are16Bit(ws');
    SumUpdate(ws, k, c);
    CarrySumIsCanon(ws');
    if n == 0 {
      CanonIs(0xFFFF, 0, 0xFFFF);
    } else {
      var q := (n - 1) / 0xFFFF;
      assert n == 0xFFFF * q + Canon(n);
      CanonIs(n + c, q, 0xFFFF);
    }
  }

  /** A 16-bit value stored in host order at byte offset 2k. */
  function StoreWord(o: Order, bytes: seq<Byte>, k: nat, v: int): seq<Byte>
    requires 2 * k + 1 < |bytes| && 0 <= v <= 0xFFFF
  {
    var lo: Byte, hi: Byte := v % 256, v / 256;
    if o.Little? then bytes[2 * k := lo][2 * k + 1 := hi] else bytes[2 * k := hi][2 * k + 1 := lo]
  }

  lemma StoredWord(o: Order, bytes: seq<Byte>, k: nat, v: int)
    requires 2 * k + 1 < |bytes| && 0 <= v <= 0xFFFF
    ensures k < |Words(o, bytes)|
    ensures Words(o, StoreWord(o, bytes, k, v)) == Words(o, bytes)[k := v]
  {
    var bytes' := StoreWord(o, bytes, k, v);
    var ws, ws' := Words(o, bytes), Words(o, bytes');
    WordsShape(o, bytes);
    WordsShape(o, bytes');
    assert WordOf(o, bytes'[2 * k], bytes'[2 * k + 1]) == v;
    forall i | 0 <= i < |ws|
      ensures ws'[i] == ws[k := v][i]
    {
      if i != k {
        assert bytes'[2 * i] == bytes[2 * i];
      }
    }
  }

  /** A packet whose checksum field was 0 while the checksum was computed, and holds it
      afterwards, checks to 0. */
  lemma PacketVerifies(o: Order, bytes: seq<Byte>, k: nat)
    requires |bytes| <= 131074 && 2 * k + 1 < |bytes|
    requires bytes[2 * k] == 0 && bytes[2 * k + 1] == 0
    ensures Rfc1071(o, StoreWord(o, bytes, k, Rfc1071(o, bytes))) == 0
  {
    var ws := Words(o, bytes);
    WordsShape(o, bytes);
    CarrySumIsCanon(ws);
    StoredWord(o, bytes, k, Rfc1071(o, bytes));
    StoredSumVerifies(ws, k);
  }

  /** An odd byte at the end counts as if a zero byte followed it. */
  lemma {:induction false} OddPadded(o: Order, bytes: seq<Byte>)
    requires |bytes| % 2 == 1
    ensures Words(o, bytes) == Words(o, bytes + [0])
    ensures Rfc1071(o, bytes) == Rfc1071(o, bytes + [0])
  {
    if |bytes| > 1 {
      OddPadded(o, bytes[2..]);
      assert (bytes + [0])[2..] == bytes[2..] + [0];
    } else {
      assert (bytes + [0])[2..] == [];
    }
  }

  // ----- byte order (section 2 of RFC 1071) -----

  function Swap16(v: int): int
    requires 0 <= v <= 0xFFFF
  {
    256 * (v % 256) + v / 256
  }

  /** The sum of the second bytes of the words. */
  function SecondBytes(bytes: seq<Byte>): int {
    if |bytes| < 2 then 0 else bytes[1] as int + SecondBytes(bytes[2..])
  }

  lemma OtherOrderWord(b0: int, b1: int)
    requires 0 <= b0 < 256 && 0 <= b1 < 256
    ensures 256 * WordOf(Little, b0, b1) == WordOf(Big, b0, b1) + 0xFFFF * b1
  {
  }

  /** Summing in the other byte order multiplies every word by 256 modulo 65535. */
  lemma {:induction false} OtherOrderSum(bytes: seq<Byte>)
    ensures 256 * Sum(Words(Little, bytes)) == Sum(Words(Big, bytes)) + 0xFFFF * SecondBytes(bytes)
    ensures Sum(Words(Big, bytes)) >= 0 && Sum(Words(Little, bytes)) >= 0
    ensures Sum(Words(Little, bytes)) == 0 <==> Sum(Words(Big, bytes)) == 0
    decreases |bytes|
  {
    if |bytes| == 1 {
      OtherOrderWord(bytes[0], 0);
      SumCons(WordOf(Little, bytes[0], 0), []);
      SumCons(WordOf(Big, bytes[0], 0), []);
      assert [WordOf(Little, bytes[0], 0)] + [] == Words(Little, bytes);
      assert [WordOf(Big, bytes[0], 0)] + [] == Words(Big, bytes);
    } else if |bytes| > 1 {
      OtherOrderSum(bytes[2..]);
      OtherOrderWord(bytes[0], bytes[1]);
      SumCons(WordOf(Little, bytes[0], bytes[1]), Words(Little, bytes[2..]));
      SumCons(WordOf(Big, bytes[0], bytes[1]), Words(Big, bytes[2..]));
    }
  }

  lemma SwapIsTimes256(c: int)
    requires 1 <= c <= 0xFFFF
    ensures 1 <= Swap16(c) <= 0xFFFF && 256 * c == Swap16(c) + 0xFFFF * (c / 256)
  {
  }

  lemma CanonTimes256(little: int, big: int, q: int)
    requires little > 0 && big > 0 && 256 * little == big + 0xFFFF * q
    ensures Canon(big) == Swap16(Canon(little))
  {
    var c := Canon(little);
    var p := (little - 1) / 0xFFFF;
    assert little == 0xFFFF * p + c;
    SwapIsTimes256(c);
    var m := 256 * p + c / 256 - q;
    assert big == 0xFFFF * m + Swap16(c);
    CanonIs(big, m, Swap16(c));
  }

  lemma SumsInBothOrders(bytes: seq<Byte>)
    ensures Sum(Words(Little, bytes)) >= 0 && Sum(Words(Big, bytes)) >= 0
    ensures CarrySum(Words(Little, bytes)) == Canon(Sum(Words(Little, bytes)))
    ensures CarrySum(Words(Big, bytes)) == Canon(Sum(Words(Big, bytes)))
  {
    WordsShape(Little, bytes);
    WordsShape(Big, bytes);
    CarrySumIsCanon(Words(Little, bytes));
    CarrySumIsCanon(Words(Big, bytes));
  }

  lemma ComplementSwaps(little: int, big: int, q: int)
    requires little >= 0 && big >= 0 && (little == 0 <==> big == 0)
    requires 256 * little == big + 0xFFFF * q
    ensures 0 <= Canon(little) <= 0xFFFF
    ensures 0xFFFF - Canon(big) == Swap16(0xFFFF - Canon(little))
  {
    if little > 0 {
      CanonTimes256(little, big, q);
      SwapComplement(Canon(little));
    }
  }

  lemma SwapComplement(c: int)
    requires 0 <= c <= 0xFFFF
    ensures Swap16(0xFFFF - c) == 0xFFFF - Swap16(c)
  {
    var hi, lo := c / 256, c % 256;
    assert 0xFFFF - c == 256 * (255 - hi) + (255 - lo);
    assert (0xFFFF - c) / 256 == 255 - hi;
  }

  lemma ByteOrderSwaps(bytes: seq<Byte>)
    ensures Rfc1071(Big, bytes) == Swap16(Rfc1071(Little, bytes))
  {
    SumsInBothOrders(bytes);
    OtherOrderSum(bytes);
    ComplementSwaps(Sum(Words(Little, bytes)), Sum(Words(Big, bytes)), SecondBytes(bytes));
  }

  lemma StoreSwapped(bytes: seq<Byte>, k: nat, v: int)
    requires 2 * k + 1 < |bytes| && 0 <= v <= 0xFFFF
    ensures 0 <= Swap16(v) <= 0xFFFF
    ensures StoreWord(Little, bytes, k, v) == StoreWord(Big, bytes, k, Swap16(v))
  {
    assert Swap16(v) / 256 == v % 256 && Swap16(v) % 256 == v / 256;
  }

  /** A host of either byte order puts the same two bytes on the wire. */
  lemma ByteOrderIndependent(bytes: seq<Byte>, k: nat)
    requires 2 * k + 1 < |bytes|
    ensures StoreWord(Little, bytes, k, Rfc1071(Little, bytes)) == StoreWord(Big, bytes, k, Rfc1071(Big, bytes))
  {
    ByteOrderSwaps(bytes);
    StoreSwapped(bytes, k, Rfc1071(Little, bytes));
  }
}
