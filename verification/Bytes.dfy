/** Little-endian words and NUL-terminated strings. */
module Bytes {
  import opened Types

  /** 256 to the power k. */
  function Limit(k: nat): nat {
    if k == 0 then 1 else 256 * Limit(k - 1)
  }

  /** The k low bytes of n, least significant first. */
  function LE(n: nat, k: nat): (b: seq<Byte>)
    ensures |b| == k
  {
    if k == 0 then [] else [n % 256] + LE(n / 256, k - 1)
  }

  function UnLE(b: seq<Byte>): nat {
    if b == [] then 0 else b[0] + 256 * UnLE(b[1..])
  }

  lemma {:induction false} UnLEBound(b: seq<Byte>)
    ensures UnLE(b) < Limit(|b|)
  {
    if b != [] { UnLEBound(b[1..]); }
  }

  /** Decoding inverts encoding on every value that fits. */
  lemma {:induction false} LERoundTrip(n: nat, k: nat)
    requires n < Limit(k)
    ensures UnLE(LE(n, k)) == n
  {
    if k > 0 {
      LERoundTrip(n / 256, k - 1);
      assert LE(n, k)[1..] == LE(n / 256, k - 1);
    }
  }

  /** Low byte first. */
  lemma LEBytes(b0: Byte, b1: Byte, b2: Byte, b3: Byte)
    ensures LE(b0 + 0x100 * b1 + 0x1_0000 * b2 + 0x100_0000 * b3, 4) == [b0, b1, b2, b3]
  {
    LEInverse([b0, b1, b2, b3]);
    assert [b0, b1, b2, b3][1..] == [b1, b2, b3] && [b1, b2, b3][1..] == [b2, b3] && [b2, b3][1..] == [b3];
    assert UnLE([b3]) == b3;
    assert UnLE([b2, b3]) == b2 + 256 * b3;
    assert UnLE([b1, b2, b3]) == b1 + 256 * (b2 + 256 * b3);
  }

  lemma LowByte(low: Byte, high: nat)
    ensures (low + 256 * high) % 256 == low && (low + 256 * high) / 256 == high
  {
  }

  /** Encoding inverts decoding on every byte string. */
  lemma {:induction false} LEInverse(b: seq<Byte>)
    ensures LE(UnLE(b), |b|) == b
  {
    if b != [] {
      LEInverse(b[1..]);
      LowByte(b[0], UnLE(b[1..]));
    }
  }

  lemma Widths()
    ensures Limit(4) == 0x1_0000_0000 && Limit(8) == 0x1_0000_0000_0000_0000
  {
    assert Limit(1) == 0x100;
    assert Limit(2) == 0x1_0000;
    assert Limit(3) == 0x100_0000;
    assert Limit(5) == 0x100_0000_0000;
    assert Limit(6) == 0x1_0000_0000_0000;
    assert Limit(7) == 0x100_0000_0000_0000;
  }

  function Read32(b: seq<Byte>): Uint32
    requires |b| == 4
  {
    UnLEBound(b);
    Widths();
    UnLE(b)
  }

  function Read64(b: seq<Byte>): Uint64
    requires |b| == 8
  {
    UnLEBound(b);
    Widths();
    UnLE(b)
  }

  lemma Read32Of(n: Uint32)
    ensures Read32(LE(n, 4)) == n
  {
    Widths();
    LERoundTrip(n, 4);
  }

  lemma Read64Of(n: Uint64)
    ensures Read64(LE(n, 8)) == n
  {
    Widths();
    LERoundTrip(n, 8);
  }

  /** A row of 32-bit words. */
  function Words32(ws: seq<Uint32>): (b: seq<Byte>)
    ensures |b| == 4 * |ws|
  {
    if ws == [] then [] else LE(ws[0], 4) + Words32(ws[1..])
  }

  /** A row of 64-bit words. */
  function Words64(ws: seq<Uint64>): (b: seq<Byte>)
    ensures |b| == 8 * |ws|
  {
    if ws == [] then [] else LE(ws[0], 8) + Words64(ws[1..])
  }

  lemma {:induction false} Word32At(ws: seq<Uint32>, i: nat)
    requires i < |ws|
    ensures Words32(ws)[4 * i..4 * i + 4] == LE(ws[i], 4)
  {
    var rest := Words32(ws[1..]);
    if i > 0 {
      Word32At(ws[1..], i - 1);
      assert Words32(ws)[4 * i..4 * i + 4] == rest[4 * (i - 1)..4 * (i - 1) + 4];
    }
  }

  lemma {:induction false} Word64At(ws: seq<Uint64>, i: nat)
    requires i < |ws|
    ensures Words64(ws)[8 * i..8 * i + 8] == LE(ws[i], 8)
  {
    var rest := Words64(ws[1..]);
    if i > 0 {
      Word64At(ws[1..], i - 1);
      assert Words64(ws)[8 * i..8 * i + 8] == rest[8 * (i - 1)..8 * (i - 1) + 8];
    }
  }

  /** Position of the first NUL, or the length. */
  function FirstNul(b: seq<Byte>): (i: nat)
    ensures i <= |b|
    ensures i < |b| ==> b[i] == 0
    ensures forall k :: 0 <= k < i ==> b[k] != 0
  {
    if b == [] || b[0] == 0 then 0
    else
      var i := FirstNul(b[1..]);
      assert forall k :: 0 < k < i + 1 ==> b[k] == b[1..][k - 1];
      1 + i
  }

  /** CString: the bytes up to the first NUL. */
  function CString(b: seq<Byte>): Text {
    b[..FirstNul(b)]
  }

  ghost predicate NulFree(b: seq<Byte>) {
    forall k :: 0 <= k < |b| ==> b[k] != 0
  }

  /** A string followed by a NUL reads back as itself, whatever bytes come after. */
  lemma CStringOf(s: Text, junk: seq<Byte>)
    requires NulFree(s)
    ensures CString(s + [0] + junk) == s
  {
    var b := s + [0] + junk;
    assert b[|s|] == 0;
    assert forall k :: 0 <= k < |s| ==> b[k] == s[k];
    assert FirstNul(b) == |s|;
  }
}
