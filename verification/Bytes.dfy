/** Byte strings and their bytewise XOR: the reference both XOR paths are measured against. */
module Bytes {

  type byte = bv8

  /** All strings of `parts`, one after the other. */
  function Concat(parts: seq<seq<byte>>): seq<byte> {
    if parts == [] then [] else Concat(parts[..|parts| - 1]) + parts[|parts| - 1]
  }

  lemma ConcatAppend(parts: seq<seq<byte>>, part: seq<byte>)
    ensures Concat(parts + [part]) == Concat(parts) + part
  {
    assert (parts + [part])[..|parts|] == parts;
  }

  lemma ConcatOne(part: seq<byte>)
    ensures Concat([part]) == part
  {
    assert [part][..0] == [];
    assert [] + part == part;
  }

  lemma Associate<T>(a: seq<T>, b: seq<T>, c: seq<T>)
    ensures (a + b) + c == a + (b + c)
  {
  }

  ghost predicate SameLength(bufs: seq<seq<byte>>) {
    bufs != [] && forall i :: 0 <= i < |bufs| ==> |bufs[i]| == |bufs[0]|
  }

  /** Byte `p` of the first `n` buffers, XORed together. */
  function XorColumn(bufs: seq<seq<byte>>, p: nat, n: nat): byte
    requires 1 <= n <= |bufs|
    requires forall i :: 0 <= i < n ==> p < |bufs[i]|
  {
    if n == 1 then bufs[0][p] else XorColumn(bufs, p, n - 1) ^ bufs[n - 1][p]
  }

  /** The bytewise XOR of buffers of one length. */
  function XorAll(bufs: seq<seq<byte>>): (r: seq<byte>)
    requires SameLength(bufs)
    ensures |r| == |bufs[0]|
  {
    seq(|bufs[0]|, p requires 0 <= p < |bufs[0]| => XorColumn(bufs, p, |bufs|))
  }

  /** Two strings of one length, XORed. */
  function Xor(a: seq<byte>, b: seq<byte>): (r: seq<byte>)
    requires |a| == |b|
    ensures |r| == |a|
  {
    seq(|a|, p requires 0 <= p < |a| => a[p] ^ b[p])
  }

  /** The same range cut out of every buffer. */
  function Slices(bufs: seq<seq<byte>>, lo: nat, hi: nat): (r: seq<seq<byte>>)
    requires lo <= hi
    requires forall i :: 0 <= i < |bufs| ==> hi <= |bufs[i]|
    ensures |r| == |bufs|
    ensures forall i :: 0 <= i < |r| ==> r[i] == bufs[i][lo..hi]
  {
    seq(|bufs|, i requires 0 <= i < |bufs| => bufs[i][lo..hi])
  }

  lemma {:induction false} ColumnsAgree(a: seq<seq<byte>>, p: nat, b: seq<seq<byte>>, q: nat, n: nat)
    requires 1 <= n <= |a| && n <= |b|
    requires forall i :: 0 <= i < n ==> p < |a[i]| && q < |b[i]| && a[i][p] == b[i][q]
    ensures XorColumn(a, p, n) == XorColumn(b, q, n)
  {
    if n > 1 { ColumnsAgree(a, p, b, q, n - 1); }
  }

  /** XOR works range by range: chunking the inputs chunks the result. */
  lemma XorOfSlices(bufs: seq<seq<byte>>, lo: nat, hi: nat)
    requires SameLength(bufs) && lo <= hi <= |bufs[0]|
    ensures SameLength(Slices(bufs, lo, hi))
    ensures XorAll(Slices(bufs, lo, hi)) == XorAll(bufs)[lo..hi]
  {
    var cut := Slices(bufs, lo, hi);
    forall p | 0 <= p < hi - lo ensures XorAll(cut)[p] == XorAll(bufs)[lo + p] {
      ColumnsAgree(cut, p, bufs, lo + p, |bufs|);
    }
  }

  /** Exchanging input `m` for `v` changes a column by exactly old value ^ new value. */
  lemma {:induction false} ColumnReplaced(bufs: seq<seq<byte>>, m: nat, v: seq<byte>, p: nat, n: nat)
    requires 1 <= n <= |bufs| && m < |bufs| && p < |v|
    requires forall i :: 0 <= i < |bufs| ==> p < |bufs[i]|
    ensures XorColumn(bufs[m := v], p, n) ==
            if m < n then XorColumn(bufs, p, n) ^ (bufs[m][p] ^ v[p]) else XorColumn(bufs, p, n)
  {
    if n == 1 {
      XorSwap(0, bufs[m][p], v[p]);
    } else {
      ColumnReplaced(bufs, m, v, p, n - 1);
      if m == n - 1 {
        XorSwap(XorColumn(bufs, p, n - 1), bufs[m][p], v[p]);
      } else if m < n - 1 {
        XorShift(XorColumn(bufs, p, n - 1), bufs[m][p] ^ v[p], bufs[n - 1][p]);
      }
    }
  }

  lemma InputReplaced(bufs: seq<seq<byte>>, m: nat, v: seq<byte>)
    requires SameLength(bufs) && m < |bufs| && |v| == |bufs[0]|
    ensures SameLength(bufs[m := v])
    ensures XorAll(bufs[m := v]) == Xor(XorAll(bufs), Xor(bufs[m], v))
  {
    forall p | 0 <= p < |v| ensures XorAll(bufs[m := v])[p] == Xor(XorAll(bufs), Xor(bufs[m], v))[p] {
      ColumnReplaced(bufs, m, v, p, |bufs|);
    }
  }

  lemma XorSwap(x: byte, a: byte, v: byte)
    ensures x ^ v == (x ^ a) ^ (a ^ v)
    ensures v == a ^ (a ^ v)
  {
  }

  lemma XorShift(x: byte, d: byte, b: byte)
    ensures (x ^ d) ^ b == (x ^ b) ^ d
  {
  }

  lemma XorTwice(x: byte, b: byte)
    ensures x ^ (b ^ x) == b
  {
  }

  /** Parity reconstruction: put the parity in place of a lost input, XOR again, and the input is back. */
  lemma ParityRestores(bufs: seq<seq<byte>>, m: nat)
    requires SameLength(bufs) && m < |bufs|
    ensures SameLength(bufs[m := XorAll(bufs)])
    ensures XorAll(bufs[m := XorAll(bufs)]) == bufs[m]
  {
    var parity := XorAll(bufs);
    forall p | 0 <= p < |bufs[0]| ensures XorAll(bufs[m := parity])[p] == bufs[m][p] {
      ColumnReplaced(bufs, m, parity, p, |bufs|);
      XorTwice(parity[p], bufs[m][p]);
    }
  }

  // ----- What the XOR is, bit by bit -----

  const BIT: seq<byte> := [1, 2, 4, 8, 16, 32, 64, 128]

  predicate HasBit(x: byte, b: nat)
    requires b < 8
  {
    x & BIT[b] != 0
  }

  /** The buffers that have bit `b` of byte `p` set. */
  ghost function Having(bufs: seq<seq<byte>>, p: nat, b: nat): set<nat>
    requires b < 8
  {
    set i: nat | i < |bufs| && p < |bufs[i]| && HasBit(bufs[i][p], b)
  }

  lemma BitOfXor(x: byte, y: byte, b: nat)
    requires b < 8
    ensures HasBit(x ^ y, b) <==> (HasBit(x, b) <==> !HasBit(y, b))
  {
    var m := BIT[b];
    assert m == 1 || m == 2 || m == 4 || m == 8 || m == 16 || m == 32 || m == 64 || m == 128;
    OneBit(x, y, m);
  }

  lemma OneBit(x: byte, y: byte, m: byte)
    requires m == 1 || m == 2 || m == 4 || m == 8 || m == 16 || m == 32 || m == 64 || m == 128
    ensures (x ^ y) & m != 0 <==> (x & m != 0 <==> y & m == 0)
  {
  }

  lemma OneMoreBuffer(bufs: seq<seq<byte>>, p: nat, b: nat, n: nat)
    requires 1 <= n <= |bufs| && b < 8 && p < |bufs[n - 1]|
    ensures |Having(bufs[..n], p, b)| == |Having(bufs[..n - 1], p, b)| + if HasBit(bufs[n - 1][p], b) then 1 else 0
  {
    var before := Having(bufs[..n - 1], p, b);
    assert Having(bufs[..n], p, b) == if HasBit(bufs[n - 1][p], b) then before + {n - 1} else before;
  }

  lemma {:induction false} BitOfColumn(bufs: seq<seq<byte>>, p: nat, b: nat, n: nat)
    requires 1 <= n <= |bufs| && b < 8
    requires forall i :: 0 <= i < n ==> p < |bufs[i]|
    ensures HasBit(XorColumn(bufs, p, n), b) <==> |Having(bufs[..n], p, b)| % 2 == 1
  {
    OneMoreBuffer(bufs, p, b, n);
    if n == 1 {
      assert Having(bufs[..0], p, b) == {};
    } else {
      BitOfColumn(bufs, p, b, n - 1);
      BitOfXor(XorColumn(bufs, p, n - 1), bufs[n - 1][p], b);
    }
  }

  lemma SameBits(x: byte, y: byte)
    ensures x == y <==> forall b :: 0 <= b < 8 ==> (HasBit(x, b) <==> HasBit(y, b))
  {
    if forall b :: 0 <= b < 8 ==> (HasBit(x, b) <==> HasBit(y, b)) {
      assert HasBit(x, 0) <==> HasBit(y, 0);
      assert HasBit(x, 1) <==> HasBit(y, 1);
      assert HasBit(x, 2) <==> HasBit(y, 2);
      assert HasBit(x, 3) <==> HasBit(y, 3);
      assert HasBit(x, 4) <==> HasBit(y, 4);
      assert HasBit(x, 5) <==> HasBit(y, 5);
      assert HasBit(x, 6) <==> HasBit(y, 6);
      assert HasBit(x, 7) <==> HasBit(y, 7);
    }
  }

  /** Bit for bit, `r` says whether an odd number of the buffers have the bit set. */
  ghost predicate IsParity(bufs: seq<seq<byte>>, r: seq<byte>)
    requires SameLength(bufs)
  {
    && |r| == |bufs[0]|
    && forall p, b :: 0 <= p < |r| && 0 <= b < 8 ==> (HasBit(r[p], b) <==> |Having(bufs, p, b)| % 2 == 1)
  }

  /** The XOR of the buffers is the one string that says so. */
  lemma XorIsParity(bufs: seq<seq<byte>>, r: seq<byte>)
    requires SameLength(bufs)
    ensures r == XorAll(bufs) <==> IsParity(bufs, r)
  {
    var x := XorAll(bufs);
    assert bufs[..|bufs|] == bufs;
    forall p, b | 0 <= p < |x| && 0 <= b < 8 ensures HasBit(x[p], b) <==> |Having(bufs, p, b)| % 2 == 1 {
      BitOfColumn(bufs, p, b, |bufs|);
    }
    if IsParity(bufs, r) {
      forall p | 0 <= p < |r| ensures r[p] == x[p] { SameBits(r[p], x[p]); }
    }
  }

  /** In particular, files of zeros have a parity of zeros, and one file alone is its own parity. */
  lemma XorOfZeros(bufs: seq<seq<byte>>)
    requires SameLength(bufs)
    requires forall i, p :: 0 <= i < |bufs| && 0 <= p < |bufs[i]| ==> bufs[i][p] == 0
    ensures forall p :: 0 <= p < |XorAll(bufs)| ==> XorAll(bufs)[p] == 0
  {
    XorIsParity(bufs, XorAll(bufs));
    forall p | 0 <= p < |XorAll(bufs)| ensures XorAll(bufs)[p] == 0 {
      forall b | 0 <= b < 8 ensures !HasBit(XorAll(bufs)[p], b) && !HasBit(0, b) {
        assert Having(bufs, p, b) == {};
      }
      SameBits(XorAll(bufs)[p], 0);
    }
  }

  lemma XorOfOne(buf: seq<byte>)
    ensures SameLength([buf]) && XorAll([buf]) == buf
  {
    forall p, b | 0 <= p < |buf| && 0 <= b < 8 ensures HasBit(buf[p], b) <==> |Having([buf], p, b)| % 2 == 1 {
      assert Having([buf], p, b) == if HasBit(buf[p], b) then {0} else {};
    }
    XorIsParity([buf], buf);
  }

  lemma XorOfTwo(a: seq<byte>, b: seq<byte>)
    requires |a| == |b|
    ensures SameLength([a, b]) && XorAll([a, b]) == Xor(a, b)
  {
    assert forall p :: 0 <= p < |a| ==> XorColumn([a, b], p, 1) == a[p];
  }
}
