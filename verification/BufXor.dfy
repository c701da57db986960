/**
 * The consumer's XOR routine: checks that the N buffers hold equally many bytes, XORs them into the
 * first buffer by 32-bit words and then by single bytes, and appends the result to the output file.
 */
module BufXor {
  import Arithmetic
  import opened Bytes

  /** What one call leaves behind: success, the first buffer's bytes, and the bytes it got into the file. */
  datatype Outcome = Outcome(ok: bool, first: seq<byte>, emitted: seq<byte>)

  /**
   * The call, bytewise. `accepted` is how many of its bytes the file takes. If that cuts off whole words,
   * the checked write fails and the tail is neither XORed nor written; if it only cuts off tail bytes,
   * they are lost and the call succeeds all the same.
   */
  function XorOutcome(bufs: seq<seq<byte>>, accepted: nat): (r: Outcome)
    requires bufs != []
    ensures |r.first| == |bufs[0]|
  {
    if !SizesMatch(bufs) then Outcome(false, bufs[0], [])
    else
      var total := XorAll(bufs);
      var whole := |total| / 4 * 4;
      if accepted < whole then
        Outcome(false, total[..whole] + bufs[0][whole..], total[..accepted])
      else
        Outcome(true, total, total[..Arithmetic.Min(accepted, |total|)])
  }

  predicate SizesMatch(bufs: seq<seq<byte>>)
    ensures SizesMatch(bufs) && bufs != [] ==> SameLength(bufs)
  {
    forall i | 0 <= i < |bufs| :: |bufs[i]| == |bufs[0]|
  }

  // ----- 32-bit words, little endian -----

  function Word(b0: byte, b1: byte, b2: byte, b3: byte): bv32 {
    (b0 as bv32) | ((b1 as bv32) << 8) | ((b2 as bv32) << 16) | ((b3 as bv32) << 24)
  }

  function ByteOf(w: bv32, lane: nat): byte
    requires lane < 4
  {
    if lane == 0 then (w & 0xFF) as byte
    else if lane == 1 then ((w >> 8) & 0xFF) as byte
    else if lane == 2 then ((w >> 16) & 0xFF) as byte
    else ((w >> 24) & 0xFF) as byte
  }

  lemma LaneOfWord(b0: byte, b1: byte, b2: byte, b3: byte)
    ensures ByteOf(Word(b0, b1, b2, b3), 0) == b0
    ensures ByteOf(Word(b0, b1, b2, b3), 1) == b1
    ensures ByteOf(Word(b0, b1, b2, b3), 2) == b2
    ensures ByteOf(Word(b0, b1, b2, b3), 3) == b3
  {
  }

  lemma LaneOfXor(v: bv32, w: bv32)
    ensures ByteOf(v ^ w, 0) == ByteOf(v, 0) ^ ByteOf(w, 0)
    ensures ByteOf(v ^ w, 1) == ByteOf(v, 1) ^ ByteOf(w, 1)
    ensures ByteOf(v ^ w, 2) == ByteOf(v, 2) ^ ByteOf(w, 2)
    ensures ByteOf(v ^ w, 3) == ByteOf(v, 3) ^ ByteOf(w, 3)
  {
  }

  /** Little-endian load of four bytes. */
  method PackWord(b0: byte, b1: byte, b2: byte, b3: byte) returns (w: bv32)
    ensures ByteOf(w, 0) == b0 && ByteOf(w, 1) == b1 && ByteOf(w, 2) == b2 && ByteOf(w, 3) == b3
  {
    w := Word(b0, b1, b2, b3);
    LaneOfWord(b0, b1, b2, b3);
  }

  /** One word XOR is four byte XORs, lane by lane. */
  method XorPacked(v: bv32, w: bv32) returns (b0: byte, b1: byte, b2: byte, b3: byte)
    ensures b0 == ByteOf(v, 0) ^ ByteOf(w, 0) && b1 == ByteOf(v, 1) ^ ByteOf(w, 1)
    ensures b2 == ByteOf(v, 2) ^ ByteOf(w, 2) && b3 == ByteOf(v, 3) ^ ByteOf(w, 3)
  {
    var x := v ^ w;
    LaneOfXor(v, w);
    b0, b1, b2, b3 := ByteOf(x, 0), ByteOf(x, 1), ByteOf(x, 2), ByteOf(x, 3);
  }

  method XorFour(a0: byte, a1: byte, a2: byte, a3: byte, b0: byte, b1: byte, b2: byte, b3: byte)
    returns (c0: byte, c1: byte, c2: byte, c3: byte)
    ensures c0 == a0 ^ b0 && c1 == a1 ^ b1 && c2 == a2 ^ b2 && c3 == a3 ^ b3
  {
    var v := PackWord(a0, a1, a2, a3);
    var w := PackWord(b0, b1, b2, b3);
    c0, c1, c2, c3 := XorPacked(v, w);
  }

  method StoreFour(dst: array<byte>, at: nat, c0: byte, c1: byte, c2: byte, c3: byte)
    requires at + 4 <= dst.Length
    modifies dst
    ensures dst[at] == c0 && dst[at + 1] == c1 && dst[at + 2] == c2 && dst[at + 3] == c3
    ensures forall p :: 0 <= p < dst.Length && !(at <= p < at + 4) ==> dst[p] == old(dst[p])
  {
    dst[at] := c0;
    dst[at + 1] := c1;
    dst[at + 2] := c2;
    dst[at + 3] := c3;
  }

  /** `*dst ^= *src` on the 32-bit words that start at byte `at`. */
  method XorWordAt(dst: array<byte>, src: array<byte>, at: nat)
    requires dst != src && at + 4 <= dst.Length && at + 4 <= src.Length
    modifies dst
    ensures forall p :: at <= p < at + 4 ==> dst[p] == old(dst[p]) ^ src[p]
    ensures forall p :: 0 <= p < dst.Length && !(at <= p < at + 4) ==> dst[p] == old(dst[p])
  {
    var a0, a1, a2, a3 := dst[at], dst[at + 1], dst[at + 2], dst[at + 3];
    var b0, b1, b2, b3 := src[at], src[at + 1], src[at + 2], src[at + 3];
    var c0, c1, c2, c3 := XorFour(a0, a1, a2, a3, b0, b1, b2, b3);
    StoreFour(dst, at, c0, c1, c2, c3);
    forall p | at <= p < at + 4 ensures dst[p] == old(dst[p]) ^ src[p] {
      if p == at {
        assert dst[p] == c0 && old(dst[p]) == a0 && src[p] == b0;
      } else if p == at + 1 {
        assert dst[p] == c1 && old(dst[p]) == a1 && src[p] == b1;
      } else if p == at + 2 {
        assert dst[p] == c2 && old(dst[p]) == a2 && src[p] == b2;
      } else {
        assert dst[p] == c3 && old(dst[p]) == a3 && src[p] == b3;
      }
    }
  }

  ghost predicate Distinct(bufs: seq<array<byte>>) {
    forall i, j :: 0 <= i < j < |bufs| ==> bufs[i] != bufs[j]
  }

  /** The bytes each buffer holds: the first `size` of its array. */
  ghost function Held(inBuf: seq<array<byte>>, size: nat): (r: seq<seq<byte>>)
    requires forall i :: 0 <= i < |inBuf| ==> size <= inBuf[i].Length
    reads inBuf
    ensures |r| == |inBuf|
  {
    seq(|inBuf|, i requires 0 <= i < |inBuf| reads inBuf => inBuf[i][..size])
  }

  /** Columns `lo..hi` of the first buffer are XORed, everything before is too, the rest is untouched. */
  twostate predicate XoredUpTo(inBuf: seq<array<byte>>, num: nat, hi: nat)
    requires inBuf != [] && hi <= num
    requires forall i :: 0 <= i < |inBuf| ==> num <= inBuf[i].Length
    reads inBuf
  {
    && (forall i :: 1 <= i < |inBuf| ==> inBuf[i][..] == old(inBuf[i][..]))
    && (forall p :: 0 <= p < hi ==> inBuf[0][p] == XorColumn(old(Held(inBuf, num)), p, |inBuf|))
    && (forall p :: hi <= p < inBuf[0].Length ==> inBuf[0][p] == old(inBuf[0][p]))
  }

  /** Word `i` of the first buffer, XORed with word `i` of all others. */
  method XorWordOfAll(inBuf: seq<array<byte>>, i: nat, ghost before: seq<seq<byte>>)
    requires inBuf != [] && Distinct(inBuf) && |before| == |inBuf|
    requires forall j :: 0 <= j < |inBuf| ==> 4 * i + 4 <= inBuf[j].Length && 4 * i + 4 <= |before[j]|
    requires forall j, p :: 0 <= j < |inBuf| && 4 * i <= p < 4 * i + 4 ==> inBuf[j][p] == before[j][p]
    modifies inBuf[0]
    ensures forall p :: 4 * i <= p < 4 * i + 4 ==> inBuf[0][p] == XorColumn(before, p, |inBuf|)
    ensures forall p :: 0 <= p < inBuf[0].Length && !(4 * i <= p < 4 * i + 4) ==> inBuf[0][p] == old(inBuf[0][p])
  {
    for j := 1 to |inBuf|
      invariant forall p :: 4 * i <= p < 4 * i + 4 ==> inBuf[0][p] == XorColumn(before, p, j)
      invariant forall p :: 0 <= p < inBuf[0].Length && !(4 * i <= p < 4 * i + 4) ==> inBuf[0][p] == old(inBuf[0][p])
    {
      XorWordAt(inBuf[0], inBuf[j], 4 * i);
    }
  }

  /** The word loop. */
  method XorWords(inBuf: seq<array<byte>>, num: nat)
    requires inBuf != [] && Distinct(inBuf)
    requires forall i :: 0 <= i < |inBuf| ==> num <= inBuf[i].Length
    modifies inBuf[0]
    ensures XoredUpTo(inBuf, num, num / 4 * 4)
  {
    ghost var before := Held(inBuf, num);
    for i := 0 to num / 4
      invariant XoredUpTo(inBuf, num, 4 * i)
    {
      assert forall j :: 0 <= j < |inBuf| ==> before[j] == old(inBuf[j][..num]);
      XorWordOfAll(inBuf, i, before);
    }
  }

  /** Byte `p` of the first buffer, XORed with byte `p` of all others. */
  method XorByteOfAll(inBuf: seq<array<byte>>, p: nat, ghost before: seq<seq<byte>>)
    requires inBuf != [] && Distinct(inBuf) && |before| == |inBuf|
    requires forall j :: 0 <= j < |inBuf| ==> p < inBuf[j].Length && p < |before[j]| && inBuf[j][p] == before[j][p]
    modifies inBuf[0]
    ensures inBuf[0][p] == XorColumn(before, p, |inBuf|)
    ensures forall q :: 0 <= q < inBuf[0].Length && q != p ==> inBuf[0][q] == old(inBuf[0][q])
  {
    for j := 1 to |inBuf|
      invariant inBuf[0][p] == XorColumn(before, p, j)
      invariant forall q :: 0 <= q < inBuf[0].Length && q != p ==> inBuf[0][q] == old(inBuf[0][q])
    {
      inBuf[0][p] := inBuf[0][p] ^ inBuf[j][p];
    }
  }

  /** The byte loop over what is left after the whole words. */
  method XorTail(inBuf: seq<array<byte>>, num: nat, ghost before: seq<seq<byte>>)
    requires inBuf != [] && Distinct(inBuf)
    requires forall i :: 0 <= i < |inBuf| ==> num <= inBuf[i].Length
    requires |before| == |inBuf| && forall i :: 0 <= i < |inBuf| ==> |before[i]| == num
    requires forall i :: 1 <= i < |inBuf| ==> inBuf[i][..num] == before[i]
    requires forall p :: num / 4 * 4 <= p < num ==> inBuf[0][p] == before[0][p]
    modifies inBuf[0]
    ensures forall p :: num / 4 * 4 <= p < num ==> inBuf[0][p] == XorColumn(before, p, |inBuf|)
    ensures forall p :: 0 <= p < inBuf[0].Length && !(num / 4 * 4 <= p < num) ==> inBuf[0][p] == old(inBuf[0][p])
  {
    for p := num / 4 * 4 to num
      invariant forall q :: num / 4 * 4 <= q < p ==> inBuf[0][q] == XorColumn(before, q, |inBuf|)
      invariant forall q :: 0 <= q < inBuf[0].Length && !(num / 4 * 4 <= q < p) ==> inBuf[0][q] == old(inBuf[0][q])
    {
      assert forall j :: 1 <= j < |inBuf| ==> inBuf[j][..num][p] == before[j][p];
      XorByteOfAll(inBuf, p, before);
    }
  }

  method AllEqual(sizes: seq<nat>) returns (same: bool)
    requires sizes != []
    ensures same <==> forall i :: 0 <= i < |sizes| ==> sizes[i] == sizes[0]
  {
    for i := 1 to |sizes|
      invariant forall j :: 0 <= j < i ==> sizes[j] == sizes[0]
    {
      if sizes[i] != sizes[0] {
        return false;
      }
    }
    return true;
  }

  /** The fields of the file group that the routine updates, and the output file. */
  class FileGroup {
    const fileSize: nat
    var xorSize: nat
    var xorFlag: bool
    var correct: bool
    var outFile: seq<byte>
    /** How often all files' buffers have been freed. */
    var releases: nat

    constructor (fileSize: nat)
      ensures this.fileSize == fileSize && xorSize == 0 && !xorFlag && correct && outFile == [] && releases == 0
    {
      this.fileSize := fileSize;
      xorSize, xorFlag, correct, outFile, releases := 0, false, true, [], 0;
    }

    /** The word pass and its checked write. */
    method XorWhole(inBuf: seq<array<byte>>, num: nat, accepted: nat) returns (ok: bool)
      requires inBuf != [] && Distinct(inBuf) && forall i :: 0 <= i < |inBuf| ==> num <= inBuf[i].Length
      modifies this`outFile, inBuf[0]
      ensures ok == (accepted >= num / 4 * 4)
      ensures XoredUpTo(inBuf, num, num / 4 * 4) && SameLength(old(Held(inBuf, num)))
      ensures outFile == old(outFile) + XorAll(old(Held(inBuf, num)))[..Arithmetic.Min(accepted, num / 4 * 4)]
    {
      ghost var total := XorAll(Held(inBuf, num));
      XorWords(inBuf, num);
      var taken := Arithmetic.Min(accepted, num / 4 * 4);
      assert inBuf[0][..taken] == total[..taken];
      outFile := outFile + inBuf[0][..taken];
      ok := taken == num / 4 * 4;
    }

    /** The byte pass and its unchecked write. */
    method XorRest(inBuf: seq<array<byte>>, num: nat, accepted: nat, ghost bufs: seq<seq<byte>>)
      requires inBuf != [] && Distinct(inBuf) && forall i :: 0 <= i < |inBuf| ==> num <= inBuf[i].Length
      requires |bufs| == |inBuf| && SameLength(bufs) && |bufs[0]| == num && accepted >= num / 4 * 4
      requires forall i :: 1 <= i < |inBuf| ==> inBuf[i][..num] == bufs[i]
      requires inBuf[0][..num / 4 * 4] == XorAll(bufs)[..num / 4 * 4]
      requires forall p :: num / 4 * 4 <= p < num ==> inBuf[0][p] == bufs[0][p]
      modifies this`outFile, inBuf[0]
      ensures inBuf[0][..num] == XorAll(bufs) && inBuf[0][num..] == old(inBuf[0][num..])
      ensures outFile == old(outFile) + XorAll(bufs)[num / 4 * 4..Arithmetic.Min(accepted, num)]
    {
      var whole := num / 4 * 4;
      ghost var before := inBuf[0][..whole];
      XorTail(inBuf, num, bufs);
      forall p | 0 <= p < num ensures inBuf[0][p] == XorAll(bufs)[p] {
        if p < whole { assert inBuf[0][p] == before[p]; }
      }
      outFile := outFile + inBuf[0][whole..Arithmetic.Min(accepted, num)];
    }

    /** Both passes over `num` bytes and both writes. */
    method XorAndWrite(inBuf: seq<array<byte>>, num: nat, accepted: nat) returns (ok: bool)
      requires inBuf != [] && Distinct(inBuf) && forall i :: 0 <= i < |inBuf| ==> num <= inBuf[i].Length
      modifies this`outFile, inBuf[0]
      ensures ok == (accepted >= num / 4 * 4)
      ensures SameLength(old(Held(inBuf, num)))
      ensures var total := XorAll(old(Held(inBuf, num)));
              && outFile == old(outFile) + total[..Arithmetic.Min(accepted, num)]
              && inBuf[0][..num] == if ok then total else total[..num / 4 * 4] + old(inBuf[0][..num])[num / 4 * 4..]
      ensures inBuf[0][num..] == old(inBuf[0][num..])
    {
      ghost var bufs, written := Held(inBuf, num), outFile;
      ghost var total, whole := XorAll(bufs), num / 4 * 4;
      ok := XorWhole(inBuf, num, accepted);
      assert inBuf[0][..whole] == total[..whole];
      if ok {
        XorRest(inBuf, num, accepted, bufs);
        assert total[..whole] + total[whole..Arithmetic.Min(accepted, num)] == total[..Arithmetic.Min(accepted, num)];
        Associate(written, total[..whole], total[whole..Arithmetic.Min(accepted, num)]);
      }
    }

    /**
     * `bufSize[i]` bytes of `inBuf[i]` are full; the file takes `accepted` bytes.
     */
    method Xor(inBuf: seq<array<byte>>, bufSize: seq<nat>, accepted: nat) returns (ret: int)
      requires inBuf != [] && Distinct(inBuf) && |bufSize| == |inBuf|
      requires forall i :: 0 <= i < |inBuf| ==> bufSize[i] <= inBuf[i].Length
      modifies this, inBuf[0]
      ensures var bufs := old(seq(|inBuf|, i requires 0 <= i < |inBuf| reads inBuf => inBuf[i][..bufSize[i]]));
              var r := XorOutcome(bufs, accepted);
              && ret == (if r.ok then 0 else -1)
              && inBuf[0][..bufSize[0]] == r.first
              && inBuf[0][bufSize[0]..] == old(inBuf[0][bufSize[0]..])
              && outFile == old(outFile) + r.emitted
              && correct == (old(correct) && r.ok)
              && xorSize == old(xorSize) + (if r.ok then bufSize[0] else 0)
              && xorFlag == (old(xorFlag) || (r.ok && xorSize == fileSize))
              && releases == old(releases) + (if r.ok && xorSize == fileSize then 1 else 0)
      ensures (exists i :: 0 <= i < |bufSize| && bufSize[i] != bufSize[0]) ==>
                ret == -1 && !correct && outFile == old(outFile) && inBuf[0][..] == old(inBuf[0][..])
                && xorSize == old(xorSize) && xorFlag == old(xorFlag) && releases == old(releases)
    {
      ghost var bufs := seq(|inBuf|, i requires 0 <= i < |inBuf| reads inBuf => inBuf[i][..bufSize[i]]);
      var num := bufSize[0];
      var same := AllEqual(bufSize);
      if !same {
        assert !SizesMatch(bufs) by {
          var i :| 0 <= i < |bufSize| && bufSize[i] != num;
          assert |bufs[i]| != |bufs[0]|;
        }
        correct := false;
        return -1;
      }
      assert bufs == Held(inBuf, num);
      var ok := XorAndWrite(inBuf, num, accepted);
      if !ok {
        correct := false;
        return -1;
      }
      xorSize := xorSize + num;
      if xorSize == fileSize {
        xorFlag := true;
        releases := releases + 1;
      }
      return 0;
    }
  }
}
