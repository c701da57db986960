/**
 * The header of a write command as it lies on the wire: its fields, one after the other, numbers least
 * byte first; and where the receiving side looks for the two it uses.
 */
module Header {
  import Arithmetic
  import opened Bytes

  const CMD_LEN := 1065
  const CMD_WRITE: byte := 2
  const COMMAND_AT := 16
  const DATA_LEN_AT := 1053

  /** The fields in their order. `synchro` are the 16 bytes that start every command. */
  datatype WriteCommand = WriteCommand(
    synchro: seq<byte>, command: byte, mode: nat, fileName: seq<byte>, offset: nat, dataLen: nat, reserved: seq<byte>
  )

  function Power(n: nat): (r: nat)
    ensures r > 0
  {
    if n == 0 then 1 else 256 * Power(n - 1)
  }

  // ----- Numbers -----

  /** Little-endian value. */
  function LittleEndian(b: seq<byte>): nat {
    if b == [] then 0 else b[0] as nat + 256 * LittleEndian(b[1..])
  }

  /** Digit `i` of `n` to the base 256, the lowest first. */
  function Digit(n: nat, i: nat): (d: nat)
    ensures d < 256
  {
    if i == 0 then n % 256 else Digit(n / 256, i - 1)
  }

  /** A number in `width` bytes: byte i is its digit i. */
  function InBytes(n: nat, width: nat): (r: seq<byte>)
    ensures |r| == width
  {
    seq(width, i requires 0 <= i < width => Arithmetic.AsByte(Digit(n, i)))
  }

  lemma DivDiv(n: nat, i: nat)
    ensures n / Power(i + 1) == (n / 256) / Power(i)
  {
    var p := Power(i);
    var q, r := n / 256, n % 256;
    var a, b := q / p, q % p;
    assert q == a * p + b;
    assert n == 256 * (a * p + b) + r;
    assert a * (256 * p) == 256 * (a * p);
    Arithmetic.DivUnique(n, 256 * p, a, 256 * b + r);
  }

  /** Byte i of a written number has the weight 256^i. */
  lemma ByteWeight(n: nat, width: nat, i: nat)
    requires i < width
    ensures InBytes(n, width)[i] as nat == (n / Power(i)) % 256
  {
    DigitWeight(n, i);
  }

  lemma {:induction false} DigitWeight(n: nat, i: nat)
    ensures Digit(n, i) == (n / Power(i)) % 256
    decreases i
  {
    if i > 0 {
      DigitWeight(n / 256, i - 1);
      DivDiv(n, i - 1);
    }
  }

  lemma InBytesSplits(n: nat, width: nat)
    requires width > 0
    ensures InBytes(n, width) == [Arithmetic.AsByte(n % 256)] + InBytes(n / 256, width - 1)
  {
    var b, rest := InBytes(n, width), InBytes(n / 256, width - 1);
    assert b[0] == Arithmetic.AsByte(n % 256);
    forall i | 0 <= i < width - 1 ensures b[i + 1] == rest[i] {
      assert Digit(n, i + 1) == Digit(n / 256, i);
    }
  }

  lemma LowByteFirst(x: byte, rest: seq<byte>)
    ensures LittleEndian([x] + rest) == x as nat + 256 * LittleEndian(rest)
  {
    assert ([x] + rest)[1..] == rest;
  }

  /** Reading a number that was written. */
  lemma {:induction false} ReadsBack(n: nat, width: nat)
    requires n < Power(width)
    ensures LittleEndian(InBytes(n, width)) == n
    decreases width
  {
    if width > 0 {
      InBytesSplits(n, width);
      LowByteFirst(Arithmetic.AsByte(n % 256), InBytes(n / 256, width - 1));
      ReadsBack(n / 256, width - 1);
    }
  }

  lemma LastDigit(n: nat, r: nat, q: nat)
    requires r < 256 && n == r + 256 * q
    ensures n % 256 == r && n / 256 == q
  {
  }

  /** Writing a number that was read. */
  lemma {:induction false} WritesBack(b: seq<byte>)
    ensures LittleEndian(b) < Power(|b|)
    ensures InBytes(LittleEndian(b), |b|) == b
  {
    if b != [] {
      var n, rest := LittleEndian(b), b[1..];
      WritesBack(rest);
      InBytesSplits(n, |b|);
      LastDigit(n, b[0] as nat, LittleEndian(rest));
      Arithmetic.ByteByValue(b[0]);
      assert b == [b[0]] + rest;
    }
  }

  // ----- The header -----

  ghost predicate WellFormed(c: WriteCommand) {
    && |c.synchro| == 16 && |c.fileName| == 1024 && |c.reserved| == 4
    && c.mode < Power(4) && c.offset < Power(8) && c.dataLen < Power(8)
  }

  /** What the peer sends: the packed struct. */
  function Packed(c: WriteCommand): seq<byte> {
    c.synchro + [c.command] + InBytes(c.mode, 4) + c.fileName + InBytes(c.offset, 8) + InBytes(c.dataLen, 8) + c.reserved
  }

  /** The header's `data_len`: eight bytes before the last four. */
  function DataLen(header: seq<byte>): nat
    requires |header| >= CMD_LEN
  {
    LittleEndian(header[DATA_LEN_AT..DATA_LEN_AT + 8])
  }

  /** The receiver finds what was put in, whatever else the header holds. */
  lemma HeaderReadsBack(c: WriteCommand)
    requires WellFormed(c)
    ensures |Packed(c)| == CMD_LEN
    ensures Packed(c)[COMMAND_AT] == c.command && DataLen(Packed(c)) == c.dataLen
  {
    assert Packed(c)[DATA_LEN_AT..DATA_LEN_AT + 8] == InBytes(c.dataLen, 8);
    ReadsBack(c.dataLen, 8);
  }

  /** The fields of any header. */
  function Unpacked(header: seq<byte>): WriteCommand
    requires |header| == CMD_LEN
  {
    WriteCommand(header[..16], header[16], LittleEndian(header[17..21]), header[21..1045], LittleEndian(header[1045..1053]),
                 LittleEndian(header[1053..1061]), header[1061..])
  }

  /** Every string of that length is a header. */
  lemma HeaderWritesBack(header: seq<byte>)
    requires |header| == CMD_LEN
    ensures WellFormed(Unpacked(header)) && Packed(Unpacked(header)) == header
  {
    WritesBack(header[17..21]);
    WritesBack(header[1045..1053]);
    WritesBack(header[1053..1061]);
  }
}
