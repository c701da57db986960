/**
 * The local path: N files of one size, XORed chunk by chunk by 32-bit words, then the last size mod 4
 * bytes one by one.
 */
module LocalXor {
  import opened Arithmetic
  import opened Bytes
  import opened BufXor
  import opened Wrappers

  datatype Code = Right | ErrorFileSize | ErrorFileOpen | ErrorFread | ErrorOutputFile | ErrorXorFile

  /** A `char` by its bit pattern: EOF is -1, and so is the byte 0xFF. */
  const EOF_CHAR: byte := 0xFF

  /** The value of a signed `char`. */
  function CharValue(c: byte): int {
    if c < 0x80 then c as int else c as int - 256
  }

  lemma OnlyEofChar(c: byte)
    ensures CharValue(c) == -1 <==> c == EOF_CHAR
  {
  }

  /** An input stream: the file's bytes and the read position. */
  class InFile {
    const content: seq<byte>
    var pos: nat

    constructor (content: seq<byte>)
      ensures this.content == content && pos == 0
    {
      this.content := content;
      pos := 0;
    }

    /** Reads `words` 32-bit words, or as many as there are. */
    method Read(buf: array<byte>, words: nat) returns (n: nat)
      requires pos <= |content| && 4 * words <= buf.Length
      modifies this, buf
      ensures n <= words && pos <= |content|
      ensures 4 * words <= |content| - old(pos) ==>
                n == words && pos == old(pos) + 4 * words && buf[..4 * words] == content[old(pos)..pos]
    {
      var left := |content| - pos;
      n := if 4 * words <= left then words else left / 4;
      forall i | 0 <= i < 4 * n {
        buf[i] := content[pos + i];
      }
      pos := if n == words then pos + 4 * n else |content|;
    }

    method Seek(p: nat)
      requires p <= |content|
      modifies this
      ensures pos == p
    {
      pos := p;
    }

    /** The next byte as a `char`, or EOF. */
    method GetChar() returns (c: byte)
      requires pos <= |content|
      modifies this
      ensures pos <= |content|
      ensures if old(pos) < |content| then c == content[old(pos)] && pos == old(pos) + 1 else c == EOF_CHAR && pos == old(pos)
    {
      if pos == |content| {
        return EOF_CHAR;
      }
      c := content[pos];
      pos := pos + 1;
    }
  }

  class OutFile {
    var content: seq<byte>

    constructor ()
      ensures content == []
    {
      content := [];
    }
  }

  ghost predicate SameSize(files: seq<InFile>, size: nat) {
    files != [] && forall i :: 0 <= i < |files| ==> |files[i].content| == size
  }

  ghost predicate DistinctFiles(files: seq<InFile>) {
    forall i, j :: 0 <= i < j < |files| ==> files[i] != files[j]
  }

  function Contents(files: seq<InFile>): (r: seq<seq<byte>>)
    ensures |r| == |files|
  {
    seq(|files|, i requires 0 <= i < |files| => files[i].content)
  }

  /** One of the last size mod 4 bytes of file 0 looks like EOF. */
  ghost predicate TailStops(content: seq<byte>) {
    exists p :: |content| / 4 * 4 <= p < |content| && content[p] == EOF_CHAR
  }

  // ----- What is written when the routine does not return RIGHT -----

  /** The first byte from `p` on that looks like EOF, or the end. */
  function EofFrom(content: seq<byte>, p: nat): (e: nat)
    requires p <= |content|
    ensures p <= e <= |content| && (forall q :: p <= q < e ==> content[q] != EOF_CHAR)
    ensures e < |content| ==> content[e] == EOF_CHAR
    decreases |content| - p
  {
    if p == |content| || content[p] == EOF_CHAR then p else EofFrom(content, p + 1)
  }

  /** Where the byte loop stops. */
  function TailEnd(content: seq<byte>): (e: nat)
    ensures e <= |content| && (e < |content| <==> TailStops(content))
  {
    EofFrom(content, |content| / 4 * 4)
  }

  /** Where the last block of words begins. */
  function LastBlock(words: nat, chunk: nat): (b: nat)
    requires chunk > 0
    ensures b <= words <= b + chunk && (words > 0 ==> b < words)
  {
    if words <= chunk then 0 else chunk + LastBlock(words - chunk, chunk)
  }

  /** `n` is so many whole chunks. */
  ghost predicate WholeChunks(n: nat, chunk: nat)
    requires chunk > 0
  {
    if n < chunk then n == 0 else WholeChunks(n - chunk, chunk)
  }

  lemma {:induction false} LastBlockIs(n: nat, more: nat, chunk: nat)
    requires chunk > 0 && WholeChunks(n, chunk) && 0 < more <= chunk
    ensures LastBlock(n + more, chunk) == n
    decreases n
  {
    if n >= chunk { LastBlockIs(n - chunk, more, chunk); }
  }

  /** It begins at a multiple of the chunk size. */
  lemma {:induction false} LastBlockMod(words: nat, chunk: nat)
    requires chunk > 0
    ensures LastBlock(words, chunk) % chunk == 0
    decreases words
  {
    if words > chunk {
      LastBlockMod(words - chunk, chunk);
      ModStep(LastBlock(words - chunk, chunk), chunk);
    }
  }

  /**
   * The XOR up to the byte that looks like EOF, and then, the last block having been XORed a second time,
   * that block of file 0 as it is.
   */
  function Overshot(first: seq<byte>, all: seq<byte>, chunk: nat): seq<byte>
    requires chunk > 0 && |all| == |first|
  {
    var words := |first| / 4 * 4;
    all[..TailEnd(first)] + first[LastBlock(words, chunk)..words]
  }

  /** How much has been XORed after so many rounds without an end. */
  function Progress(first: seq<byte>, chunk: nat, rounds: nat): (total: nat)
    requires chunk > 0
    ensures total <= |first|
  {
    if rounds == 0 then 0
    else if |first| < 4 then TailEnd(first)
    else
      var before := Progress(first, chunk, rounds - 1);
      before + NextWords(|first| - before, chunk) * 4
  }

  /** The words of the next round. */
  function NextWords(left: nat, chunk: nat): (words: nat)
    ensures 4 * words <= left && 4 * words <= chunk
  {
    (if left <= chunk then left else chunk) / 4
  }

  lemma ProgressNext(first: seq<byte>, chunk: nat, rounds: nat, total: nat, words: nat)
    requires chunk > 0 && |first| - total >= 4 && total == Progress(first, chunk, rounds) && words == NextWords(|first| - total, chunk)
    ensures Progress(first, chunk, rounds + 1) == total + 4 * words
  {
  }

  lemma NextProgress(size: nat, chunk: nat, t: nat, before: nat)
    requires chunk > 0 && chunk % 4 == 0 && t % 4 == 0 && before == Min(t, size / 4 * 4)
    ensures before + NextWords(size - before, chunk) * 4 == Min(t + chunk, size / 4 * 4)
    ensures (t + chunk) % 4 == 0
  {
    var a, b, c, rest := t / 4, size / 4, chunk / 4, size % 4;
    assert t == 4 * a && chunk == 4 * c && size == 4 * b + rest;
    NextQuarters(a, b, c, rest);
  }

  lemma NextQuarters(a: nat, b: nat, c: nat, rest: nat)
    requires c > 0 && rest < 4
    ensures var before := Min(4 * a, 4 * b);
            before + NextWords(4 * b + rest - before, 4 * c) * 4 == Min(4 * a + 4 * c, 4 * b)
  {
    if a <= b {
      var left := 4 * b + rest - 4 * a;
      assert left == 4 * (b - a) + rest && left / 4 == b - a;
    }
  }

  /** That is a chunk in each round, and at most all whole words. */
  lemma {:induction false} ProgressIs(first: seq<byte>, chunk: nat, rounds: nat)
    requires chunk > 0 && chunk % 4 == 0 && |first| >= 4
    ensures Progress(first, chunk, rounds) == Min(Times(chunk, rounds), |first| / 4 * 4)
    ensures Times(chunk, rounds) % 4 == 0
  {
    if rounds > 0 {
      ProgressIs(first, chunk, rounds - 1);
      NextProgress(|first|, chunk, Times(chunk, rounds - 1), Progress(first, chunk, rounds - 1));
    }
  }

  /** Reads the next `words` words of every file into its buffer. */
  method ReadAll(files: seq<InFile>, bufs: seq<array<byte>>, words: nat, ghost size: nat, ghost at: nat)
    returns (num: nat, same: bool)
    requires SameSize(files, size) && DistinctFiles(files) && |bufs| == |files| && Distinct(bufs)
    requires forall i :: 0 <= i < |files| ==> files[i].pos == at && 4 * words <= bufs[i].Length
    requires at + 4 * words <= size
    modifies files, bufs
    ensures same && num == words
    ensures forall i :: 0 <= i < |files| ==>
              files[i].pos == at + 4 * words && bufs[i][..4 * words] == files[i].content[at..at + 4 * words]
  {
    num, same := words, true;
    for i := 0 to |files|
      invariant same && num == words
      invariant forall j :: 0 <= j < i ==>
                  files[j].pos == at + 4 * words && bufs[j][..4 * words] == files[j].content[at..at + 4 * words]
      invariant forall j :: i <= j < |files| ==> files[j].pos == at
    {
      var n := files[i].Read(bufs[i], words);
      if i > 0 && n != num {
        return num, false;
      }
      num := n;
    }
  }

  /** The word XOR of the buffers, appended to the output. */
  method XorBlock(bufs: seq<array<byte>>, num: nat, out: OutFile)
    requires bufs != [] && Distinct(bufs) && forall i :: 0 <= i < |bufs| ==> 4 * num <= bufs[i].Length
    modifies bufs[0], out
    ensures SameLength(old(Held(bufs, 4 * num)))
    ensures out.content == old(out.content) + XorAll(old(Held(bufs, 4 * num)))
    ensures Held(bufs, 4 * num) == old(Held(bufs, 4 * num))[0 := XorAll(old(Held(bufs, 4 * num)))]
  {
    ghost var held := Held(bufs, 4 * num);
    XorWords(bufs, 4 * num);
    assert 4 * num / 4 * 4 == 4 * num;
    assert bufs[0][..4 * num] == XorAll(held);
    out.content := out.content + bufs[0][..4 * num];
  }

  lemma ChunkOfXor(contents: seq<seq<byte>>, held: seq<seq<byte>>, at: nat, n: nat)
    requires SameLength(contents) && at + n <= |contents[0]| && held == Slices(contents, at, at + n)
    ensures SameLength(held) && held[0 := XorAll(held)] == BlockLeft(contents, at, at + n)
    ensures XorAll(contents)[..at] + XorAll(held) == XorAll(contents)[..at + n]
  {
    XorOfSlices(contents, at, at + n);
  }

  /** The bytes at `at` of files 1, 2, ..., XORed onto the byte of file 0. */
  method XorOntoChar(files: seq<InFile>, c0: byte, size: nat, ghost at: nat) returns (c: byte)
    requires SameSize(files, size) && DistinctFiles(files) && at < size
    requires c0 == files[0].content[at] && forall i :: 1 <= i < |files| ==> files[i].pos == at
    modifies files[1..]
    ensures c == XorColumn(Contents(files), at, |files|)
    ensures files[0].pos == old(files[0].pos) && forall i :: 1 <= i < |files| ==> files[i].pos == at + 1
  {
    c := c0;
    for i := 1 to |files|
      invariant c == XorColumn(Contents(files), at, i)
      invariant files[0].pos == old(files[0].pos)
      invariant forall j :: 1 <= j < i ==> files[j].pos == at + 1
      invariant forall j :: i <= j < |files| ==> files[j].pos == at
    {
      assert files[i] in files[1..] by { assert files[1..][i - 1] == files[i]; }
      var c1 := files[i].GetChar();
      c := c ^ c1;
    }
  }

  lemma SliceGrows(s: seq<byte>, lo: nat, hi: nat)
    requires lo <= hi < |s|
    ensures s[lo..hi + 1] == s[lo..hi] + [s[hi]]
  {
  }

  /** One byte of the result, and the next `char` of file 0. */
  method TailByte(files: seq<InFile>, out: OutFile, size: nat, at: nat, c: byte) returns (d: byte)
    requires SameSize(files, size) && DistinctFiles(files) && SameLength(Contents(files)) && at < size
    requires c == files[0].content[at] && files[0].pos == at + 1
    requires forall i :: 1 <= i < |files| ==> files[i].pos == at
    modifies files, out
    ensures out.content == old(out.content) + [XorAll(Contents(files))[at]]
    ensures forall i :: 1 <= i < |files| ==> files[i].pos == at + 1
    ensures files[0].pos == if at + 1 < size then at + 2 else size
    ensures d == if at + 1 < size then files[0].content[at + 1] else EOF_CHAR
  {
    var x := XorOntoChar(files, c, size, at);
    out.content := out.content + [x];
    d := files[0].GetChar();
  }

  /** The byte loop: from the current position to the end of file 0, or to a byte that looks like EOF. */
  method XorTailBytes(files: seq<InFile>, out: OutFile, size: nat, start: nat) returns (total: nat)
    requires SameSize(files, size) && DistinctFiles(files) && SameLength(Contents(files)) && start <= size
    requires forall i :: 0 <= i < |files| ==> files[i].pos == start
    modifies files, out
    ensures start <= total <= size
    ensures out.content == old(out.content) + XorAll(Contents(files))[start..total]
    ensures forall p :: start <= p < total ==> files[0].content[p] != EOF_CHAR
    ensures total < size ==> files[0].content[total] == EOF_CHAR
    ensures forall i :: 0 <= i < |files| ==> files[i].pos <= size
  {
    total := start;
    ghost var all, before := XorAll(Contents(files)), out.content;
    var c := files[0].GetChar();
    while c != EOF_CHAR
      invariant start <= total <= size && out.content == before + all[start..total]
      invariant forall p :: start <= p < total ==> files[0].content[p] != EOF_CHAR
      invariant forall i :: 1 <= i < |files| ==> files[i].pos == total
      invariant files[0].pos == if total < size then total + 1 else size
      invariant c == if total < size then files[0].content[total] else EOF_CHAR
      decreases size - total
    {
      c := TailByte(files, out, size, total, c);
      SliceGrows(all, start, total);
      total := total + 1;
    }
  }

  method SeekAll(files: seq<InFile>, size: nat, p: nat)
    requires SameSize(files, size) && p <= size
    modifies files
    ensures forall i :: 0 <= i < |files| ==> files[i].pos == p
  {
    for i := 0 to |files|
      invariant forall j :: 0 <= j < i ==> files[j].pos == p
    {
      files[i].Seek(p);
    }
  }

  /** Outer-loop rounds still needed when `left` bytes are to go and no tail byte stops the loop. */
  function RoundsLeft(left: nat, chunk: nat): nat
    requires chunk > 0
  {
    if left < 4 then 1 else if left <= chunk then 2 else 1 + RoundsLeft(left - chunk, chunk)
  }

  lemma OneRoundLess(left: nat, chunk: nat, words: nat)
    requires chunk > 0 && chunk % 4 == 0 && left >= 4
    requires words == (if left <= chunk then left else chunk) / 4
    ensures 0 < words && 4 * words <= left && RoundsLeft(left - 4 * words, chunk) < RoundsLeft(left, chunk)
  {
    if left > chunk { assert 4 * words == chunk; }
  }

  /** Bytes `lo` to `hi` of every file, but for file 0 their XOR: what XORing a block leaves in the buffers. */
  function BlockLeft(contents: seq<seq<byte>>, lo: nat, hi: nat): seq<seq<byte>>
    requires SameLength(contents) && lo <= hi <= |contents[0]|
  {
    var cut := Slices(contents, lo, hi);
    cut[0 := XorAll(cut)]
  }

  /** The buffers still hold what XORing the last block left in them. */
  ghost predicate LeftIn(contents: seq<seq<byte>>, bufs: seq<array<byte>>, chunk: nat, total: nat, num: nat)
    requires SameLength(contents) && chunk > 0 && forall i :: 0 <= i < |bufs| ==> chunk <= bufs[i].Length
    reads bufs
  {
    num > 0 ==>
      && 4 * num <= chunk && 4 * num <= total <= |contents[0]| && total - 4 * num == LastBlock(total, chunk)
      && Held(bufs, 4 * num) == BlockLeft(contents, total - 4 * num, total)
  }

  /** XORed once more, the block of file 0 comes back. */
  lemma BlockComesBack(contents: seq<seq<byte>>, lo: nat, hi: nat)
    requires SameLength(contents) && lo <= hi <= |contents[0]|
    ensures SameLength(BlockLeft(contents, lo, hi)) && XorAll(BlockLeft(contents, lo, hi)) == contents[0][lo..hi]
  {
    XorOfSlices(contents, lo, hi);
    ParityRestores(Slices(contents, lo, hi), 0);
  }

  /** What holds whenever the outer loop comes round. */
  ghost predicate Between(files: seq<InFile>, size: nat, chunk: nat, total: nat, num: nat)
    requires SameSize(files, size) && chunk > 0
    reads files
  {
    && Numbers(files[0].content, chunk, total, num)
    && (size - total >= 4 || total == size ==> forall i :: 0 <= i < |files| ==> files[i].pos == total)
  }

  /** ... of the two counts. */
  ghost predicate Numbers(first: seq<byte>, chunk: nat, total: nat, num: nat)
    requires chunk > 0
  {
    var size := |first|;
    && total <= size && 4 * num <= chunk
    && (total == size ==> size == 0)
    && (size < 4 ==> num == 0) && (size >= 4 && num == 0 ==> total == 0)
    && (total % 4 == 0 || Stuck(first, size, total))
    && (size - total >= 4 ==> WholeChunks(total, chunk))
  }

  /** A round of words moves them on. */
  lemma NumbersNext(first: seq<byte>, chunk: nat, total: nat, num: nat, words: nat)
    requires chunk >= 4 && chunk % 4 == 0 && Numbers(first, chunk, total, num) && |first| - total >= 4
    requires words == NextWords(|first| - total, chunk)
    ensures words > 0 && total + 4 * words <= |first| && LastBlock(total + 4 * words, chunk) == total
    ensures total + 4 * words < |first| ==> Numbers(first, chunk, total + 4 * words, words)
    ensures total + 4 * words == |first| ==> |first| % 4 == 0
    ensures RoundsLeft(|first| - (total + 4 * words), chunk) < RoundsLeft(|first| - total, chunk)
  {
    WordsFit(|first|, chunk, total, words);
    NextChunk(|first|, chunk, total, words);
  }

  ghost predicate Stuck(first: seq<byte>, size: nat, total: nat) {
    size < 4 && |first| == size && total == TailEnd(first) < size
  }

  /** The next block of every file is in its buffer. */
  method ReadBlock(files: seq<InFile>, bufs: seq<array<byte>>, words: nat, ghost size: nat, ghost total: nat)
    returns (num: nat, same: bool)
    requires SameSize(files, size) && DistinctFiles(files) && |bufs| == |files| && Distinct(bufs)
    requires forall i :: 0 <= i < |files| ==> files[i].pos == total && 4 * words <= bufs[i].Length
    requires total + 4 * words <= size
    modifies files, bufs
    ensures same && num == words
    ensures forall i :: 0 <= i < |files| ==> files[i].pos == total + 4 * words
    ensures Held(bufs, 4 * words) == Slices(Contents(files), total, total + 4 * words)
  {
    num, same := ReadAll(files, bufs, words, size, total);
  }

  /** The part of a round that reads words. */
  method WordRound(files: seq<InFile>, bufs: seq<array<byte>>, out: OutFile, words: nat, ghost size: nat,
                   ghost total: nat, ghost before: seq<byte>) returns (num: nat, same: bool)
    requires SameSize(files, size) && DistinctFiles(files) && |bufs| == |files| && Distinct(bufs)
    requires forall i :: 0 <= i < |files| ==> files[i].pos == total && 4 * words <= bufs[i].Length
    requires total + 4 * words <= size && SameLength(Contents(files))
    requires out.content == before + XorAll(Contents(files))[..total]
    modifies files, bufs, out
    ensures same && num == words
    ensures forall i :: 0 <= i < |files| ==> files[i].pos == total + 4 * words
    ensures out.content == before + XorAll(Contents(files))[..total + 4 * words]
    ensures Held(bufs, 4 * words) == BlockLeft(Contents(files), total, total + 4 * words)
  {
    num, same := ReadBlock(files, bufs, words, size, total);
    ghost var held := Held(bufs, 4 * words);
    ChunkOfXor(Contents(files), held, total, 4 * words);
    WordsWritten(bufs, words, out, before, XorAll(Contents(files)), total, held);
  }

  /** The block's XOR goes to the file and stays in the first buffer. */
  method WordsWritten(bufs: seq<array<byte>>, num: nat, out: OutFile, ghost before: seq<byte>, ghost all: seq<byte>,
                      ghost total: nat, ghost held: seq<seq<byte>>)
    requires bufs != [] && Distinct(bufs) && forall i :: 0 <= i < |bufs| ==> 4 * num <= bufs[i].Length
    requires held == Held(bufs, 4 * num) && SameLength(held)
    requires total + 4 * num <= |all| && out.content == before + all[..total] && all[..total] + XorAll(held) == all[..total + 4 * num]
    modifies bufs[0], out
    ensures out.content == before + all[..total + 4 * num]
    ensures Held(bufs, 4 * num) == held[0 := XorAll(held)]
  {
    XorBlock(bufs, num, out);
    Associate(before, all[..total], XorAll(held));
  }

  lemma TailStart(size: nat, total: nat)
    requires total <= size && total % 4 == 0 && size - total < 4
    ensures total == size / 4 * 4
  {
  }

  /** The part of a round that reads the last bytes. */
  method TailRound(files: seq<InFile>, out: OutFile, size: nat, start: nat, ghost before: seq<byte>) returns (total: nat)
    requires SameSize(files, size) && DistinctFiles(files) && SameLength(Contents(files))
    requires start <= size && size - start < 4 && (start % 4 == 0 || Stuck(files[0].content, size, start))
    requires start == size ==> forall i :: 0 <= i < |files| ==> files[i].pos == start
    requires out.content == before + XorAll(Contents(files))[..start]
    modifies files, out
    ensures start <= total <= size
    ensures out.content == before + XorAll(Contents(files))[..total]
    ensures TailStops(files[0].content) <==> total < size
    ensures total == TailEnd(files[0].content)
    ensures forall i :: 0 <= i < |files| ==> files[i].pos <= size
  {
    if size != start {
      SeekAll(files, size, start);
    }
    total := XorTailBytes(files, out, size, start);
    TailWritten(before, XorAll(Contents(files)), start, total);
    TailOutcome(files[0].content, start, total);
  }

  lemma TailWritten(before: seq<byte>, all: seq<byte>, start: nat, total: nat)
    requires start <= total <= |all|
    ensures (before + all[..start]) + all[start..total] == before + all[..total]
  {
    assert all[..start] + all[start..total] == all[..total];
    Associate(before, all[..start], all[start..total]);
  }

  lemma EofIs(content: seq<byte>, p: nat, e: nat)
    requires p <= e <= |content| && forall q :: p <= q < e ==> content[q] != EOF_CHAR
    requires e < |content| ==> content[e] == EOF_CHAR
    ensures EofFrom(content, p) == e
  {
  }

  /** A tail pass stops at the first byte that looks like EOF, and early exactly if there is one. */
  lemma TailOutcome(first: seq<byte>, start: nat, total: nat)
    requires start <= total <= |first| && |first| - start < 4
    requires start % 4 == 0 || Stuck(first, |first|, start)
    requires forall p :: start <= p < total ==> first[p] != EOF_CHAR
    requires total < |first| ==> first[total] == EOF_CHAR
    ensures TailEnd(first) == total
    ensures TailStops(first) <==> total < |first|
  {
    if start % 4 == 0 {
      TailStart(|first|, start);
      EofIs(first, start, total);
    }
  }

  lemma NoTail(first: seq<byte>)
    ensures |first| % 4 == 0 ==> !TailStops(first)
  {
  }

  lemma AllOf(s: seq<byte>)
    ensures s[..|s|] == s
  {
  }

  /** N distinct open files of one size, and a buffer of at least one chunk for each. */
  ghost predicate Prepared(files: seq<InFile>, bufs: seq<array<byte>>, size: nat, chunk: nat) {
    && SameSize(files, size) && DistinctFiles(files) && |bufs| == |files| && Distinct(bufs)
    && chunk >= 4 && chunk % 4 == 0 && forall i :: 0 <= i < |files| ==> chunk <= bufs[i].Length
  }

  lemma WordsFit(size: nat, chunk: nat, total: nat, words: nat)
    requires chunk > 0 && chunk % 4 == 0 && total <= size && size - total >= 4
    requires words == NextWords(size - total, chunk)
    ensures 0 < words && 4 * words <= chunk && total + 4 * words <= size
    ensures RoundsLeft(size - (total + 4 * words), chunk) < RoundsLeft(size - total, chunk)
    ensures total % 4 == 0 ==> (total + 4 * words) % 4 == 0
  {
    OneRoundLess(size - total, chunk, words);
  }

  lemma NextChunk(size: nat, chunk: nat, total: nat, words: nat)
    requires chunk > 0 && chunk % 4 == 0 && size - total >= 4 && WholeChunks(total, chunk)
    requires words == NextWords(size - total, chunk)
    ensures LastBlock(total + 4 * words, chunk) == total
    ensures size - (total + 4 * words) >= 4 ==> WholeChunks(total + 4 * words, chunk)
  {
    LastBlockIs(total, 4 * words, chunk);
    if size - (total + 4 * words) >= 4 { assert 4 * words == chunk; }
  }

  lemma LeftInNext(contents: seq<seq<byte>>, bufs: seq<array<byte>>, chunk: nat, total: nat, words: nat)
    requires SameLength(contents) && chunk > 0 && forall i :: 0 <= i < |bufs| ==> chunk <= bufs[i].Length
    requires 4 * words <= chunk && total + 4 * words <= |contents[0]| && LastBlock(total + 4 * words, chunk) == total
    requires Held(bufs, 4 * words) == BlockLeft(contents, total, total + 4 * words)
    ensures LeftIn(contents, bufs, chunk, total + 4 * words, words)
  {
    assert total + 4 * words - 4 * words == total;
  }

  /** A round with whole words left. */
  method WholeWords(files: seq<InFile>, bufs: seq<array<byte>>, out: OutFile, size: nat, chunk: nat, words: nat,
                    total0: nat, ghost num0: nat, ghost before: seq<byte>) returns (total: nat, num: nat, r: Option<Code>)
    requires Prepared(files, bufs, size, chunk)
    requires SameLength(Contents(files)) && Between(files, size, chunk, total0, num0)
    requires out.content == before + XorAll(Contents(files))[..total0]
    requires size - total0 >= 4 && words == NextWords(size - total0, chunk)
    modifies files, bufs, out
    ensures r == None ==> num == words && Between(files, size, chunk, total, words) && LastBlock(total, chunk) == total0
    ensures r == None ==> Held(bufs, 4 * words) == BlockLeft(Contents(files), total0, total0 + 4 * words)
    ensures r == None ==> out.content == before + XorAll(Contents(files))[..total]
    ensures r == None ==> RoundsLeft(size - total, chunk) < RoundsLeft(size - total0, chunk) && total == total0 + 4 * words
    ensures r.Some? ==> r == Some(Right) && size % 4 == 0 && out.content == before + XorAll(Contents(files))
  {
    NumbersNext(files[0].content, chunk, total0, num0, words);
    assert files[0].pos == total0;
    var same;
    num, same := WordRound(files, bufs, out, words, size, total0, before);
    if !same {
      return total0, num, Some(ErrorFread);
    }
    total := total0 + 4 * words;
    if total == size {
      AllOf(XorAll(Contents(files)));
      return total, num, Some(Right);
    }
    return total, num, None;
  }

  /** The last block's buffers are XORed again and written. */
  method BlockAgain(ghost contents: seq<seq<byte>>, bufs: seq<array<byte>>, out: OutFile, chunk: nat, ghost total: nat, num: nat,
                    ghost before: seq<byte>)
    requires SameLength(contents) && bufs != [] && Distinct(bufs) && chunk > 0 && |bufs| == |contents|
    requires (forall i :: 0 <= i < |bufs| ==> chunk <= bufs[i].Length) && LeftIn(contents, bufs, chunk, total, num)
    requires num > 0 ==> total == |contents[0]| / 4 * 4
    requires out.content == before + XorAll(contents)[..TailEnd(contents[0])]
    modifies bufs[0], out
    ensures num > 0 ==> out.content == before + Overshot(contents[0], XorAll(contents), chunk)
    ensures num == 0 ==> out.content == old(out.content)
  {
    if num > 0 { BlockComesBack(contents, total - 4 * num, total); }
    XorBlock(bufs, num, out);
    if num > 0 {
      Associate(before, XorAll(contents)[..TailEnd(contents[0])], contents[0][total - 4 * num..total]);
    } else {
      assert out.content == old(out.content) + [];
    }
  }

  /**
   * A round with fewer than four bytes left. If the byte loop stops early, the block XOR runs again on
   * the words of the round before, and the size it adds overshoots.
   */
  method LastBytes(files: seq<InFile>, bufs: seq<array<byte>>, out: OutFile, size: nat, chunk: nat,
                   total0: nat, num0: nat, ghost before: seq<byte>) returns (total: nat, r: Option<Code>)
    requires Prepared(files, bufs, size, chunk)
    requires SameLength(Contents(files)) && Between(files, size, chunk, total0, num0)
    requires out.content == before + XorAll(Contents(files))[..total0]
    requires size - total0 < 4 && LeftIn(Contents(files), bufs, chunk, total0, num0)
    modifies files, bufs, out
    ensures r == None ==> Between(files, size, chunk, total, num0)
    ensures r == None ==> out.content == before + XorAll(Contents(files))[..total] && Stuck(files[0].content, size, total)
    ensures r == Some(Right) ==> out.content == before + XorAll(Contents(files))
    ensures r.Some? ==> r.value == if TailStops(files[0].content) then ErrorXorFile else Right
    ensures TailStops(files[0].content) && size < 4 ==> r == None
    ensures r == None ==> total == TailEnd(files[0].content)
    ensures r == Some(ErrorXorFile) ==> out.content == before + Overshot(files[0].content, XorAll(Contents(files)), chunk)
  {
    ghost var all := XorAll(Contents(files));
    assert all[..size] == all;
    total := TailRound(files, out, size, total0, before);
    if num0 > 0 { TailStart(size, total0); }
    if size == total {
      return total, Some(Right);
    }
    BlockAgain(Contents(files), bufs, out, chunk, total0, num0, before);
    total := total + 4 * num0;
    r := if total == size then Some(Right) else if total > size then Some(ErrorXorFile) else None;
  }

  /** The state between two rounds of the outer loop. */
  ghost predicate Kept(files: seq<InFile>, bufs: seq<array<byte>>, size: nat, chunk: nat, total: nat, num: nat,
                       written: seq<byte>, before: seq<byte>)
    requires Prepared(files, bufs, size, chunk) && SameLength(Contents(files))
    reads files, bufs
  {
    && Between(files, size, chunk, total, num) && LeftIn(Contents(files), bufs, chunk, total, num)
    && written == before + XorAll(Contents(files))[..total]
  }

  /** A round with words left. */
  method RoundOfWords(files: seq<InFile>, bufs: seq<array<byte>>, out: OutFile, size: nat, chunk: nat, words: nat, ghost rounds: nat,
                      total0: nat, num0: nat, ghost before: seq<byte>) returns (total: nat, num: nat, r: Option<Code>)
    requires Prepared(files, bufs, size, chunk) && SameLength(Contents(files))
    requires Between(files, size, chunk, total0, num0) && out.content == before + XorAll(Contents(files))[..total0]
    requires words > 0 && words == NextWords(size - total0, chunk)
    requires total0 == Progress(files[0].content, chunk, rounds)
    modifies files, bufs, out
    ensures r == None ==> Kept(files, bufs, size, chunk, total, num, out.content, before)
    ensures r == None ==> total == Progress(files[0].content, chunk, rounds + 1)
    ensures r == None ==> total <= size && size >= 4 && RoundsLeft(size - total, chunk) < RoundsLeft(size - total0, chunk)
    ensures r.Some? ==> r == Some(Right) && !TailStops(files[0].content) && out.content == before + XorAll(Contents(files))
    ensures size >= 4
  {
    NoTail(files[0].content);
    ProgressNext(files[0].content, chunk, rounds, total0, words);
    total, num, r := WholeWords(files, bufs, out, size, chunk, words, total0, num0, before);
    if r == None { LeftInNext(Contents(files), bufs, chunk, total0, words); }
  }

  /** One round of the outer loop; `r` is what it returns, if it does. */
  method Round(files: seq<InFile>, bufs: seq<array<byte>>, out: OutFile, size: nat, chunk: nat, ghost rounds: nat,
               total0: nat, num0: nat, ghost before: seq<byte>) returns (total: nat, num: nat, r: Option<Code>)
    requires Prepared(files, bufs, size, chunk) && SameLength(Contents(files))
    requires Kept(files, bufs, size, chunk, total0, num0, out.content, before)
    requires total0 == Progress(files[0].content, chunk, rounds)
    modifies files, bufs, out
    ensures r == None ==> Kept(files, bufs, size, chunk, total, num, out.content, before)
    ensures r == None ==> total <= size && total == Progress(files[0].content, chunk, rounds + 1)
    ensures r == None ==> RoundsLeft(size - total, chunk) < RoundsLeft(size - total0, chunk)
                          || (TailStops(files[0].content) && size < 4)
    ensures r == Some(Right) ==> out.content == before + XorAll(Contents(files))
    ensures r == Some(ErrorXorFile) ==> out.content == before + Overshot(files[0].content, XorAll(Contents(files)), chunk)
    ensures r.Some? ==> r.value == if TailStops(files[0].content) then ErrorXorFile else Right
    ensures TailStops(files[0].content) && size < 4 ==> r == None
  {
    var words := NextWords(size - total0, chunk);
    if words == 0 {
      num := num0;
      total, r := LastBytes(files, bufs, out, size, chunk, total0, num0, before);
      assert r == None ==> TailStops(files[0].content);
    } else {
      total, num, r := RoundOfWords(files, bufs, out, size, chunk, words, rounds, total0, num0, before);
    }
  }

  /** Before the first round. */
  lemma StartsKept(files: seq<InFile>, bufs: seq<array<byte>>, size: nat, chunk: nat, written: seq<byte>)
    requires Prepared(files, bufs, size, chunk)
    requires forall i :: 0 <= i < |files| ==> files[i].pos == 0
    ensures SameLength(Contents(files)) && Kept(files, bufs, size, chunk, 0, 0, written, written)
  {
    assert written + XorAll(Contents(files))[..0] == written;
  }

  /**
   * The whole routine. `rounds` bounds the outer loop, which the source leaves open; None says that
   * it was still running, and what it had written.
   */
  method XorFiles(files: seq<InFile>, bufs: seq<array<byte>>, out: OutFile, size: nat, chunk: nat, rounds: nat)
    returns (r: Option<Code>)
    requires Prepared(files, bufs, size, chunk) && forall i :: 0 <= i < |files| ==> files[i].pos == 0
    modifies files, bufs, out
    ensures SameLength(Contents(files))
    ensures r == Some(Right) ==> out.content == old(out.content) + XorAll(Contents(files))
    ensures r == Some(ErrorXorFile) ==> out.content == old(out.content) + Overshot(files[0].content, XorAll(Contents(files)), chunk)
    ensures r.Some? ==> r.value == if TailStops(files[0].content) then ErrorXorFile else Right
    ensures TailStops(files[0].content) && size < 4 ==> r == None
    ensures r == None ==>
              out.content == old(out.content) + XorAll(Contents(files))[..Progress(files[0].content, chunk, rounds)]
    ensures rounds >= RoundsLeft(size, chunk) && (size >= 4 || !TailStops(files[0].content)) ==> r.Some?
  {
    var num: nat, total: nat := 0, 0;
    ghost var first, before := files[0].content, out.content;
    ghost var enough := rounds >= RoundsLeft(size, chunk) && (size >= 4 || !TailStops(first));
    StartsKept(files, bufs, size, chunk, out.content);
    for round := 0 to rounds
      invariant Kept(files, bufs, size, chunk, total, num, out.content, before)
      invariant total <= size && total == Progress(first, chunk, round)
      invariant enough ==> rounds - round >= RoundsLeft(size - total, chunk)
    {
      total, num, r := Round(files, bufs, out, size, chunk, round, total, num, before);
      if r.Some? {
        return r;
      }
    }
    return None;
  }

  /** Are all files of one size? */
  method EqualSizes(files: seq<InFile>) returns (same: bool)
    requires files != []
    ensures same <==> SameLength(Contents(files))
  {
    for i := 1 to |files|
      invariant forall j :: 0 <= j < i ==> |files[j].content| == |files[0].content|
    {
      if |files[i].content| != |files[0].content| {
        assert |Contents(files)[i]| != |Contents(files)[0]|;
        return false;
      }
    }
    return true;
  }

  /**
   * Opens the files, refuses unequal sizes, and otherwise hands over to the XOR. `opens[i]` and
   * `outOpens` say which of the files can be opened.
   */
  method OpenFiles(files: seq<InFile>, bufs: seq<array<byte>>, out: OutFile, chunk: nat, rounds: nat,
                   opens: seq<bool>, outOpens: bool) returns (r: Option<Code>)
    requires files != [] && DistinctFiles(files) && |bufs| == |files| == |opens| && Distinct(bufs)
    requires chunk >= 4 && chunk % 4 == 0
    requires forall i :: 0 <= i < |files| ==> files[i].pos == 0 && chunk <= bufs[i].Length
    modifies files, bufs, out
    ensures r == Some(ErrorFileOpen) <==> false in opens
    ensures r == Some(ErrorOutputFile) <==> !outOpens && false !in opens
    ensures r == Some(ErrorFileSize) <==> outOpens && false !in opens && !SameLength(Contents(files))
    ensures r in {Some(ErrorFileOpen), Some(ErrorOutputFile), Some(ErrorFileSize)} ==> out.content == old(out.content)
    ensures r == Some(Right) ==> SameLength(Contents(files)) && out.content == old(out.content) + XorAll(Contents(files))
    ensures r.Some? && outOpens && false !in opens && SameLength(Contents(files)) ==>
              r.value == if TailStops(files[0].content) then ErrorXorFile else Right
    ensures r == Some(ErrorXorFile) ==>
              SameLength(Contents(files)) && out.content == old(out.content) + Overshot(files[0].content, XorAll(Contents(files)), chunk)
    ensures false in opens || !outOpens || !SameLength(Contents(files)) ==> r.Some?
    ensures rounds >= RoundsLeft(|files[0].content|, chunk) && (|files[0].content| >= 4 || !TailStops(files[0].content)) ==> r.Some?
  {
    for i := 0 to |files|
      invariant forall j :: 0 <= j < i ==> opens[j]
    {
      if !opens[i] {
        return Some(ErrorFileOpen);
      }
    }
    if !outOpens {
      return Some(ErrorOutputFile);
    }
    var same := EqualSizes(files);
    if !same {
      return Some(ErrorFileSize);
    }
    assert forall i :: 0 <= i < |files| ==> Contents(files)[i] == files[i].content;
    r := XorFiles(files, bufs, out, |files[0].content|, chunk, rounds);
  }
}
