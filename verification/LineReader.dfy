/** The block-rotating line reader of the CSV library against splitting the whole file. */
module LineReader {
  import opened Segments

  const NUL: byte := 0
  const NEWLINE: byte := 10
  const RETURN: byte := 13

  // --- Splitting a whole file ---

  /** Length of the first line: up to the first newline, or everything. */
  function LineEnd(s: seq<byte>): (n: nat)
    ensures n <= |s|
  {
    if s == [] || s[0] == NEWLINE then 0 else 1 + LineEnd(s[1..])
  }

  lemma {:induction false} LineEndIs(s: seq<byte>)
    ensures forall i :: 0 <= i < LineEnd(s) ==> s[i] != NEWLINE
    ensures LineEnd(s) < |s| ==> s[LineEnd(s)] == NEWLINE
    decreases |s|
  {
    if s != [] && s[0] != NEWLINE {
      LineEndIs(s[1..]);
      assert forall i :: 1 <= i < LineEnd(s) ==> s[i] == s[1..][i - 1];
    }
  }

  /** A Windows line end loses its carriage return. */
  function StripReturn(line: seq<byte>): seq<byte> {
    if line != [] && line[|line| - 1] == RETURN then line[..|line| - 1] else line
  }

  /** What is behind the first line and its newline. */
  function Rest(s: seq<byte>): seq<byte>
  {
    if LineEnd(s) < |s| then s[LineEnd(s) + 1..] else []
  }

  function FirstOf(s: seq<byte>): seq<byte> {
    s[..LineEnd(s)]
  }

  function RawLines(s: seq<byte>): seq<seq<byte>>
    decreases |s|
  {
    if s == [] then [] else [FirstOf(s)] + RawLines(Rest(s))
  }

  function Unlines(lines: seq<seq<byte>>): seq<byte>
    decreases |lines|
  {
    if lines == [] then [] else lines[0] + [NEWLINE] + Unlines(lines[1..])
  }

  /** The file ends in a newline (or is empty). */
  predicate Terminated(s: seq<byte>) {
    s == [] || s[|s| - 1] == NEWLINE
  }

  /** The first line of a text, its newline and the rest. */
  lemma FirstLine(line: seq<byte>, rest: seq<byte>)
    requires NEWLINE !in line
    ensures LineEnd(line + [NEWLINE] + rest) == |line|
    ensures Rest(line + [NEWLINE] + rest) == rest
  {
    var s := line + [NEWLINE] + rest;
    var n := LineEnd(s);
    LineEndIs(s);
    assert s[|line|] == NEWLINE;
    assert forall i :: 0 <= i < |line| ==> s[i] == line[i];
    assert n == |line|;
  }

  lemma FirstRaw(line: seq<byte>, rest: seq<byte>)
    requires NEWLINE !in line
    ensures RawLines(line + [NEWLINE] + rest) == [line] + RawLines(rest)
  {
    FirstLine(line, rest);
    assert (line + [NEWLINE] + rest)[..|line|] == line;
  }

  lemma UnlinesCons(line: seq<byte>, lines: seq<seq<byte>>)
    ensures Unlines([line] + lines) == line + [NEWLINE] + Unlines(lines)
  {
    assert ([line] + lines)[1..] == lines;
  }

  /** Splitting loses nothing: the lines, each followed by a newline, make up the file. */
  lemma {:induction false} SplitThenJoin(s: seq<byte>)
    requires Terminated(s)
    ensures Unlines(RawLines(s)) == s
    decreases |s|
  {
    if s != [] {
      var n := LineEnd(s);
      LineEndIs(s);
      var line, rest := s[..n], Rest(s);
      assert s == line + [NEWLINE] + rest by {
        assert s[|s| - 1] == NEWLINE;
      }
      assert Terminated(rest);
      SplitThenJoin(rest);
      UnlinesCons(line, RawLines(rest));
      assert RawLines(s) == [line] + RawLines(rest);
    }
  }

  /** And it splits nowhere else: newline-free lines come back as they are. */
  lemma {:induction false} JoinThenSplit(lines: seq<seq<byte>>)
    requires forall l :: l in lines ==> NEWLINE !in l
    ensures RawLines(Unlines(lines)) == lines
    ensures Terminated(Unlines(lines))
    decreases |lines|
  {
    if lines != [] {
      var line, rest := lines[0], Unlines(lines[1..]);
      FirstLine(line, rest);
      JoinThenSplit(lines[1..]);
      var s := line + [NEWLINE] + rest;
      assert s[..|line|] == line;
      assert RawLines(s) == [line] + RawLines(rest);
    }
  }

  /** The byte behind the data at the end: not written yet, or written when the block before the last was read. */
  function Behind(file: seq<byte>, blockLen: nat, memory: seq<byte>): byte
    requires |memory| == 3 * blockLen > 0
  {
    if |file| < 3 * blockLen then memory[|file|] else file[|file| - blockLen]
  }

  /** The same with data up to `end` in the buffer and the rest of the file still to be read. */
  function Past(buffer: seq<byte>, end: nat, source: seq<byte>, blockLen: nat): byte
    requires |buffer| == 3 * blockLen > 0 && end <= 2 * blockLen
  {
    if end < 2 * blockLen then buffer[end]
    else if |source| < blockLen then buffer[2 * blockLen + |source|]
    else source[|source| - blockLen]
  }

  const BOM: seq<byte> := [0xEF, 0xBB, 0xBF]

  function SkipBom(file: seq<byte>): seq<byte> {
    if BOM <= file then file[3..] else file
  }

  /** A BOM is skipped, and nothing else is. */
  lemma BomIsSkipped(text: seq<byte>)
    ensures SkipBom([0xEF, 0xBB, 0xBF] + text) == text
    ensures !([0xEF, 0xBB, 0xBF] <= text) ==> SkipBom([] + text) == text
  {
    assert [] + text == text;
  }

  /** A line as a C string: it ends at the first NUL. */
  function CString(line: seq<byte>): seq<byte> {
    if line == [] || line[0] == NUL then [] else [line[0]] + CString(line[1..])
  }

  /** What stands behind the first NUL does not matter. */
  lemma {:induction false} CStringStops(s: seq<byte>, line: seq<byte>)
    requires |line| < |s| && s[..|line|] == line && s[|line|] == NUL
    ensures CString(s) == CString(line)
    decreases |line|
  {
    if line != [] {
      assert s[0] == s[..|line|][0];
      assert s[1..][..|line| - 1] == line[1..];
      CStringStops(s[1..], line[1..]);
    }
  }

  /** What a client sees of a line. */
  function Handed(line: seq<byte>): seq<byte> {
    CString(StripReturn(line))
  }

  function CLines(raw: seq<seq<byte>>): seq<seq<byte>> {
    seq(|raw|, i requires 0 <= i < |raw| => Handed(raw[i]))
  }

  // --- Line ends ---

  /** The lines, each followed by a newline, or by a carriage return and a newline. */
  function WithLineEnds(lines: seq<seq<byte>>, windows: bool): seq<byte>
    decreases |lines|
  {
    if lines == [] then [] else lines[0] + (if windows then [13, 10] else [10]) + WithLineEnds(lines[1..], windows)
  }

  /** What stands before the newlines. */
  function Bodies(lines: seq<seq<byte>>, windows: bool): seq<seq<byte>> {
    seq(|lines|, i requires 0 <= i < |lines| => if windows then lines[i] + [13] else lines[i])
  }

  lemma {:induction false} EndsAreNewlines(lines: seq<seq<byte>>, windows: bool)
    ensures WithLineEnds(lines, windows) == Unlines(Bodies(lines, windows))
    decreases |lines|
  {
    if lines != [] {
      EndsAreNewlines(lines[1..], windows);
      assert Bodies(lines, windows)[1..] == Bodies(lines[1..], windows);
      assert windows ==> lines[0] + [13, 10] == lines[0] + [13] + [10];
    }
  }

  lemma {:induction false} WholeCString(line: seq<byte>)
    requires NUL !in line
    ensures CString(line) == line
  {
    if line != [] {
      assert line[0] in line;
      WholeCString(line[1..]);
    }
  }

  /** A C string is what stands before the first NUL, or everything. */
  lemma {:induction false} CStringExactly(s: seq<byte>)
    ensures var n := |CString(s)|;
      n <= |s| && CString(s) == s[..n] && 0 !in s[..n] && (n < |s| ==> s[n] == 0)
  {
    if s != [] && s[0] != NUL {
      CStringExactly(s[1..]);
      var n := |CString(s[1..])|;
      assert s[..n + 1] == [s[0]] + s[1..][..n];
    }
  }

  /** A carriage return at the end, and nothing else, is gone. */
  predicate WithoutReturn(line: seq<byte>, handed: seq<byte>) {
    line == handed + [13] || (line == handed && (line == [] || line[|line| - 1] != 13))
  }

  lemma HandedLine(line: seq<byte>)
    requires NUL !in line
    ensures WithoutReturn(line, Handed(line))
  {
    WholeCString(line);
    WholeCString(StripReturn(line));
  }

  lemma HandedWithReturn(line: seq<byte>)
    requires NUL !in line
    ensures Handed(line + [13]) == line
  {
    assert (line + [13])[..|line|] == line;
    WholeCString(line);
  }

  lemma BodiesHaveNoNewline(lines: seq<seq<byte>>, windows: bool)
    requires forall i :: 0 <= i < |lines| ==> NEWLINE !in lines[i]
    ensures forall l :: l in Bodies(lines, windows) ==> NEWLINE !in l
  {
    var bodies := Bodies(lines, windows);
    forall l | l in bodies ensures NEWLINE !in l {
      var i :| 0 <= i < |bodies| && bodies[i] == l;
      assert NEWLINE !in lines[i];
    }
  }

  lemma HandedOut(lines: seq<seq<byte>>, windows: bool, bom: bool)
    requires forall i :: 0 <= i < |lines| ==> NEWLINE !in lines[i]
    requires bom || !([0xEF, 0xBB, 0xBF] <= WithLineEnds(lines, windows))
    ensures CLines(RawLines(SkipBom((if bom then [0xEF, 0xBB, 0xBF] else []) + WithLineEnds(lines, windows))))
         == CLines(Bodies(lines, windows))
  {
    EndsAreNewlines(lines, windows);
    BomIsSkipped(WithLineEnds(lines, windows));
    BodiesHaveNoNewline(lines, windows);
    JoinThenSplit(Bodies(lines, windows));
    hide *;
  }

  /**
   * Lines without NUL and newline, written with the line ends of Windows, are handed out as they are; written with
   * newlines alone, each loses its carriage return if it ends in one. A BOM in front is skipped.
   */
  lemma LineEndsGo(lines: seq<seq<byte>>, windows: bool, bom: bool)
    requires forall i :: 0 <= i < |lines| ==> 0 !in lines[i] && 10 !in lines[i]
    requires bom || !([0xEF, 0xBB, 0xBF] <= WithLineEnds(lines, windows))
    ensures var file := (if bom then [0xEF, 0xBB, 0xBF] else []) + WithLineEnds(lines, windows);
      var handed := CLines(RawLines(SkipBom(file)));
      && |handed| == |lines| && (windows ==> handed == lines)
      && (!windows ==> forall i :: 0 <= i < |lines| ==> WithoutReturn(lines[i], handed[i]))
  {
    HandedOut(lines, windows, bom);
    hide RawLines, SkipBom, WithLineEnds, Handed, WithoutReturn;
    forall i | 0 <= i < |lines|
      ensures if windows then Handed(lines[i] + [13]) == lines[i] else WithoutReturn(lines[i], Handed(lines[i]))
    {
      if windows { HandedWithReturn(lines[i]); } else { HandedLine(lines[i]); }
    }
  }

  lemma LineAlone(line: seq<byte>)
    requires line != [] && NEWLINE !in line
    ensures RawLines(line) == [line]
  {
    LineEndIs(line);
    assert line[..|line|] == line;
    assert RawLines([]) == [];
  }

  lemma FirstOfLines(lines: seq<seq<byte>>, last: seq<byte>)
    requires lines != []
    ensures Unlines(lines) + last == lines[0] + [NEWLINE] + (Unlines(lines[1..]) + last)
    ensures lines + [last] == [lines[0]] + (lines[1..] + [last])
  {
  }

  /** A last line needs no newline. */
  lemma {:induction false} LastLineNeedsNoEnd(lines: seq<seq<byte>>, last: seq<byte>)
    requires last != [] && NEWLINE !in last && forall i :: 0 <= i < |lines| ==> NEWLINE !in lines[i]
    ensures RawLines(Unlines(lines) + last) == lines + [last]
    decreases |lines|
  {
    if lines == [] {
      LineAlone(last);
      assert Unlines(lines) + last == last;
    } else {
      assert NEWLINE !in lines[0];
      hide *;
      LastLineNeedsNoEnd(lines[1..], last);
      FirstOfLines(lines, last);
      FirstRaw(lines[0], Unlines(lines[1..]) + last);
    }
  }

  lemma LineInBuffer(buffer: seq<byte>, source: seq<byte>, begin: nat, lineEnd: nat, end: nat)
    requires begin <= lineEnd <= end <= |buffer|
    ensures (buffer[begin..end] + source)[..lineEnd - begin] == buffer[begin..lineEnd]
  {
  }

  /** A line is cut off the data and what stands up to its end is overwritten. */
  lemma LineTaken(before: seq<byte>, after: seq<byte>, source: seq<byte>, blockLen: nat, begin: nat, cut: nat, end: nat)
    requires |before| == |after| == 3 * blockLen > 0 && begin < cut <= end <= 2 * blockLen
    requires after[cut..] == before[cut..]
    ensures after[cut..end] + source == (before[begin..end] + source)[cut - begin..]
    ensures cut < end ==> Past(after, end, source, blockLen) == Past(before, end, source, blockLen)
  {
    var tail := before[cut..];
    assert after[cut..end] == tail[..end - cut] == before[cut..end];
    if cut < end {
      var i := if end < 2 * blockLen then end else 2 * blockLen + |source|;
      if i < 3 * blockLen {
        assert after[cut..][i - cut] == before[cut..][i - cut];
      }
    }
  }

  lemma SliceOfPrefix(s: seq<byte>, n: nat, begin: nat, end: nat)
    requires begin <= end <= n <= |s|
    ensures s[..n][begin..end] == s[begin..end]
  {
  }

  /** What the reader holds once `n` bytes stand in the third block and the block is moved down. */
  lemma Refilled(before: seq<byte>, after: seq<byte>, source: seq<byte>, blockLen: nat, begin: nat, end: nat, n: nat)
    requires |before| == |after| == 3 * blockLen && begin <= end <= blockLen && (end < blockLen ==> source == [])
    requires n <= |source| && n <= blockLen && (n < blockLen ==> n == |source|)
    requires after[..blockLen] == before[..blockLen]
    requires after[blockLen..blockLen + n] == source[..n]
    requires after[blockLen + n..2 * blockLen] == before[2 * blockLen + n..]
    ensures after[begin..end + n] + source[n..] == before[begin..end] + source
    ensures end + n < 2 * blockLen ==>
        after[end + n] == if end < blockLen then before[end] else before[2 * blockLen + |source|]
  {
    SliceOfPrefix(after, blockLen, begin, end);
    SliceOfPrefix(before, blockLen, begin, end);
    if end < blockLen {
      assert after[..blockLen][end] == before[..blockLen][end];
    } else if n < blockLen {
      assert after[blockLen + n] == after[blockLen + n..2 * blockLen][0] == before[2 * blockLen + n];
    }
    if n > 0 {
      assert after[begin..end + n] == after[begin..end] + after[blockLen..blockLen + n];
    }
  }

  lemma SkipBomIs(head: seq<byte>, source: seq<byte>)
    requires |head| < 3 ==> source == []
    ensures SkipBom(head + source) ==
        (if |head| >= 3 && head[0] == 0xEF && head[1] == 0xBB && head[2] == 0xBF then head[3..] else head) + source
  {
    var file := head + source;
    assert |head| >= 3 ==> file[0] == head[0] && file[1] == head[1] && file[2] == head[2];
    assert |head| >= 3 ==> file[3..] == head[3..] + source;
    assert BOM <= file <==> |file| >= 3 && file[0] == 0xEF && file[1] == 0xBB && file[2] == 0xBF;
  }

  /** What stands behind the data at the end is settled when the first two blocks have been read. */
  lemma PastIsBehind(file: seq<byte>, blockLen: nat, memory: seq<byte>, buffer: seq<byte>, n: nat)
    requires |memory| == |buffer| == 3 * blockLen > 0
    requires n <= 2 * blockLen && n <= |file| && (n < 2 * blockLen ==> n == |file|)
    requires buffer[n..] == memory[n..]
    ensures Past(buffer, n, file[n..], blockLen) == Behind(file, blockLen, memory)
  {
    assert buffer[n] == buffer[n..][0] == memory[n];
    var i := 2 * blockLen + (|file| - n);
    if i < |memory| {
      assert buffer[i] == buffer[n..][i - n] == memory[i];
    }
  }

  /** After the first two blocks were read: what is left is the file without its BOM, and what will stand behind it. */
  lemma AfterFirstRead(file: seq<byte>, blockLen: nat, memory: seq<byte>, buffer: seq<byte>, n: nat, begin: nat)
    requires |memory| == 3 * blockLen >= 6
    requires n <= 2 * blockLen && n <= |file| && (n < 2 * blockLen ==> n == |file|)
    requires buffer == file[..n] + memory[n..]
    requires begin == if n >= 3 && buffer[0] == 0xEF && buffer[1] == 0xBB && buffer[2] == 0xBF then 3 else 0
    ensures buffer[begin..n] + file[n..] == SkipBom(file)
    ensures Past(buffer, n, file[n..], blockLen) == Behind(file, blockLen, memory)
  {
    hide SkipBom, Past, Behind;
    var head := file[..n];
    BeforeAndBehind(head, memory[n..]);
    PastIsBehind(file, blockLen, memory, buffer, n);
    SliceOfPrefix(buffer, n, begin, n);
    assert file == head + file[n..];
    SkipBomIs(head, file[n..]);
  }

  lemma BeforeAndBehind(a: seq<byte>, b: seq<byte>)
    ensures (a + b)[..|a|] == a && (a + b)[|a|..] == b
  {
  }

  // --- The reader ---

  datatype Result = EndOfFile | LineLengthLimitExceeded | Line(ptr: nat)

  class Reader {
    const blockLen: nat
    const buffer: array<byte>
    var dataBegin: nat
    var dataEnd: nat
    var fileLine: nat
    var readerValid: bool
    /** What the byte source has not delivered yet. */
    var source: seq<byte>

    ghost predicate Valid()
      reads this, buffer
    {
      && blockLen >= 2 && buffer.Length == 3 * blockLen
      && (InBlocks() || (dataBegin == dataEnd <= buffer.Length && source == []))
    }

    /** There may be more to read. */
    ghost predicate InBlocks()
      reads this
    {
      && dataBegin <= dataEnd <= 2 * blockLen && dataBegin < 2 * blockLen
      && (dataEnd < 2 * blockLen || !readerValid ==> source == [])
      && (dataEnd == 2 * blockLen ==> readerValid)
    }

    /** The byte that stands behind the data once the source is used up: left over, or never written. */
    ghost function PastByte(): byte
      requires Valid() && dataBegin < dataEnd
      reads this, buffer
    {
      Past(buffer[..], dataEnd, source, blockLen)
    }

    /** Behind the end of the data: the next call fails its assertion. */
    ghost predicate Overrun()
      reads this
    {
      dataBegin == dataEnd + 1
    }

    ghost function Remaining(): seq<byte>
      requires Valid()
      reads this, buffer
    {
      buffer[dataBegin..dataEnd] + source
    }

    /** ByteSource::read: only the end of the source makes it return less than asked. */
    method Read(offset: nat, count: nat) returns (n: nat)
      requires offset + count <= buffer.Length
      modifies buffer, this`source
      ensures n == if |old(source)| < count then |old(source)| else count
      ensures source == old(source)[n..]
      ensures forall i :: offset <= i < offset + n ==> buffer[i] == old(source)[i - offset]
      ensures forall i :: 0 <= i < buffer.Length && !(offset <= i < offset + n) ==> buffer[i] == old(buffer[i])
    {
      n := if |source| < count then |source| else count;
      forall i | 0 <= i < n { buffer[offset + i] := source[i]; }
      source := source[n..];
    }

    /** memcpy of one block. */
    method CopyBlock(to: nat, from: nat)
      requires to + blockLen <= from && from + blockLen <= buffer.Length
      modifies buffer
      ensures forall i :: to <= i < to + blockLen ==> buffer[i] == old(buffer[from + (i - to)])
      ensures forall i :: 0 <= i < buffer.Length && !(to <= i < to + blockLen) ==> buffer[i] == old(buffer[i])
    {
      forall i | 0 <= i < blockLen { buffer[to + i] := buffer[from + i]; }
    }

    /** The buffer is made of memory with arbitrary contents. */
    constructor (file: seq<byte>, blockLen: nat, memory: seq<byte>)
      requires blockLen >= 2 && |memory| == 3 * blockLen
      ensures Valid() && fresh(buffer) && this.blockLen == blockLen
      ensures Remaining() == SkipBom(file) && fileLine == 0
      ensures Remaining() != [] ==> PastByte() == Behind(file, blockLen, memory)
    {
      this.blockLen := blockLen;
      buffer := new byte[3 * blockLen](i requires 0 <= i < |memory| => memory[i]);
      dataBegin, dataEnd, fileLine, readerValid := 0, 0, 0, false;
      source := file;
      new;
      assert buffer[..] == memory;
      ReadFirst(memory);
    }

    /** Reads the first two blocks. */
    method ReadTwo() returns (n: nat)
      requires buffer.Length == 3 * blockLen
      modifies this`source, buffer
      ensures n == if |old(source)| < 2 * blockLen then |old(source)| else 2 * blockLen
      ensures source == old(source)[n..]
      ensures buffer[..] == old(source)[..n] + old(buffer[..])[n..]
    {
      n := Read(0, 2 * blockLen);
    }

    /** Reads two blocks and steps over a BOM. */
    method ReadFirst(ghost memory: seq<byte>)
      requires buffer.Length == 3 * blockLen >= 6 && buffer[..] == memory && dataBegin == 0 && !readerValid
      modifies this`dataBegin, this`dataEnd, this`readerValid, this`source, buffer
      ensures Valid() && Remaining() == SkipBom(old(source))
      ensures Remaining() != [] ==> PastByte() == Behind(old(source), blockLen, memory)
    {
      ghost var file := source;
      dataEnd := ReadTwo();
      hide SkipBom, Behind, Past;
      if dataEnd >= 3 && buffer[0] == 0xEF && buffer[1] == 0xBB && buffer[2] == 0xBF {
        dataBegin := 3;
      }
      if dataEnd == 2 * blockLen { readerValid := true; }
      AfterFirstRead(file, blockLen, memory, buffer[..], dataEnd, dataBegin);
      assert buffer[..][dataBegin..dataEnd] == buffer[dataBegin..dataEnd];
    }

    /** Reads the third block and moves it down to the second. */
    method ReadThird() returns (n: nat)
      requires buffer.Length == 3 * blockLen
      modifies this`source, buffer
      ensures n == if |old(source)| < blockLen then |old(source)| else blockLen
      ensures source == old(source)[n..]
      ensures buffer[..][..blockLen] == old(buffer[..])[..blockLen]
      ensures buffer[..][blockLen..blockLen + n] == buffer[2 * blockLen..2 * blockLen + n] == old(source)[..n]
      ensures buffer[..][blockLen + n..2 * blockLen] == old(buffer[..])[2 * blockLen + n..]
    {
      n := Read(2 * blockLen, blockLen);
      CopyBlock(blockLen, 2 * blockLen);
    }

    /** The third block joins the data, which ends where the second block ends only if the source goes on. */
    method Refill()
      requires buffer.Length == 3 * blockLen && readerValid
      requires dataBegin < dataEnd <= blockLen && (dataEnd < blockLen ==> source == [])
      modifies this`dataEnd, this`source, buffer
      ensures dataBegin < dataEnd <= 2 * blockLen && (dataEnd < 2 * blockLen ==> source == [])
      ensures buffer[dataBegin..dataEnd] + source == old(buffer[dataBegin..dataEnd] + source)
      ensures dataEnd < 2 * blockLen ==>
        buffer[dataEnd] == old(if dataEnd < blockLen then buffer[dataEnd] else buffer[2 * blockLen + |source|])
      ensures dataEnd == 2 * blockLen ==>
        && |old(source)| >= blockLen && source == old(source)[blockLen..]
        && buffer[2 * blockLen..] == old(source)[..blockLen]
    {
      ghost var before, unread, end := buffer[..], source, dataEnd;
      assert before[dataBegin..end] == buffer[dataBegin..end];
      var n := ReadThird();
      dataEnd := dataEnd + n;
      Refilled(before, buffer[..], unread, blockLen, dataBegin, end, n);
      assert buffer[..][dataBegin..dataEnd] == buffer[dataBegin..dataEnd];
    }

    /** Moves the second block down and the third up once the first is used up. */
    method Rotate()
      requires Valid() && dataBegin < dataEnd
      modifies this`dataBegin, this`dataEnd, this`source, buffer
      ensures Valid() && dataBegin < dataEnd && dataBegin < blockLen
      ensures Remaining() == old(Remaining())
      ensures PastByte() == old(PastByte())
    {
      if dataBegin >= blockLen {
        CopyBlock(0, blockLen);
        dataBegin := dataBegin - blockLen;
        dataEnd := dataEnd - blockLen;
        assert buffer[dataBegin..dataEnd] == old(buffer[dataBegin..dataEnd]);
        if readerValid {
          Refill();
        }
      }
    }

    /** Scans for the newline or the end of the data; it looks at the byte behind the data before it stops there. */
    method FindLineEnd() returns (lineEnd: nat)
      requires Valid() && dataBegin < dataEnd
      ensures dataBegin <= lineEnd <= dataEnd
      ensures lineEnd < dataEnd ==> buffer[lineEnd] == NEWLINE
      ensures NEWLINE !in buffer[dataBegin..lineEnd]
    {
      lineEnd := dataBegin;
      while buffer[lineEnd] != NEWLINE && lineEnd != dataEnd
        invariant dataBegin <= lineEnd <= dataEnd
        invariant NEWLINE !in buffer[dataBegin..lineEnd]
        decreases dataEnd - lineEnd
      {
        assert buffer[dataBegin..lineEnd + 1] == buffer[dataBegin..lineEnd] + [buffer[lineEnd]];
        lineEnd := lineEnd + 1;
      }
    }

    /** The scan agrees with the first line of everything that is left, or shows it to be too long. */
    lemma ScanIsLineEnd(lineEnd: nat)
      requires Valid() && dataBegin < blockLen && dataBegin <= lineEnd <= dataEnd
      requires lineEnd < dataEnd ==> buffer[lineEnd] == NEWLINE
      requires NEWLINE !in buffer[dataBegin..lineEnd]
      ensures lineEnd - dataBegin + 1 > blockLen <==> LineEnd(Remaining()) + 1 > blockLen
      ensures lineEnd - dataBegin + 1 <= blockLen ==> LineEnd(Remaining()) == lineEnd - dataBegin
    {
      var s, n := Remaining(), lineEnd - dataBegin;
      LineEndIs(s);
      assert buffer[dataBegin..lineEnd] == s[..n];
      assert forall i :: 0 <= i < n ==> s[i] == s[..n][i];
      assert LineEnd(s) >= n;
      if lineEnd < dataEnd {
        assert s[n] == buffer[lineEnd];
      } else {
        assert |s| == n + |source|;
        assert source != [] ==> dataEnd == 2 * blockLen;
      }
    }

    /** Writes the NUL over the newline and over a carriage return before it. */
    method TerminateLine(lineEnd: nat)
      requires dataBegin <= lineEnd < buffer.Length
      modifies buffer
      ensures buffer[..][lineEnd + 1..] == old(buffer[..])[lineEnd + 1..]
      ensures CString(buffer[dataBegin..]) == old(Handed(buffer[dataBegin..lineEnd]))
    {
      ghost var line := buffer[dataBegin..lineEnd];
      buffer[lineEnd] := NUL;
      if lineEnd != dataBegin && buffer[lineEnd - 1] == RETURN {
        buffer[lineEnd - 1] := NUL;
      }
      ghost var kept := StripReturn(line);
      assert buffer[dataBegin..][..|kept|] == kept;
      assert buffer[dataBegin..][|kept|] == NUL;
      CStringStops(buffer[dataBegin..], kept);
    }

    /** Hands out the scanned line and steps behind it. */
    method TakeLine(lineEnd: nat) returns (r: Result)
      requires Valid() && dataBegin < dataEnd && dataBegin <= lineEnd <= dataEnd
      requires lineEnd < dataEnd ==> buffer[lineEnd] == NEWLINE
      requires dataBegin < blockLen && lineEnd - dataBegin + 1 <= blockLen
      requires LineEnd(Remaining()) == lineEnd - dataBegin
      modifies this`dataBegin, this`dataEnd, buffer
      ensures r == Line(old(dataBegin)) && r.ptr < buffer.Length
      ensures CString(buffer[r.ptr..]) == Handed(old(Remaining())[..lineEnd - r.ptr])
      ensures lineEnd < old(dataEnd) ==> Valid() && Remaining() == old(Remaining())[lineEnd - r.ptr + 1..]
      ensures lineEnd < old(dataEnd) && dataBegin < dataEnd ==> PastByte() == old(PastByte())
      ensures lineEnd == old(dataEnd) && old(buffer[dataEnd]) == NEWLINE ==> Overrun()
      ensures lineEnd == old(dataEnd) && old(buffer[dataEnd]) != NEWLINE ==> Valid() && Remaining() == []
    {
      hide LineEnd, CString, StripReturn, Handed, Behind, Past;
      ghost var before := buffer[..];
      LineInBuffer(before, source, dataBegin, lineEnd, dataEnd);
      assert before[dataBegin..dataEnd] == buffer[dataBegin..dataEnd];
      assert before[dataBegin..lineEnd] == buffer[dataBegin..lineEnd];
      if buffer[lineEnd] != NEWLINE {
        dataEnd := dataEnd + 1;
      }
      TerminateLine(lineEnd);
      r := Line(dataBegin);
      dataBegin := lineEnd + 1;
      if lineEnd < old(dataEnd) {
        LineTaken(before, buffer[..], source, blockLen, old(dataBegin), dataBegin, dataEnd);
        assert buffer[..][dataBegin..dataEnd] == buffer[dataBegin..dataEnd];
      }
    }

    /**
     * next_line. A line that fits is handed out as a C string in the buffer and the rest of the file is what follows
     * it. Where the last line has no newline, the reader ends properly exactly if no newline happens to stand behind
     * it.
     */
    method NextLine() returns (r: Result)
      requires Valid()
      modifies this`dataBegin, this`dataEnd, this`fileLine, this`source, buffer
      ensures r.EndOfFile? <==> old(Remaining()) == []
      ensures fileLine == old(fileLine) + if r.EndOfFile? then 0 else 1
      ensures !r.Line? ==> Valid() && Remaining() == old(Remaining())
      ensures r.LineLengthLimitExceeded? <==> old(Remaining()) != [] && LineEnd(old(Remaining())) + 1 > blockLen
      ensures r.Line? ==>
          && r.ptr < buffer.Length
          && CString(buffer[r.ptr..]) == Handed(FirstOf(old(Remaining())))
      ensures r.Line? && LineEnd(old(Remaining())) < |old(Remaining())| ==>
          Valid() && Remaining() == Rest(old(Remaining())) && (dataBegin < dataEnd ==> PastByte() == old(PastByte()))
      ensures r.Line? && LineEnd(old(Remaining())) == |old(Remaining())| ==>
          if old(PastByte()) == NEWLINE then Overrun() else Valid() && Remaining() == []
    {
      if dataBegin == dataEnd { return EndOfFile; }
      NonEmpty();
      ghost var left, past := Remaining(), PastByte();
      fileLine := fileLine + 1;
      assert Valid() && Remaining() == left && PastByte() == past;
      hide *;
      Rotate();
      r := ScanLine();
    }

    lemma NonEmpty()
      requires Valid()
      ensures dataBegin < dataEnd <==> Remaining() != []
    {
    }

    /** A line that fits ends before the second block does. */
    lemma SourceGoesOn()
      requires Valid() && dataBegin < blockLen && dataBegin < dataEnd
      ensures LineEnd(Remaining()) == |Remaining()| && |Remaining()| < blockLen ==> dataEnd < 2 * blockLen
    {
    }

    /** next_line from the scan on. */
    method ScanLine() returns (r: Result)
      requires Valid() && dataBegin < dataEnd && dataBegin < blockLen
      modifies this`dataBegin, this`dataEnd, buffer
      ensures !r.EndOfFile?
      ensures r.LineLengthLimitExceeded? <==> LineEnd(old(Remaining())) + 1 > blockLen
      ensures r.LineLengthLimitExceeded? ==> Valid() && Remaining() == old(Remaining())
      ensures r.Line? ==> r.ptr < buffer.Length && CString(buffer[r.ptr..]) == Handed(FirstOf(old(Remaining())))
      ensures r.Line? && LineEnd(old(Remaining())) < |old(Remaining())| ==>
          Valid() && Remaining() == Rest(old(Remaining())) && (dataBegin < dataEnd ==> PastByte() == old(PastByte()))
      ensures r.Line? && LineEnd(old(Remaining())) == |old(Remaining())| ==>
          if old(PastByte()) == NEWLINE then Overrun() else Valid() && Remaining() == []
    {
      var lineEnd := FindLineEnd();
      ScanIsLineEnd(lineEnd);
      if lineEnd - dataBegin + 1 > blockLen { return LineLengthLimitExceeded; }
      FitsBefore(lineEnd);
      SourceGoesOn();
      hide CString, Handed, LineEnd, RawLines;
      r := TakeLine(lineEnd);
    }

    lemma FitsBefore(lineEnd: nat)
      requires Valid() && dataBegin < blockLen && dataBegin < dataEnd && dataBegin <= lineEnd <= dataEnd
      requires lineEnd - dataBegin + 1 <= blockLen && LineEnd(Remaining()) == lineEnd - dataBegin
      ensures lineEnd < dataEnd <==> LineEnd(Remaining()) < |Remaining()|
    {
      assert |Remaining()| == dataEnd - dataBegin + |source|;
    }
  }

  lemma CLinesSnoc(raw: seq<seq<byte>>, line: seq<byte>)
    ensures CLines(raw + [line]) == CLines(raw) + [Handed(line)]
  {
  }

  lemma RawLinesUnfold(s: seq<byte>)
    requires s != []
    ensures RawLines(s) == [FirstOf(s)] + RawLines(Rest(s))
  {
  }

  lemma HeadOfSuffix<T>(list: seq<T>, k: nat, head: T, tail: seq<T>)
    requires k <= |list| && list[k..] == [head] + tail
    ensures k < |list| && list[k] == head && list[k + 1..] == tail && list[..k + 1] == list[..k] + [head]
  {
    assert list[k] == list[k..][0];
    assert list[k + 1..] == list[k..][1..];
  }

  /** The lines read so far are the first ones of the file, and the rest is still to be split. */
  ghost predicate Progress(raw: seq<seq<byte>>, lines: seq<seq<byte>>, rest: seq<byte>, blockLen: nat) {
    && |lines| <= |raw|
    && lines == CLines(raw[..|lines|])
    && raw[|lines|..] == RawLines(rest)
    && forall i :: 0 <= i < |lines| ==> |raw[i]| < blockLen
  }

  lemma NextRaw(raw: seq<seq<byte>>, lines: seq<seq<byte>>, rest: seq<byte>, blockLen: nat)
    requires Progress(raw, lines, rest, blockLen) && rest != []
    ensures |lines| < |raw| && |raw[|lines|]| == LineEnd(rest)
    ensures LineEnd(rest) < blockLen ==> Progress(raw, lines + [Handed(FirstOf(rest))], Rest(rest), blockLen)
  {
    hide RawLines, LineEnd, CLines, Handed, Rest;
    var k := |lines|;
    RawLinesUnfold(rest);
    HeadOfSuffix(raw, k, FirstOf(rest), RawLines(Rest(rest)));
    CLinesSnoc(raw[..k], raw[k]);
    assert |lines + [Handed(FirstOf(rest))]| == k + 1;
  }

  lemma SuffixEnds(s: seq<byte>, k: nat)
    requires k <= |s|
    ensures if k == |s| then s[k..] == [] else s[k..][|s| - k - 1] == s[|s| - 1]
  {
  }

  /** A tail of a file that ends in a newline does so too; its first line has one. */
  lemma TerminatedRest(s: seq<byte>)
    requires s != []
    ensures Terminated(s) ==> LineEnd(s) < |s|
    ensures LineEnd(s) < |s| ==> (Terminated(Rest(s)) <==> Terminated(s))
    ensures LineEnd(s) == |s| ==> Rest(s) == []
  {
    hide LineEnd;
    LineEndIs(s);
    var n := LineEnd(s);
    if n < |s| { SuffixEnds(s, n + 1); }
  }

  /** How reading a file ends: after its last line, at a line too long for a block, or behind the end of the data. */
  datatype Outcome = Complete | TooLong | RanOver

  /**
   * The lines read from a file with the given lines, a newline at its end or none, and a byte behind the data: all of
   * them, or those before the first one too long. The reader runs over exactly if all lines fit, the file has no
   * newline at its end, and the byte that then stands behind the data is one.
   */
  ghost predicate Ended(raw: seq<seq<byte>>, lines: seq<seq<byte>>, outcome: Outcome, blockLen: nat, ends: bool,
    behind: byte)
  {
    && |lines| <= |raw|
    && lines == CLines(raw[..|lines|])
    && (forall i :: 0 <= i < |lines| ==> |raw[i]| < blockLen)
    && (if outcome == TooLong then |lines| < |raw| && |raw[|lines|]| >= blockLen else |lines| == |raw|)
    && (outcome == RanOver <==> |lines| == |raw| && !ends && behind == NEWLINE)
  }

  ghost predicate Reading(raw: seq<seq<byte>>, lines: seq<seq<byte>>, rest: seq<byte>, blockLen: nat, ends: bool,
    behind: byte)
  {
    && Progress(raw, lines, rest, blockLen)
    && if rest == [] then ends || behind != NEWLINE else Terminated(rest) <==> ends
  }

  lemma ReadingStarts(text: seq<byte>, blockLen: nat, behind: byte)
    ensures Reading(RawLines(text), [], text, blockLen, Terminated(text), behind)
  {
    assert RawLines(text)[0..] == RawLines(text);
  }

  lemma ReadingEnds(raw: seq<seq<byte>>, lines: seq<seq<byte>>, blockLen: nat, ends: bool, behind: byte)
    requires Reading(raw, lines, [], blockLen, ends, behind)
    ensures Ended(raw, lines, Complete, blockLen, ends, behind)
  {
    hide CLines;
  }

  /** One call of next_line: too long a line, one with a newline, or a last one without. */
  lemma ReadingGoesOn(raw: seq<seq<byte>>, lines: seq<seq<byte>>, rest: seq<byte>, blockLen: nat, ends: bool,
    behind: byte)
    requires Reading(raw, lines, rest, blockLen, ends, behind) && rest != []
    ensures |lines| < |raw|
    ensures LineEnd(rest) >= blockLen ==> Ended(raw, lines, TooLong, blockLen, ends, behind)
    ensures var more := lines + [Handed(FirstOf(rest))];
      LineEnd(rest) < blockLen ==>
        if LineEnd(rest) == |rest| && behind == NEWLINE then Ended(raw, more, RanOver, blockLen, ends, behind)
        else Reading(raw, more, Rest(rest), blockLen, ends, behind)
    ensures LineEnd(rest) == |rest| ==> Rest(rest) == []
  {
    NextRaw(raw, lines, rest, blockLen);
    TerminatedRest(rest);
    assert Terminated([]);
    hide CLines, LineEnd, Handed, Terminated, FirstOf;
    if LineEnd(rest) < blockLen {
      LinesAreAll(raw, lines + [Handed(FirstOf(rest))], Rest(rest), blockLen);
    }
  }

  lemma LinesAreAll(raw: seq<seq<byte>>, lines: seq<seq<byte>>, rest: seq<byte>, blockLen: nat)
    requires Progress(raw, lines, rest, blockLen)
    ensures rest == [] ==> |lines| == |raw|
  {
    hide CLines, LineEnd, Rest, FirstOf;
  }

  /** Reads a whole file line by line, as a client of the reader does. */
  method ReadAll(file: seq<byte>, blockLen: nat, memory: seq<byte>) returns (lines: seq<seq<byte>>, outcome: Outcome)
    requires blockLen >= 2 && |memory| == 3 * blockLen
    ensures var text := SkipBom(file);
      Ended(RawLines(text), lines, outcome, blockLen, Terminated(text), Behind(file, blockLen, memory))
  {
    hide RawLines, CLines, Handed, CString, LineEnd, FirstOf, Rest, SkipBom, Behind, Past;
    hide Progress, Reading, Ended, Terminated;
    var reader := new Reader(file, blockLen, memory);
    ghost var rest := SkipBom(file);
    ghost var raw, ends, behind := RawLines(rest), Terminated(rest), Behind(file, blockLen, memory);
    lines := [];
    ReadingStarts(rest, blockLen, behind);
    reader.NonEmpty();
    while true
      invariant reader.Valid() && fresh(reader) && fresh(reader.buffer) && reader.blockLen == blockLen
      invariant rest == reader.Remaining() && Reading(raw, lines, rest, blockLen, ends, behind)
      invariant reader.dataBegin < reader.dataEnd ==> reader.PastByte() == behind
      decreases |raw| - |lines|
    {
      reader.NonEmpty();
      if rest == [] {
        ReadingEnds(raw, lines, blockLen, ends, behind);
      } else {
        ReadingGoesOn(raw, lines, rest, blockLen, ends, behind);
      }
      var r := reader.NextLine();
      match r {
        case EndOfFile => return lines, Complete;
        case LineLengthLimitExceeded => return lines, TooLong;
        case Line(ptr) =>
          lines := lines + [CString(reader.buffer[ptr..])];
          rest := Rest(rest);
          if reader.dataBegin == reader.dataEnd + 1 { return lines, RanOver; }
      }
    }
  }
}
