/** Chopping a CSV line into columns and removing the quotes, in place in the line buffer. */
module CsvColumns {
  import opened Segments
  import opened LineReader

  const SEP: byte := 44
  const QUOTE: byte := 34

  // --- Where a column ends ---

  /**
   * End of the first column of t[i..]: the first separator outside quotes, or the end of the text. A quote inside a
   * column turns the quoting on or off wherever it stands. None where the text ends inside quotes.
   */
  function ColumnEnd(t: seq<byte>, i: nat, quoted: bool): (r: Option<nat>)
    requires i <= |t|
    ensures r.Some? ==> i <= r.value <= |t|
    decreases |t| - i
  {
    if i == |t| then if quoted then None else Some(i)
    else if t[i] == SEP && !quoted then Some(i)
    else ColumnEnd(t, i + 1, quoted != (t[i] == QUOTE))
  }

  function Quotes(t: seq<byte>): nat {
    if t == [] then 0 else Quotes(t[..|t| - 1]) + if t[|t| - 1] == QUOTE then 1 else 0
  }

  /** Position i is outside quotes: an even number of quotes stands before it. */
  predicate Outside(t: seq<byte>, i: nat)
    requires i <= |t|
  {
    Quotes(t[..i]) % 2 == 0
  }

  lemma OutsideNext(t: seq<byte>, i: nat)
    requires i < |t|
    ensures Outside(t, i + 1) <==> (Outside(t, i) <==> t[i] != QUOTE)
  {
    assert t[..i + 1][..i] == t[..i];
  }

  /** A place where the first column can end. */
  predicate Boundary(t: seq<byte>, i: nat)
    requires i <= |t|
  {
    Outside(t, i) && (i == |t| || t[i] == SEP)
  }

  /** The column ends at the first separator, or end of text, with an even number of quotes before it. */
  lemma {:induction false} ColumnEndIsFirstBoundary(t: seq<byte>, i: nat)
    requires i <= |t|
    ensures var r := ColumnEnd(t, i, !Outside(t, i));
      && (r.None? ==> forall k :: i <= k <= |t| ==> !Boundary(t, k))
      && (r.Some? ==> Boundary(t, r.value) && forall k :: i <= k < r.value ==> !Boundary(t, k))
    decreases |t| - i
  {
    if i < |t| && !(t[i] == SEP && Outside(t, i)) {
      OutsideNext(t, i);
      ColumnEndIsFirstBoundary(t, i + 1);
    }
  }

  /** A column that stands between an opened quote and nothing else keeps its separators. */
  lemma {:induction false} ColumnEndOfPrefix(t: seq<byte>, rest: seq<byte>, i: nat, quoted: bool)
    requires i <= |t|
    requires rest == [] || rest[0] == SEP
    ensures ColumnEnd(t, i, quoted) == Some(|t|) ==> ColumnEnd(t + rest, i, quoted) == Some(|t|)
    decreases |t| - i
  {
    if i < |t| && !(t[i] == SEP && !quoted) {
      ColumnEndOfPrefix(t, rest, i + 1, quoted != (t[i] == QUOTE));
    }
  }

  // --- Quoting ---

  function Undouble(s: seq<byte>): (r: seq<byte>)
    ensures |r| <= |s|
  {
    if s == [] then []
    else if s[0] == QUOTE && |s| > 1 && s[1] == QUOTE then [QUOTE] + Undouble(s[2..])
    else [s[0]] + Undouble(s[1..])
  }

  function Unescape(column: seq<byte>): seq<byte> {
    if |column| >= 2 && column[0] == QUOTE && column[|column| - 1] == QUOTE then Undouble(column[1..|column| - 1])
    else column
  }

  lemma UndoubleAtQuote(b: seq<byte>)
    ensures Undouble([QUOTE, QUOTE] + b) == [QUOTE] + Undouble(b)
    ensures b == [] || b[0] != QUOTE ==> Undouble([QUOTE] + b) == [QUOTE] + Undouble(b)
  {
    assert ([QUOTE, QUOTE] + b)[2..] == b && ([QUOTE] + b)[1..] == b;
  }

  lemma UndoubleElsewhere(c: byte, rest: seq<byte>)
    requires c != QUOTE
    ensures Undouble([c] + rest) == [c] + Undouble(rest)
  {
    assert ([c] + rest)[1..] == rest;
  }

  lemma FirstOff(a: seq<byte>, b: seq<byte>)
    requires a != []
    ensures a == [a[0]] + a[1..] && a + b == [a[0]] + (a[1..] + b)
  {
  }

  /**
   * What undoubling does: nothing without quotes; of two quotes that meet, one goes; and a quote on its own stays.
   */
  lemma {:induction false} UndoubleIs(a: seq<byte>, b: seq<byte>)
    requires QUOTE !in a
    ensures Undouble(a) == a
    ensures Undouble(a + ([QUOTE, QUOTE] + b)) == a + ([QUOTE] + Undouble(b))
    ensures b == [] || b[0] != QUOTE ==> Undouble(a + ([QUOTE] + b)) == a + ([QUOTE] + Undouble(b))
    decreases |a|
  {
    UndoubleAtQuote(b);
    if a == [] {
      assert a + ([QUOTE, QUOTE] + b) == [QUOTE, QUOTE] + b && a + ([QUOTE] + b) == [QUOTE] + b;
      assert a + ([QUOTE] + Undouble(b)) == [QUOTE] + Undouble(b);
    } else {
      assert a[0] in a;
      UndoubleIs(a[1..], b);
      hide Undouble;
      FirstOff(a, [QUOTE, QUOTE] + b);
      FirstOff(a, [QUOTE] + b);
      FirstOff(a, [QUOTE] + Undouble(b));
      UndoubleElsewhere(a[0], a[1..]);
      UndoubleElsewhere(a[0], a[1..] + ([QUOTE, QUOTE] + b));
      UndoubleElsewhere(a[0], a[1..] + ([QUOTE] + b));
    }
  }

  /** Every quote twice. */
  function Double(s: seq<byte>): seq<byte> {
    if s == [] then [] else (if s[0] == QUOTE then [QUOTE, QUOTE] else [s[0]]) + Double(s[1..])
  }

  /** A field in double quotes, as section 2 of RFC 4180 writes it. */
  function Quoted(field: seq<byte>): seq<byte> {
    [QUOTE] + Double(field) + [QUOTE]
  }

  lemma {:induction false} UndoubleDouble(s: seq<byte>)
    ensures Undouble(Double(s)) == s
  {
    if s != [] {
      UndoubleDouble(s[1..]);
      var d := Double(s);
      if s[0] == QUOTE {
        assert d[2..] == Double(s[1..]);
      } else {
        assert d[1..] == Double(s[1..]);
      }
    }
  }

  lemma UnescapeQuoted(field: seq<byte>)
    ensures Unescape(Quoted(field)) == field
  {
    assert Quoted(field)[1..|Quoted(field)| - 1] == Double(field);
    UndoubleDouble(field);
  }

  /** Inside the quotes nothing ends the column before the closing quote. */
  lemma {:induction false} ColumnEndOfDoubled(before: seq<byte>, field: seq<byte>)
    ensures var t := before + Double(field) + [QUOTE];
      ColumnEnd(t, |before|, true) == Some(|t|)
    decreases |field|
  {
    var t := before + Double(field) + [QUOTE];
    if field != [] {
      var head := if field[0] == QUOTE then [QUOTE, QUOTE] else [field[0]];
      assert t == (before + head) + Double(field[1..]) + [QUOTE];
      ColumnEndOfDoubled(before + head, field[1..]);
      assert t[|before|] == head[0];
      assert field[0] == QUOTE ==> t[|before| + 1] == QUOTE;
    }
  }

  lemma ColumnEndOfQuoted(field: seq<byte>, rest: seq<byte>)
    requires rest == [] || rest[0] == SEP
    ensures ColumnEnd(Quoted(field) + rest, 0, false) == Some(|Quoted(field)|)
  {
    ColumnEndOfDoubled([QUOTE], field);
    var t := Quoted(field);
    assert ColumnEnd(t, 0, false) == ColumnEnd(t, 1, true);
    ColumnEndOfPrefix(t, rest, 0, false);
  }

  // --- A whole line ---

  datatype ParseError = TooFewColumns | TooManyColumns | EscapedStringNotClosed
  datatype Parsed = Cells(cells: seq<seq<byte>>) | Failure(error: ParseError)

  /** The line behind a column that ended at n. */
  function Behind(t: seq<byte>, n: nat): Option<seq<byte>>
    requires n <= |t|
  {
    if n == |t| then None else Some(t[n + 1..])
  }

  /** Exactly count columns; None is the exhausted line. */
  function Columns(line: Option<seq<byte>>, count: nat): (r: Parsed)
    ensures r.Cells? ==> |r.cells| == count
    decreases count
  {
    if count == 0 then if line.None? then Cells([]) else Failure(TooManyColumns)
    else if line.None? then Failure(TooFewColumns)
    else
      var end := ColumnEnd(line.value, 0, false);
      if end.None? then Failure(EscapedStringNotClosed)
      else
        var rest := Columns(Behind(line.value, end.value), count - 1);
        if rest.Failure? then rest else Cells([Unescape(line.value[..end.value])] + rest.cells)
  }

  /** A field with the way it is written: in quotes, or as it stands. */
  datatype Cell = Cell(text: seq<byte>, quoted: bool)

  /** Only a field without separators and quotes can be written as it stands. */
  predicate Legible(cell: Cell) {
    cell.quoted || (SEP !in cell.text && QUOTE !in cell.text)
  }

  function Written(cell: Cell): seq<byte> {
    if cell.quoted then Quoted(cell.text) else cell.text
  }

  lemma {:induction false} ColumnEndOfPlain(text: seq<byte>, i: nat)
    requires SEP !in text && QUOTE !in text && i <= |text|
    ensures ColumnEnd(text, i, false) == Some(|text|)
    decreases |text| - i
  {
    if i < |text| {
      assert text[i] in text;
      ColumnEndOfPlain(text, i + 1);
    }
  }

  lemma ColumnEndOfWritten(cell: Cell, rest: seq<byte>)
    requires Legible(cell) && (rest == [] || rest[0] == SEP)
    ensures ColumnEnd(Written(cell) + rest, 0, false) == Some(|Written(cell)|)
  {
    if cell.quoted {
      ColumnEndOfQuoted(cell.text, rest);
    } else {
      ColumnEndOfPlain(cell.text, 0);
      ColumnEndOfPrefix(cell.text, rest, 0, false);
    }
  }

  lemma UnescapeWritten(cell: Cell)
    requires Legible(cell)
    ensures Unescape(Written(cell)) == cell.text
  {
    if cell.quoted { UnescapeQuoted(cell.text); }
  }

  lemma WrittenColumn(cell: Cell, rest: seq<byte>, count: nat)
    requires Legible(cell) && (rest == [] || rest[0] == SEP)
    ensures var tail := Columns(if rest == [] then None else Some(rest[1..]), count);
      Columns(Some(Written(cell) + rest), count + 1) ==
        if tail.Failure? then tail else Cells([cell.text] + tail.cells)
  {
    var w := Written(cell);
    ColumnEndOfWritten(cell, rest);
    UnescapeWritten(cell);
    assert (w + rest)[..|w|] == w;
    assert rest != [] ==> (w + rest)[|w| + 1..] == rest[1..];
  }

  predicate AllLegible(cells: seq<Cell>) {
    cells != [] && forall i :: 0 <= i < |cells| ==> Legible(cells[i])
  }

  function Row(cells: seq<Cell>): seq<byte>
    requires cells != []
    decreases |cells|
  {
    if |cells| == 1 then Written(cells[0]) else Written(cells[0]) + [SEP] + Row(cells[1..])
  }

  function Texts(cells: seq<Cell>): seq<seq<byte>> {
    seq(|cells|, i requires 0 <= i < |cells| => cells[i].text)
  }

  /** What a line of these cells gives a reader that expects so many columns. */
  function Outcome(fields: seq<seq<byte>>, count: nat): Parsed {
    if count == |fields| then Cells(fields)
    else Failure(if count < |fields| then TooManyColumns else TooFewColumns)
  }

  lemma OneMoreColumn(cell: Cell, line: seq<byte>, fields: seq<seq<byte>>, count: nat)
    requires Legible(cell) && Columns(Some(line), count) == Outcome(fields, count)
    ensures Columns(Some(Written(cell) + [SEP] + line), count + 1) == Outcome([cell.text] + fields, count + 1)
  {
    WrittenColumn(cell, [SEP] + line, count);
    assert ([SEP] + line)[1..] == line;
    assert Written(cell) + ([SEP] + line) == Written(cell) + [SEP] + line;
  }

  lemma OneColumn(cell: Cell, count: nat)
    requires Legible(cell)
    ensures Columns(Some(Written(cell)), count) == Outcome([cell.text], count)
  {
    if count > 0 {
      WrittenColumn(cell, [], count - 1);
      assert Written(cell) + [] == Written(cell);
    }
  }

  lemma TextsCons(cells: seq<Cell>)
    requires cells != []
    ensures Texts(cells) == [cells[0].text] + Texts(cells[1..])
  {
  }

  /**
   * Any fields, each in quotes or as it stands, come back when they are joined by commas; any other expected number of
   * columns is reported.
   */
  lemma {:induction false} RowRoundTrip(cells: seq<Cell>, count: nat)
    requires AllLegible(cells)
    ensures Columns(Some(Row(cells)), count) == Outcome(Texts(cells), count)
    decreases |cells|
  {
    TextsCons(cells);
    if |cells| == 1 {
      OneColumn(cells[0], count);
      assert Texts(cells) == [cells[0].text];
    } else if count > 0 {
      RowRoundTrip(cells[1..], count - 1);
      OneMoreColumn(cells[0], Row(cells[1..]), Texts(cells[1..]), count - 1);
    }
  }

  function Unclosed(open: seq<byte>): seq<byte> {
    [QUOTE] + open
  }

  lemma RowCons(cells: seq<Cell>, rest: seq<byte>)
    requires cells != []
    ensures Row(cells) + rest == Written(cells[0]) + if |cells| == 1 then rest else [SEP] + (Row(cells[1..]) + rest)
  {
  }

  lemma MoreToParse(cell: Cell, line: seq<byte>, count: nat)
    requires Legible(cell) && Columns(Some(line), count).Failure?
    ensures Columns(Some(Written(cell) + ([SEP] + line)), count + 1) == Columns(Some(line), count)
  {
    WrittenColumn(cell, [SEP] + line, count);
    assert ([SEP] + line)[1..] == line;
  }

  lemma NothingIsExpected(line: seq<byte>)
    ensures Columns(Some(line), 0) == Failure(TooManyColumns)
  {
  }

  lemma UnclosedAlone(open: seq<byte>, count: nat)
    requires QUOTE !in open
    ensures Columns(Some(Unclosed(open)), count)
         == Failure(if count == 0 then TooManyColumns else EscapedStringNotClosed)
  {
    UnclosedColumn(open, 1);
  }

  /** Behind any fields, a quote that is not closed is reported, unless fewer columns are expected. */
  lemma {:induction false} UnclosedIsReported(cells: seq<Cell>, open: seq<byte>, count: nat)
    requires AllLegible(cells) && QUOTE !in open
    ensures Columns(Some(Row(cells) + ([SEP] + Unclosed(open))), count)
         == Failure(if count <= |cells| then TooManyColumns else EscapedStringNotClosed)
    decreases |cells|
  {
    var rest := [SEP] + Unclosed(open);
    assert Legible(cells[0]);
    assert |cells| > 1 ==> AllLegible(cells[1..]);
    RowCons(cells, rest);
    hide Columns, Unclosed, Row, Written, AllLegible, Legible;
    if count == 0 {
      NothingIsExpected(Row(cells) + rest);
    } else if |cells| == 1 {
      UnclosedAlone(open, count - 1);
      MoreToParse(cells[0], Unclosed(open), count - 1);
    } else {
      UnclosedIsReported(cells[1..], open, count - 1);
      MoreToParse(cells[0], Row(cells[1..]) + rest, count - 1);
    }
  }

  lemma {:induction false} UnclosedColumn(open: seq<byte>, i: nat)
    requires QUOTE !in open && 1 <= i <= |open| + 1
    ensures ColumnEnd([QUOTE] + open, i, true) == None
    ensures ColumnEnd([QUOTE] + open, 0, false) == ColumnEnd([QUOTE] + open, 1, true)
    decreases |open| + 1 - i
  {
    if i <= |open| {
      assert ([QUOTE] + open)[i] in open;
      UnclosedColumn(open, i + 1);
    }
  }

  // --- Lines in general ---

  function Joined(columns: seq<seq<byte>>): seq<byte>
    requires columns != []
    decreases |columns|
  {
    if |columns| == 1 then columns[0] else columns[0] + [44] + Joined(columns[1..])
  }

  predicate Surrounded(column: seq<byte>) {
    |column| >= 2 && column[0] == 34 && column[|column| - 1] == 34
  }

  /** The cell of a column: what it is, but for a column that both begins and ends with a quote. */
  predicate CellOf(cell: seq<byte>, column: seq<byte>) {
    if Surrounded(column) then cell == Undouble(column[1..|column| - 1]) else cell == column
  }

  ghost predicate CutInto(line: seq<byte>, columns: seq<seq<byte>>, cells: seq<seq<byte>>) {
    && |columns| == |cells| > 0 && Joined(columns) == line
    && (forall j :: 0 <= j < |columns| ==> ColumnEnd(columns[j], 0, false) == Some(|columns[j]|))
    && (forall j :: 0 <= j < |columns| ==> CellOf(cells[j], columns[j]))
  }

  lemma CutsMore(column: seq<byte>, line: seq<byte>, columns: seq<seq<byte>>, cell: seq<byte>, cells: seq<seq<byte>>)
    requires CutInto(line, columns, cells)
    requires ColumnEnd(column, 0, false) == Some(|column|) && CellOf(cell, column)
    ensures CutInto(column + [SEP] + line, [column] + columns, [cell] + cells)
  {
    hide ColumnEnd, CellOf;
    JoinedCons(column, columns);
    forall j | 0 <= j < |columns| + 1
      ensures ColumnEnd(([column] + columns)[j], 0, false) == Some(|([column] + columns)[j]|)
      ensures CellOf(([cell] + cells)[j], ([column] + columns)[j])
    {
      if j > 0 {
        assert ([column] + columns)[j] == columns[j - 1] && ([cell] + cells)[j] == cells[j - 1];
      }
    }
  }

  lemma JoinedCons(column: seq<byte>, columns: seq<seq<byte>>)
    requires columns != []
    ensures Joined([column] + columns) == column + [SEP] + Joined(columns)
  {
    assert ([column] + columns)[1..] == columns;
  }

  /** A line that parses is its first column alone, or that column, a separator and a line that parses. */
  lemma FirstColumn(line: seq<byte>, count: nat)
    requires Columns(Some(line), count).Cells?
    ensures ColumnEnd(line, 0, false).Some? && count > 0
    ensures var n, cells := ColumnEnd(line, 0, false).value, Columns(Some(line), count).cells;
      if n == |line| then cells == [Unescape(line)]
      else line == line[..n] + [SEP] + line[n + 1..] && Columns(Some(line[n + 1..]), count - 1).Cells?
           && cells == [Unescape(line[..n])] + Columns(Some(line[n + 1..]), count - 1).cells
  {
    var n := ColumnEnd(line, 0, false).value;
    ColumnAlone(line, 0, false);
    if n == |line| {
      assert line[..n] == line;
    } else {
      assert line == line[..n] + [line[n]] + line[n + 1..];
    }
  }

  lemma CellOfColumn(column: seq<byte>)
    ensures CellOf(Unescape(column), column)
  {
  }

  lemma OnlyColumn(line: seq<byte>)
    requires ColumnEnd(line, 0, false) == Some(|line|)
    ensures CutInto(line, [line], [Unescape(line)])
  {
    CellOfColumn(line);
    hide ColumnEnd, Unescape, CellOf;
  }

  /**
   * However a line is written: if it parses, it is cut into columns that joined by commas are the line again, and a
   * column that does not both begin and end with a quote is the cell as it stands.
   */
  lemma {:induction false} CutsLine(line: seq<byte>, count: nat)
    requires Columns(Some(line), count).Cells?
    ensures exists columns :: CutInto(line, columns, Columns(Some(line), count).cells)
    decreases count
  {
    hide *;
    FirstColumn(line, count);
    ColumnAlone(line, 0, false);
    var n := ColumnEnd(line, 0, false).value;
    if n == |line| {
      OnlyColumn(line);
    } else {
      CutsLine(line[n + 1..], count - 1);
      var cells := Columns(Some(line[n + 1..]), count - 1).cells;
      var columns :| CutInto(line[n + 1..], columns, cells);
      CellOfColumn(line[..n]);
      CutsMore(line[..n], line[n + 1..], columns, Unescape(line[..n]), cells);
    }
  }

  /** The first column, taken alone, ends at its end. */
  lemma {:induction false} ColumnAlone(t: seq<byte>, i: nat, quoted: bool)
    requires i <= |t| && ColumnEnd(t, i, quoted).Some?
    ensures var n := ColumnEnd(t, i, quoted).value;
      ColumnEnd(t[..n], i, quoted) == Some(n) && (n < |t| ==> t[n] == SEP)
    decreases |t| - i
  {
    if i < |t| && !(t[i] == SEP && !quoted) {
      ColumnAlone(t, i + 1, quoted != (t[i] == QUOTE));
    }
  }

  // --- The same in the buffer ---

  /** The buffer holds the C string at the position. */
  predicate Holds(buffer: seq<byte>, at: nat, text: seq<byte>) {
    && at + |text| < |buffer|
    && buffer[at..at + |text|] == text
    && buffer[at + |text|] == NUL
    && NUL !in text
  }

  lemma ByteAt(buffer: seq<byte>, at: nat, text: seq<byte>, i: nat)
    requires Holds(buffer, at, text) && i <= |text|
    ensures buffer[at + i] == if i < |text| then text[i] else NUL
    ensures i < |text| ==> text[i] != NUL
  {
    assert i < |text| ==> buffer[at..at + |text|][i] == buffer[at + i];
  }

  function Sum(base: nat, offset: Option<nat>): Option<nat> {
    if offset.None? then None else Some(base + offset.value)
  }

  /** From an opening quote to behind the closing one; a doubled quote opens the next quoted part at once. */
  method SkipQuoted(buffer: array<byte>, open: nat, colBegin: nat, ghost text: seq<byte>) returns (behind: Option<nat>)
    requires Holds(buffer[..], colBegin, text)
    requires colBegin <= open < colBegin + |text| && text[open - colBegin] == QUOTE
    ensures behind.None? ==> ColumnEnd(text, open - colBegin, false).None?
    ensures behind.Some? ==>
        && open < behind.value <= colBegin + |text|
        && ColumnEnd(text, behind.value - colBegin, false) == ColumnEnd(text, open - colBegin, false)
  {
    ghost var target := ColumnEnd(text, open - colBegin, false);
    var p := open;
    var again := true;
    while again
      invariant open <= p <= colBegin + |text|
      invariant ColumnEnd(text, p - colBegin, false) == target
      invariant again ==> p < colBegin + |text| && text[p - colBegin] == QUOTE
      invariant !again ==> open < p
      decreases colBegin + |text| - p, again
    {
      p := p + 1;
      ByteAt(buffer[..], colBegin, text, p - colBegin);
      while buffer[p] != QUOTE
        invariant open < p <= colBegin + |text|
        invariant ColumnEnd(text, p - colBegin, true) == target
        invariant buffer[p] == if p < colBegin + |text| then text[p - colBegin] else NUL
        decreases colBegin + |text| - p
      {
        if buffer[p] == NUL {
          assert p == colBegin + |text| by { ByteAt(buffer[..], colBegin, text, p - colBegin); }
          return None;
        }
        p := p + 1;
        ByteAt(buffer[..], colBegin, text, p - colBegin);
      }
      p := p + 1;
      ByteAt(buffer[..], colBegin, text, p - colBegin);
      again := buffer[p] == QUOTE;
    }
    return Some(p);
  }

  /** find_next_column_end of the double_quote_escape policy; None is its exception. */
  method FindNextColumnEnd(buffer: array<byte>, colBegin: nat, ghost text: seq<byte>) returns (end: Option<nat>)
    requires Holds(buffer[..], colBegin, text)
    ensures end == Sum(colBegin, ColumnEnd(text, 0, false))
  {
    ghost var target := ColumnEnd(text, 0, false);
    var p := colBegin;
    ByteAt(buffer[..], colBegin, text, 0);
    while buffer[p] != SEP && buffer[p] != NUL
      invariant colBegin <= p <= colBegin + |text| && ColumnEnd(text, p - colBegin, false) == target
      invariant buffer[p] == if p < colBegin + |text| then text[p - colBegin] else NUL
      decreases colBegin + |text| - p
    {
      if buffer[p] != QUOTE {
        p := p + 1;
        ByteAt(buffer[..], colBegin, text, p - colBegin);
      } else {
        var behind := SkipQuoted(buffer, p, colBegin, text);
        if behind.None? { return None; }
        p := behind.value;
        ByteAt(buffer[..], colBegin, text, p - colBegin);
      }
    }
    return Some(p);
  }

  /** The column [begin, end) of the text that starts at begin, once it is cut off. */
  lemma CutText(buffer: seq<byte>, begin: nat, text: seq<byte>, n: nat)
    requires Holds(buffer, begin, text) && n <= |text|
    ensures Holds(buffer[begin + n := NUL], begin, text[..n])
    ensures n < |text| ==> Holds(buffer[begin + n := NUL], begin + n + 1, text[n + 1..])
  {
    var after := buffer[begin + n := NUL];
    assert after[begin..begin + n] == buffer[begin..begin + |text|][..n];
    if n < |text| {
      assert after[begin + n + 1..begin + |text|] == buffer[begin..begin + |text|][n + 1..];
    }
  }

  lemma HoldsStays(before: seq<byte>, after: seq<byte>, at: nat, text: seq<byte>)
    requires Holds(before, at, text) && |after| == |before|
    requires forall k :: at <= k < |after| ==> after[k] == before[k]
    ensures Holds(after, at, text)
  {
    assert after[at..at + |text|] == before[at..at + |text|];
  }

  /** chop_next_column: cuts the first column off the line. */
  method ChopNextColumn(buffer: array<byte>, line: nat, ghost text: seq<byte>)
    returns (end: Option<nat>, next: Option<nat>)
    requires Holds(buffer[..], line, text)
    modifies buffer
    ensures end == Sum(line, ColumnEnd(text, 0, false))
    ensures end.None? ==> buffer[..] == old(buffer[..])
    ensures end.Some? ==>
        && buffer[..] == old(buffer[..])[end.value := NUL]
        && Holds(buffer[..], line, text[..end.value - line])
        && (if end.value == line + |text| then next.None?
            else next == Some(end.value + 1) && Holds(buffer[..], next.value, text[end.value - line + 1..]))
  {
    end := FindNextColumnEnd(buffer, line, text);
    next := None;
    if end.Some? {
      ByteAt(buffer[..], line, text, end.value - line);
      CutText(buffer[..], line, text, end.value - line);
      if buffer[end.value] != NUL {
        buffer[end.value] := NUL;
        next := Some(end.value + 1);
      }
    }
  }

  /** What is still to be written starts with the next byte, and one of two quotes is skipped. */
  lemma UndoubleStep(before: seq<byte>, i: nat, last: nat, target: seq<byte>, n: nat)
    requires i < last <= |before| && n <= |target| && Undouble(before[i..last]) == target[n..]
    ensures var two := before[i] == QUOTE && i + 1 < last && before[i + 1] == QUOTE;
      n < |target| && target[n] == before[i] && Undouble(before[if two then i + 2 else i + 1..last]) == target[n + 1..]
  {
    var left := before[i..last];
    assert left[1..] == before[i + 1..last];
    assert target[n..][0] == target[n];
    assert target[n..][1..] == target[n + 1..];
    if i + 1 < last {
      assert left[1] == before[i + 1];
      assert left[2..] == before[i + 2..last];
    }
  }

  lemma NothingLeft(before: seq<byte>, last: nat)
    requires last <= |before|
    ensures Undouble(before[last..last]) == []
  {
  }

  /** Halves the quotes of [first, last), moving bytes down. */
  method UndoubleInPlace(buffer: array<byte>, first: nat, last: nat) returns (out: nat)
    requires first <= last <= buffer.Length
    modifies buffer
    ensures first <= out <= last && buffer[first..out] == Undouble(old(buffer[first..last]))
    ensures forall k :: 0 <= k < buffer.Length && !(first <= k < last) ==> buffer[k] == old(buffer[k])
  {
    hide *;
    ghost var before := buffer[..];
    ghost var target := Undouble(before[first..last]);
    out := first;
    var i := first;
    while i != last
      invariant first <= out <= i <= last && out - first <= |target|
      invariant Undouble(before[i..last]) == target[out - first..]
      invariant forall k :: first <= k < out ==> buffer[k] == target[k - first]
      invariant forall k :: 0 <= k < buffer.Length && !(first <= k < i) ==> buffer[k] == before[k]
      decreases last - i
    {
      UndoubleStep(before, i, last, target, out - first);
      if buffer[i] == QUOTE && i + 1 != last && buffer[i + 1] == QUOTE {
        i := i + 1;
      }
      buffer[out] := buffer[i];
      out := out + 1;
      i := i + 1;
    }
    NothingLeft(before, last);
    assert buffer[first..out] == target;
  }

  /** unescape: drops the outer quotes of [colBegin, colEnd) and halves the inner ones. */
  method UnescapeInPlace(buffer: array<byte>, colBegin: nat, colEnd: nat) returns (begin: nat, end: nat)
    requires colBegin <= colEnd < buffer.Length && buffer[colEnd] == NUL
    modifies buffer
    ensures colBegin <= begin <= end <= colEnd
    ensures buffer[begin..end] == Unescape(old(buffer[colBegin..colEnd])) && buffer[end] == NUL
    ensures forall k :: 0 <= k < buffer.Length && !(colBegin <= k < colEnd) ==> buffer[k] == old(buffer[k])
  {
    begin, end := colBegin, colEnd;
    if colEnd - colBegin >= 2 && buffer[colBegin] == QUOTE && buffer[colEnd - 1] == QUOTE {
      ghost var column := buffer[colBegin..colEnd];
      assert column[1..|column| - 1] == buffer[colBegin + 1..colEnd - 1];
      begin := begin + 1;
      end := UndoubleInPlace(buffer, begin, colEnd - 1);
      ghost var content := buffer[begin..end];
      buffer[end] := NUL;
      assert buffer[begin..end] == content;
    }
  }

  lemma {:induction false} UndoubleHasNo(s: seq<byte>, b: byte)
    requires b !in s
    ensures b !in Undouble(s)
  {
    if s != [] {
      assert s[0] in s;
      if s[0] == QUOTE && |s| > 1 && s[1] == QUOTE {
        UndoubleHasNo(s[2..], b);
      } else {
        UndoubleHasNo(s[1..], b);
      }
    }
  }

  lemma UnescapeHasNo(column: seq<byte>, b: byte)
    requires b !in column
    ensures b !in Unescape(column)
  {
    if Unescape(column) != column {
      UndoubleHasNo(column[1..|column| - 1], b);
    }
  }

  /** unescape on a column that is known as a text. */
  method UnescapeColumn(buffer: array<byte>, colBegin: nat, colEnd: nat, ghost column: seq<byte>) returns (begin: nat)
    requires Holds(buffer[..], colBegin, column) && colEnd == colBegin + |column|
    modifies buffer
    ensures colBegin <= begin && begin + |Unescape(column)| <= colEnd
    ensures Holds(buffer[..], begin, Unescape(column))
    ensures forall k :: 0 <= k < buffer.Length && !(colBegin <= k < colEnd) ==> buffer[k] == old(buffer[k])
  {
    var end;
    begin, end := UnescapeInPlace(buffer, colBegin, colEnd);
    UnescapeHasNo(column, NUL);
  }

  /** Unescaping a column that was cut off leaves the rest of the line alone. */
  method UnescapeChopped(buffer: array<byte>, colBegin: nat, colEnd: nat, ghost column: seq<byte>,
                         ghost next: Option<nat>, ghost rest: seq<byte>)
    returns (begin: nat)
    requires Holds(buffer[..], colBegin, column) && colEnd == colBegin + |column|
    requires next.Some? ==> next.value == colEnd + 1 && Holds(buffer[..], next.value, rest)
    modifies buffer
    ensures colBegin <= begin && begin + |Unescape(column)| <= colEnd
    ensures Holds(buffer[..], begin, Unescape(column))
    ensures next.Some? ==> Holds(buffer[..], next.value, rest)
    ensures forall k :: 0 <= k < buffer.Length && !(colBegin <= k < colEnd) ==> buffer[k] == old(buffer[k])
  {
    ghost var chopped := buffer[..];
    hide Unescape, Holds;
    begin := UnescapeColumn(buffer, colBegin, colEnd, column);
    if next.Some? { HoldsStays(chopped, buffer[..], next.value, rest); }
  }

  /** One round of parse_line: a column is cut off and, if it is wanted, unescaped. */
  method TakeColumn(buffer: array<byte>, line: nat, wanted: bool, ghost text: seq<byte>)
    returns (begin: Option<nat>, next: Option<nat>)
    requires Holds(buffer[..], line, text)
    modifies buffer
    ensures begin.Some? <==> ColumnEnd(text, 0, false).Some?
    ensures begin.Some? ==> var n := ColumnEnd(text, 0, false).value;
      && line <= begin.value
      && (wanted ==> Holds(buffer[..], begin.value, Unescape(text[..n])))
      && (wanted ==> begin.value + |Unescape(text[..n])| <= line + n)
      && (if n == |text| then next.None?
          else next == Some(line + n + 1) && Holds(buffer[..], next.value, text[n + 1..]))
    ensures forall k :: 0 <= k < buffer.Length && !(line <= k <= line + |text|) ==> buffer[k] == old(buffer[k])
  {
    var end: Option<nat>;
    end, next := ChopNextColumn(buffer, line, text);
    if end.None? { return None, None; }
    begin := Some(line);
    if wanted {
      ghost var n: nat := end.value - line;
      hide ColumnEnd, Unescape, Holds;
      var from := UnescapeChopped(buffer, line, end.value, text[..n], next, if n < |text| then text[n + 1..] else []);
      begin := Some(from);
    }
  }

  predicate Places(colOrder: seq<int>, n: nat) {
    forall i :: 0 <= i < |colOrder| ==> -1 <= colOrder[i] < n
  }

  /** The cell at j is wanted, and no later one of the first n goes to the same place. */
  predicate Last(colOrder: seq<int>, j: nat, n: nat)
    requires j < n <= |colOrder|
  {
    colOrder[j] != -1 && forall m :: j < m < n ==> colOrder[m] != colOrder[j]
  }

  lemma LastBefore(colOrder: seq<int>, j: nat, n: nat)
    requires j < n < |colOrder| && Last(colOrder, j, n + 1)
    ensures Last(colOrder, j, n) && colOrder[j] != colOrder[n]
  {
  }

  predicate CellAt(buffer: seq<byte>, place: Option<nat>, cell: seq<byte>, limit: nat) {
    place.Some? && Holds(buffer, place.value, cell) && place.value + |cell| < limit
  }

  lemma CellStays(before: seq<byte>, after: seq<byte>, place: Option<nat>, cell: seq<byte>, limit: nat, limit': nat)
    requires CellAt(before, place, cell, limit) && limit <= limit'
    requires |after| == |before| && forall k :: 0 <= k < limit && k < |after| ==> after[k] == before[k]
    ensures CellAt(after, place, cell, limit')
  {
    var at := place.value;
    assert after[at..at + |cell|] == before[at..at + |cell|];
  }

  /** Every wanted cell so far stands as a C string below the limit, where its pointer says. */
  predicate Stored(buffer: seq<byte>, sorted: seq<Option<nat>>, colOrder: seq<int>, done: seq<seq<byte>>, limit: nat)
    requires |done| <= |colOrder|
    requires Places(colOrder, |sorted|)
  {
    forall j :: 0 <= j < |done| && Last(colOrder, j, |done|) ==>
      CellAt(buffer, sorted[colOrder[j]], done[j], limit)
  }

  lemma StoredMore(before: seq<byte>, after: seq<byte>, sorted: seq<Option<nat>>, colOrder: seq<int>,
                   done: seq<seq<byte>>, limit: nat, at: nat, cell: seq<byte>, limit': nat)
    requires |done| < |colOrder| && Places(colOrder, |sorted|)
    requires Stored(before, sorted, colOrder, done, limit)
    requires |after| == |before| && forall k :: 0 <= k < limit && k < |after| ==> after[k] == before[k]
    requires limit <= limit'
    requires colOrder[|done|] != -1 ==> CellAt(after, Some(at), cell, limit')
    ensures var c := colOrder[|done|];
      Stored(after, if c == -1 then sorted else sorted[c := Some(at)], colOrder, done + [cell], limit')
  {
    var i := |done|;
    var c := colOrder[i];
    var sorted' := if c == -1 then sorted else sorted[c := Some(at)];
    var done' := done + [cell];
    forall j | 0 <= j < i && Last(colOrder, j, i + 1)
      ensures CellAt(after, sorted'[colOrder[j]], done'[j], limit')
    {
      LastBefore(colOrder, j, i);
      CellStays(before, after, sorted[colOrder[j]], done[j], limit, limit');
    }
  }

  function Prepend(done: seq<seq<byte>>, rest: Parsed): Parsed {
    if rest.Failure? then rest else Cells(done + rest.cells)
  }

  lemma ColumnsStep(text: seq<byte>, count: nat, done: seq<seq<byte>>)
    requires count > 0
    ensures var end := ColumnEnd(text, 0, false);
      Prepend(done, Columns(Some(text), count)) ==
        if end.None? then Failure(EscapedStringNotClosed)
        else Prepend(done + [Unescape(text[..end.value])], Columns(Behind(text, end.value), count - 1))
  {
    var end := ColumnEnd(text, 0, false);
    if end.Some? {
      var rest := Columns(Behind(text, end.value), count - 1);
      var cell := Unescape(text[..end.value]);
      assert rest.Cells? ==> done + ([cell] + rest.cells) == (done + [cell]) + rest.cells;
    }
  }

  /** The columns taken so far and what is left of the line. */
  datatype Progress = Progress(rest: Option<seq<byte>>, done: seq<seq<byte>>)

  /** Half way through the line: `cur` is the current line pointer, `end` the end of the whole line. */
  ghost predicate Parsing(buffer: seq<byte>, sorted: seq<Option<nat>>, colOrder: seq<int>, whole: Parsed, end: nat,
                          cur: Option<nat>, p: Progress) {
    && |p.done| <= |colOrder| && Places(colOrder, |sorted|)
    && whole == Prepend(p.done, Columns(p.rest, |colOrder| - |p.done|))
    && (cur.Some? <==> p.rest.Some?)
    && (cur.Some? ==> Holds(buffer, cur.value, p.rest.value) && cur.value + |p.rest.value| == end)
    && Stored(buffer, sorted, colOrder, p.done, if cur.Some? then cur.value else end + 1)
  }

  lemma ParsingStarts(buffer: seq<byte>, sorted: seq<Option<nat>>, colOrder: seq<int>, line: nat, text: seq<byte>)
    requires Holds(buffer, line, text) && Places(colOrder, |sorted|)
    ensures Parsing(buffer, sorted, colOrder, Columns(Some(text), |colOrder|), line + |text|, Some(line),
                    Progress(Some(text), []))
  {
    var whole := Columns(Some(text), |colOrder|);
    assert whole.Cells? ==> [] + whole.cells == whole.cells;
  }

  lemma ParsingEnds(buffer: seq<byte>, sorted: seq<Option<nat>>, colOrder: seq<int>, whole: Parsed, end: nat,
                    cur: Option<nat>, p: Progress)
    requires Parsing(buffer, sorted, colOrder, whole, end, cur, p)
    ensures cur.None? && |p.done| < |colOrder| ==> whole == Failure(TooFewColumns)
    ensures cur.Some? && |p.done| == |colOrder| ==> whole == Failure(TooManyColumns)
    ensures cur.None? && |p.done| == |colOrder| ==>
        whole == Cells(p.done) && Stored(buffer, sorted, colOrder, p.done, end + 1)
  {
    assert p.done + [] == p.done;
  }

  /** The next column goes where the column order says. */
  method StoreColumn(buffer: array<byte>, line: nat, sortedCol: array<Option<nat>>, colOrder: seq<int>, i: nat,
                     ghost whole: Parsed, ghost end: nat, ghost p: Progress)
    returns (closed: bool, next: Option<nat>, ghost p': Progress)
    requires Parsing(buffer[..], sortedCol[..], colOrder, whole, end, Some(line), p)
    requires i == |p.done| < |colOrder|
    modifies buffer, sortedCol
    ensures !closed ==> whole == Failure(EscapedStringNotClosed)
    ensures closed ==> |p'.done| == i + 1 && Parsing(buffer[..], sortedCol[..], colOrder, whole, end, next, p')
  {
    hide Columns, ColumnEnd, Unescape, Stored;
    ghost var text, before, sorted := p.rest.value, buffer[..], sortedCol[..];
    p' := p;
    var begin: Option<nat>;
    ColumnsStep(text, |colOrder| - i, p.done);
    begin, next := TakeColumn(buffer, line, colOrder[i] != -1, text);
    if begin.None? { return false, None, p; }
    ghost var n := ColumnEnd(text, 0, false).value;
    p' := Progress(Behind(text, n), p.done + [Unescape(text[..n])]);
    StoredMore(before, buffer[..], sorted, colOrder, p.done, line, begin.value, Unescape(text[..n]), line + n + 1);
    if colOrder[i] != -1 {
      sortedCol[colOrder[i]] := begin;
      assert sortedCol[..] == sorted[colOrder[i] := begin];
    }
    closed := true;
  }

  /**
   * parse_line with the double_quote_escape policy and no characters to trim: column i goes to place colOrder[i],
   * or nowhere for -1. None is success.
   */
  method ParseLine(buffer: array<byte>, line: nat, sortedCol: array<Option<nat>>, colOrder: seq<int>,
                   ghost text: seq<byte>)
    returns (error: Option<ParseError>)
    requires Holds(buffer[..], line, text)
    requires Places(colOrder, sortedCol.Length)
    modifies buffer, sortedCol
    ensures var parsed := Columns(Some(text), |colOrder|);
      if parsed.Failure? then error == Some(parsed.error)
      else error.None? && Stored(buffer[..], sortedCol[..], colOrder, parsed.cells, line + |text| + 1)
  {
    ghost var whole, end := Columns(Some(text), |colOrder|), line + |text|;
    ghost var p := Progress(Some(text), []);
    ParsingStarts(buffer[..], sortedCol[..], colOrder, line, text);
    var cur: Option<nat> := Some(line);
    var i := 0;
    while i < |colOrder|
      invariant i == |p.done| <= |colOrder|
      invariant Parsing(buffer[..], sortedCol[..], colOrder, whole, end, cur, p)
    {
      ParsingEnds(buffer[..], sortedCol[..], colOrder, whole, end, cur, p);
      if cur.None? { return Some(TooFewColumns); }
      var closed: bool;
      closed, cur, p := StoreColumn(buffer, cur.value, sortedCol, colOrder, i, whole, end, p);
      if !closed { return Some(EscapedStringNotClosed); }
      i := i + 1;
    }
    ParsingEnds(buffer[..], sortedCol[..], colOrder, whole, end, cur, p);
    error := if cur.Some? then Some(TooManyColumns) else None;
  }

  // --- A whole table ---

  lemma {:induction false} DoubleHasNo(s: seq<byte>, b: byte)
    requires b !in s && b != QUOTE
    ensures b !in Double(s)
  {
    if s != [] {
      assert s[0] in s;
      DoubleHasNo(s[1..], b);
    }
  }

  lemma WrittenHasNo(cell: Cell, b: byte)
    requires b !in cell.text && b != QUOTE
    ensures b !in Written(cell)
  {
    if cell.quoted { DoubleHasNo(cell.text, b); }
  }

  lemma {:induction false} RowHasNo(row: seq<Cell>, b: byte)
    requires row != [] && b != QUOTE && b != SEP
    requires forall i :: 0 <= i < |row| ==> b !in row[i].text
    ensures b !in Row(row)
    decreases |row|
  {
    WrittenHasNo(row[0], b);
    if |row| > 1 {
      RowHasNo(row[1..], b);
    }
  }

  lemma {:induction false} LastOfRow(row: seq<Cell>)
    requires row != [] && !(row[|row| - 1].quoted) ==> RETURN !in row[|row| - 1].text
    requires row != []
    ensures Row(row) == [] || Row(row)[|Row(row)| - 1] != RETURN
    decreases |row|
  {
    if |row| > 1 {
      assert row[1..][|row| - 2] == row[|row| - 1];
      LastOfRow(row[1..]);
    } else if Row(row) != [] {
      assert Row(row)[|Row(row)| - 1] in Row(row);
    }
  }

  /** No NUL, no newline, and no carriage return that would stand at the end of the line. */
  predicate Writable(row: seq<Cell>) {
    && AllLegible(row)
    && (forall i :: 0 <= i < |row| ==> NUL !in row[i].text && NEWLINE !in row[i].text)
    && (row[|row| - 1].quoted || RETURN !in row[|row| - 1].text)
  }

  function Rows(table: seq<seq<Cell>>): seq<seq<byte>>
    requires forall i :: 0 <= i < |table| ==> Writable(table[i])
  {
    seq(|table|, i requires 0 <= i < |table| && Writable(table[i]) => Row(table[i]))
  }

  /** A row as the line reader hands it out. */
  lemma RowLine(row: seq<Cell>)
    requires Writable(row)
    ensures Handed(Row(row)) == Row(row) && NEWLINE !in Row(row)
  {
    RowHasNo(row, NUL);
    RowHasNo(row, NEWLINE);
    LastOfRow(row);
    WholeCString(Row(row));
  }

  /**
   * A table written behind a BOM, or without one and not starting like one: the file's lines are the rows, and each
   * parses to the fields it was written from.
   */
  lemma TableRoundTrip(table: seq<seq<Cell>>, bom: bool)
    requires forall i :: 0 <= i < |table| ==> Writable(table[i])
    requires bom || !([0xEF, 0xBB, 0xBF] <= Unlines(Rows(table)))
    ensures var file := (if bom then [0xEF, 0xBB, 0xBF] else []) + Unlines(Rows(table));
      CLines(RawLines(SkipBom(file))) == Rows(table)
    ensures forall i :: 0 <= i < |table| ==> Columns(Some(Rows(table)[i]), |table[i]|) == Cells(Texts(table[i]))
  {
    var rows := Rows(table);
    forall i | 0 <= i < |table|
      ensures Handed(rows[i]) == rows[i] && NEWLINE !in rows[i]
      ensures Columns(Some(rows[i]), |table[i]|) == Cells(Texts(table[i]))
    {
      RowLine(table[i]);
      RowRoundTrip(table[i], |table[i]|);
    }
    JoinThenSplit(rows);
    assert CLines(rows) == rows;
    BomIsSkipped(Unlines(rows));
  }
}
