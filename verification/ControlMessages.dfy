/** Control messages: decimal numbers on lines, printed and parsed by both sides. */
module ControlMessages {
  import opened Segments

  // --- Decimal numbers ---

  predicate IsDigit(c: char) { '0' <= c <= '9' }

  predicate AllDigits(s: string) {
    forall i :: 0 <= i < |s| ==> IsDigit(s[i])
  }

  function Decimal(n: nat): (s: string)
    ensures s != [] && AllDigits(s)
  {
    var last := '0' + (n % 10) as char;
    if n < 10 then [last] else Decimal(n / 10) + [last]
  }

  /** std::to_string, and Java's concatenation of an int. */
  function Print(n: int): (s: string)
    ensures s != []
  {
    if n < 0 then "-" + Decimal(-n) else Decimal(n)
  }

  function Magnitude(s: string): nat
    requires AllDigits(s)
  {
    if s == [] then 0
    else
      var last := s[|s| - 1];
      assert IsDigit(last);
      10 * Magnitude(s[..|s| - 1]) + (last as int - '0' as int)
  }

  lemma {:induction false} MagnitudeOfDecimal(n: nat)
    ensures Magnitude(Decimal(n)) == n
  {
    var s := Decimal(n);
    if n < 10 {
      assert s[..0] == [];
    } else {
      MagnitudeOfDecimal(n / 10);
      assert s[..|s| - 1] == Decimal(n / 10);
    }
  }

  function Signed(negative: bool, magnitude: int): int {
    if negative then -magnitude else magnitude
  }

  // --- strtol and its users ---

  predicate IsSpace(c: char) { c == ' ' || '\t' <= c <= '\r' }

  function SkipSpace(s: string): string {
    if s != [] && IsSpace(s[0]) then SkipSpace(s[1..]) else s
  }

  function LeadingDigits(s: string): (r: string)
    ensures AllDigits(r) && |r| <= |s|
  {
    if s != [] && IsDigit(s[0]) then [s[0]] + LeadingDigits(s[1..]) else []
  }

  /** Blanks, a sign, digits, and anything behind them; None where there is no digit. */
  function Scan(s: string): Option<int> {
    var t := SkipSpace(s);
    var signed := t != [] && (t[0] == '-' || t[0] == '+');
    var digits := LeadingDigits(if signed then t[1..] else t);
    if digits == [] then None else Some(Signed(signed && t[0] == '-', Magnitude(digits)))
  }

  const TWO_31: int := 0x8000_0000
  const TWO_32: int := 0x1_0000_0000
  const TWO_64: int := 0x1_0000_0000_0000_0000

  predicate IsInt32(n: int) { -TWO_31 <= n < TWO_31 }

  predicate IsUint32(n: int) { 0 <= n < TWO_32 }

  /** std::stoi; None stands for its exceptions. */
  function Stoi(s: string): Option<int> {
    var n := Scan(s);
    if n.Some? && IsInt32(n.value) then n else None
  }

  /** Values of unsigned long, which is 64 bits wide or 32 as on a 32-bit Raspberry Pi. */
  function UnsignedLongs(wide: bool): int {
    if wide then TWO_64 else TWO_32
  }

  /** std::stoul, which negates modulo the size of unsigned long, and the assignment to a uint32_t. */
  function Stoul(s: string, wide: bool): Option<int> {
    var n, size := Scan(s), UnsignedLongs(wide);
    if n.Some? && -size < n.value < size then Some((n.value % size) % TWO_32) else None
  }

  /** Integer.parseInt: a sign, digits, nothing else. */
  function ParseInt(s: string): Option<int> {
    var signed := s != [] && (s[0] == '-' || s[0] == '+');
    var digits := if signed then s[1..] else s;
    if digits == [] || !AllDigits(digits) then None
    else
      var n := Signed(signed && s[0] == '-', Magnitude(digits));
      if IsInt32(n) then Some(n) else None
  }

  lemma {:induction false} LeadingDigitsOf(digits: string, rest: string)
    requires AllDigits(digits)
    ensures LeadingDigits(digits + rest) == digits + LeadingDigits(rest)
  {
    if digits == [] {
      assert digits + rest == rest;
    } else {
      assert (digits + rest)[1..] == digits[1..] + rest;
      LeadingDigitsOf(digits[1..], rest);
      assert digits == [digits[0]] + digits[1..];
    }
  }

  /** What may stand behind a number. */
  predicate NoDigit(tail: string) {
    tail == [] || !IsDigit(tail[0])
  }

  lemma ScanStarts(s: string)
    requires s != [] && !IsSpace(s[0])
    ensures SkipSpace(s) == s
  {
  }

  lemma ScanDigits(digits: string, tail: string)
    requires digits != [] && AllDigits(digits)
    ensures AllDigits(digits + LeadingDigits(tail))
    ensures Scan(digits + tail) == Some(Signed(false, Magnitude(digits + LeadingDigits(tail))))
    ensures Scan("-" + (digits + tail)) == Some(Signed(true, Magnitude(digits + LeadingDigits(tail))))
  {
    var s := digits + tail;
    var negative := "-" + s;
    assert s[0] == digits[0] && IsDigit(digits[0]) && negative[1..] == s;
    hide Magnitude, LeadingDigits, SkipSpace;
    ScanStarts(s);
    ScanStarts(negative);
    LeadingDigitsOf(digits, tail);
  }

  function Absolute(n: int): nat {
    if n < 0 then -n else n
  }

  /** What a printed number becomes when digits stand behind it. */
  function WithDigits(n: int, digits: string): int
    requires AllDigits(digits)
  {
    Signed(n < 0, Magnitude(Decimal(Absolute(n)) + digits))
  }

  /** The C functions read a printed number together with the digits that stand behind it. */
  lemma ScanPrinted(n: int, tail: string)
    ensures Scan(Print(n) + tail) == Some(WithDigits(n, LeadingDigits(tail)))
  {
    var digits := Decimal(Absolute(n));
    hide Scan, Decimal, Magnitude;
    ScanDigits(digits, tail);
    assert "-" + digits + tail == "-" + (digits + tail);
  }

  lemma NoDigitsBehind(n: int)
    ensures WithDigits(n, []) == n
  {
    var digits := Decimal(Absolute(n));
    assert digits + [] == digits;
    MagnitudeOfDecimal(Absolute(n));
  }

  predicate Zeros(s: string) {
    forall i :: 0 <= i < |s| ==> s[i] == '0'
  }

  lemma {:induction false} MagnitudeOfZeros(s: string)
    requires AllDigits(s)
    ensures Magnitude(s) == 0 <==> Zeros(s)
  {
    if s != [] {
      var front := s[..|s| - 1];
      MagnitudeOfZeros(front);
      assert s == front + [s[|s| - 1]];
    }
  }

  /** Another digit makes a number ten times as large, at least. */
  lemma {:induction false} MoreDigits(s: string, more: string)
    requires AllDigits(s) && AllDigits(more)
    ensures AllDigits(s + more)
    ensures more != [] ==> Magnitude(s + more) >= 10 * Magnitude(s)
  {
    if more != [] {
      var front := more[..|more| - 1];
      assert (s + more)[..|s + more| - 1] == s + front;
      MoreDigits(s, front);
      assert s + [] == s;
    }
  }

  /** Digits behind a number change it, but for zeros behind a zero. */
  lemma DigitsChangeNumber(n: int, digits: string)
    requires AllDigits(digits)
    ensures WithDigits(n, digits) == n <==> digits == [] || (n == 0 && Zeros(digits))
  {
    var printed := Decimal(Absolute(n));
    NoDigitsBehind(n);
    MagnitudeOfDecimal(Absolute(n));
    MoreDigits(printed, digits);
    if n == 0 {
      assert printed == "0";
      MagnitudeOfZeros(printed + digits);
      assert Zeros(digits) <==> Zeros(printed + digits) by {
        assert forall i :: 0 <= i < |digits| ==> (printed + digits)[i + 1] == digits[i];
      }
    }
  }

  /** Java accepts a printed number exactly when it is an int. */
  lemma ParseIntPrinted(n: int)
    ensures ParseInt(Print(n)) == if IsInt32(n) then Some(n) else None
  {
    var s := Print(n);
    var digits := Decimal(if n < 0 then -n else n);
    assert IsDigit(digits[0]);
    MagnitudeOfDecimal(if n < 0 then -n else n);
    assert n < 0 ==> s[0] == '-' && s[1..] == digits;
  }

  // --- Lines ---

  function FirstNewline(s: string): (n: nat)
    ensures n <= |s|
  {
    if s == [] || s[0] == '\n' then 0 else 1 + FirstNewline(s[1..])
  }

  /** substr(0, find('\n')): the whole text where there is no newline. */
  function Head(s: string): string {
    s[..FirstNewline(s)]
  }

  /** substr(find('\n') + 1): npos + 1 is 0, so the whole text again where there is no newline. */
  function Tail(s: string): string {
    if FirstNewline(s) < |s| then s[FirstNewline(s) + 1..] else s
  }

  lemma {:induction false} FirstNewlineOf(line: string, rest: string)
    requires '\n' !in line && (rest == [] || rest[0] == '\n')
    ensures FirstNewline(line + rest) == |line|
  {
    if line == [] {
      assert line + rest == rest;
    } else {
      assert (line + rest)[1..] == line[1..] + rest;
      FirstNewlineOf(line[1..], rest);
    }
  }

  lemma HeadTail(n: int, rest: string)
    ensures var s := Print(n) + "\n" + rest;
      FirstNewline(s) < |s| && Head(s) == Print(n) && Tail(s) == rest
  {
    var s := Print(n) + "\n" + rest;
    assert s == Print(n) + ("\n" + rest);
    FirstNewlineOf(Print(n), "\n" + rest);
  }

  // --- Messages ---

  const CONNECT: int := 1
  const SLEEP: int := 2
  const WAKE_UP: int := 3
  const DISCONNECT: int := 4
  const PRIV: int := 10
  const DISCONNECT_ACK: int := 24
  const RETRANSMIT: int := 30
  const QUEUE_STATUS: int := 31

  predicate IsNormal(code: int) {
    code == CONNECT || code == SLEEP || code == WAKE_UP || code == DISCONNECT_ACK
  }

  datatype Message =
    | Normal(code: int, adapterId: int)
    | Disconnect(adapterId: int, finalControl: int, finalData: int)
    | Retransmit(segmentType: int, start: int, end: int)
    | QueueStatus(lastControl: int, lastData: int)
    | Priv(text: string)
    | Unknown(code: int)
    | Malformed

  /** What the senders are called with: 32-bit adapter ids and types, unsigned 32-bit sequence numbers. */
  predicate Sendable(m: Message) {
    match m
    case Normal(code, id) => IsNormal(code) && IsInt32(id)
    case Disconnect(id, control, data) => IsInt32(id) && IsUint32(control) && IsUint32(data)
    case Retransmit(segmentType, start, end) => IsInt32(segmentType) && IsUint32(start) && IsUint32(end)
    case QueueStatus(control, data) => IsUint32(control) && IsUint32(data)
    case _ => false
  }

  function Two(a: int, b: int): string {
    Print(a) + "\n" + Print(b)
  }

  function Three(a: int, b: int, c: int): string {
    Print(a) + "\n" + Two(b, c)
  }

  /** The text of a message, with the sequence numbers written by the given function. */
  function Text(m: Message, seqNo: int -> int): string
    requires Sendable(m)
  {
    match m
    case Normal(code, id) => Two(code, id)
    case Disconnect(id, control, data) =>
      Print(DISCONNECT) + "\n" + Three(id, seqNo(control), seqNo(data))
    case Retransmit(segmentType, start, end) =>
      Print(RETRANSMIT) + "\n" + Three(segmentType, seqNo(start), seqNo(end))
    case QueueStatus(control, data) => Three(QUEUE_STATUS, seqNo(control), seqNo(data))
  }

  /** Linux prints its uint32_t numbers as they are. */
  function LinuxText(m: Message): string
    requires Sendable(m)
  {
    Text(m, n => n)
  }

  /** The Java int with the same 32 bits. */
  function AsJavaInt(n: int): int {
    if n < TWO_31 then n else n - TWO_32
  }

  /** Android prints its ints, negative ones with a sign. */
  function AndroidText(m: Message): string
    requires Sendable(m)
  {
    Text(m, AsJavaInt)
  }

  // --- Parsers ---

  /** The messages with a number and two sequence numbers. */
  function Ranged(code: int, first: Option<int>, second: Option<int>, third: Option<int>): Message {
    if first.None? || second.None? || third.None? then Malformed
    else if code == DISCONNECT then Disconnect(first.value, second.value, third.value)
    else Retransmit(first.value, second.value, third.value)
  }

  function Status(first: Option<int>, second: Option<int>): Message {
    if first.None? || second.None? then Malformed else QueueStatus(first.value, second.value)
  }

  function LinuxBody(code: int, other: string, wide: bool): Message {
    if IsNormal(code) then
      var id := Stoi(other);
      if id.None? then Malformed else Normal(code, id.value)
    else if code == DISCONNECT || code == RETRANSMIT then
      Ranged(code, Stoi(Head(other)), Stoul(Head(Tail(other)), wide), Stoul(Tail(Tail(other)), wide))
    else if code == PRIV then Priv(other)
    else if code == QUEUE_STATUS then Status(Stoul(Head(other), wide), Stoul(Tail(other), wide))
    else Unknown(code)
  }

  function ParseLinux(message: string, wide: bool): Message {
    var code := Stoi(Head(message));
    if code.None? then Malformed else LinuxBody(code.value, Tail(message), wide)
  }

  /** substring(0, indexOf('\n')), which throws where there is no newline, and the text behind it. */
  function Cut(s: string): Option<(string, string)> {
    if FirstNewline(s) < |s| then Some((Head(s), Tail(s))) else None
  }

  function AndroidRanged(code: int, other: string): Message {
    var rest := Cut(other);
    if rest.None? then Malformed
    else
      var last := Cut(rest.value.1);
      if last.None? then Malformed
      else Ranged(code, ParseInt(rest.value.0), ParseInt(last.value.0), ParseInt(last.value.1))
  }

  function AndroidStatus(other: string): Message {
    var rest := Cut(other);
    if rest.None? then Malformed else Status(ParseInt(rest.value.0), ParseInt(rest.value.1))
  }

  function AndroidBody(code: int, other: string): Message {
    if IsNormal(code) then
      var id := ParseInt(other);
      if id.None? then Malformed else Normal(code, id.value)
    else if code == DISCONNECT || code == RETRANSMIT then AndroidRanged(code, other)
    else if code == QUEUE_STATUS then AndroidStatus(other)
    else if code == PRIV then Priv(other)
    else Unknown(code)
  }

  function ParseAndroid(message: string): Message {
    var lines := Cut(message);
    if lines.None? then Malformed
    else
      var code := ParseInt(lines.value.0);
      if code.None? then Malformed else AndroidBody(code.value, lines.value.1)
  }

  // --- Buffers ---

  const NUL: char := '\0'

  /** std::string(char*): the text before the first NUL. */
  function CText(buffer: string): string {
    if buffer == [] || buffer[0] == NUL then [] else [buffer[0]] + CText(buffer[1..])
  }

  function TrimLeft(s: string): string {
    if s != [] && s[0] <= ' ' then TrimLeft(s[1..]) else s
  }

  function TrimRight(s: string): string {
    if s != [] && s[|s| - 1] <= ' ' then TrimRight(s[..|s| - 1]) else s
  }

  /** String.trim of the zero-filled receive buffer. */
  function JavaText(buffer: string): string {
    TrimRight(TrimLeft(buffer))
  }

  /** A text without blanks at its ends and without NUL. */
  predicate Bare(s: string) {
    s != [] && s[0] > ' ' && s[|s| - 1] > ' ' && NUL !in s
  }

  lemma {:induction false} CTextStops(text: string, behind: string)
    requires NUL !in text
    ensures CText(text + behind) == text + CText(behind)
  {
    if text == [] {
      assert text + behind == behind;
    } else {
      assert (text + behind)[1..] == text[1..] + behind;
      assert text[0] in text;
      CTextStops(text[1..], behind);
    }
  }

  lemma {:induction false} JavaTextTrims(text: string, padding: string)
    requires Bare(text) && forall i :: 0 <= i < |padding| ==> padding[i] <= ' '
    ensures JavaText(text + padding) == text
  {
    assert TrimLeft(text + padding) == text + padding;
    if padding == [] {
      assert text + padding == text;
    } else {
      var shorter := padding[..|padding| - 1];
      assert (text + padding)[..|text + padding| - 1] == text + shorter;
      JavaTextTrims(text, shorter);
      assert TrimLeft(text + shorter) == text + shorter;
    }
  }

  lemma PrintIsBare(n: int)
    ensures Bare(Print(n))
  {
    var digits := Decimal(if n < 0 then -n else n);
    assert forall i :: 0 <= i < |digits| ==> IsDigit(digits[i]);
  }

  lemma JoinIsBare(a: string, b: string)
    requires Bare(a) && Bare(b)
    ensures Bare(a + "\n" + b)
  {
  }

  lemma TwoIsBare(a: int, b: int)
    ensures Bare(Two(a, b))
  {
    PrintIsBare(a);
    PrintIsBare(b);
    JoinIsBare(Print(a), Print(b));
  }

  lemma ThreeIsBare(a: int, b: int, c: int)
    ensures Bare(Three(a, b, c))
  {
    PrintIsBare(a);
    TwoIsBare(b, c);
    JoinIsBare(Print(a), Two(b, c));
  }

  lemma TextIsBare(m: Message, seqNo: int -> int)
    requires Sendable(m)
    ensures Bare(Text(m, seqNo))
  {
    match m {
      case Normal(code, id) => TwoIsBare(code, id);
      case Disconnect(id, control, data) =>
        PrintIsBare(DISCONNECT);
        ThreeIsBare(id, seqNo(control), seqNo(data));
        JoinIsBare(Print(DISCONNECT), Three(id, seqNo(control), seqNo(data)));
      case Retransmit(segmentType, start, end) =>
        PrintIsBare(RETRANSMIT);
        ThreeIsBare(segmentType, seqNo(start), seqNo(end));
        JoinIsBare(Print(RETRANSMIT), Three(segmentType, seqNo(start), seqNo(end)));
      case QueueStatus(control, data) => ThreeIsBare(QUEUE_STATUS, seqNo(control), seqNo(data));
    }
  }

  // --- Round trips ---

  lemma DropMultiple(n: int, k: int)
    ensures (n - k * TWO_32) % TWO_32 == n % TWO_32
  {
  }

  /** stoul and the cast together look at a number modulo 2^32 only. */
  lemma WrapTo32(n: int, wide: bool)
    ensures (n % UnsignedLongs(wide)) % TWO_32 == n % TWO_32
  {
    if wide {
      DropMultiple(n, (n / TWO_64) * TWO_32);
    }
  }

  /** A sequence number printed as `printed` is read back with digits behind it. */
  predicate StoulReads(n: int, printed: int, digits: string, wide: bool)
    requires AllDigits(digits)
  {
    var number, size := WithDigits(printed, digits), UnsignedLongs(wide);
    -size < number < size && number % TWO_32 == n
  }

  lemma StoulPrinted(n: int, printed: int, tail: string, wide: bool)
    ensures Stoul(Print(printed) + tail, wide) == Some(n) <==> StoulReads(n, printed, LeadingDigits(tail), wide)
  {
    hide WithDigits, Print, Scan, LeadingDigits;
    ScanPrinted(printed, tail);
    WrapTo32(WithDigits(printed, LeadingDigits(tail)), wide);
  }

  /** Both ways to print a sequence number agree modulo 2^32, so it is read back where no digit follows. */
  lemma StoulReadsAlone(n: int, android: bool, wide: bool)
    requires IsUint32(n)
    ensures StoulReads(n, SeqNo(android)(n), [], wide)
  {
    NoDigitsBehind(SeqNo(android)(n));
  }

  function SeqNo(android: bool): int -> int {
    if android then AsJavaInt else n => n
  }

  /** The text either side prints. */
  function SentText(m: Message, android: bool): string
    requires Sendable(m)
  {
    if android then AndroidText(m) else LinuxText(m)
  }

  lemma StoiPrinted(n: int, tail: string)
    requires IsInt32(n)
    ensures Stoi(Print(n) + tail) == Some(n) <==> WithDigits(n, LeadingDigits(tail)) == n
  {
    hide WithDigits, Print, Scan, LeadingDigits;
    ScanPrinted(n, tail);
  }

  lemma StoiAlone(n: int)
    requires IsInt32(n)
    ensures Stoi(Print(n)) == Some(n)
  {
    hide WithDigits, Print, Stoi;
    WithoutTail(Print(n));
    StoiPrinted(n, []);
    NoDigitsBehind(n);
  }

  lemma StoulAlone(n: int, android: bool, wide: bool)
    requires IsUint32(n)
    ensures Stoul(Print(SeqNo(android)(n)), wide) == Some(n)
  {
    hide WithDigits, Print, Stoul, StoulReads;
    var printed := SeqNo(android)(n);
    WithoutTail(Print(printed));
    StoulPrinted(n, printed, [], wide);
    StoulReadsAlone(n, android, wide);
  }

  lemma WithoutTail(s: string)
    ensures s + [] == s
  {
  }

  lemma TwoAndTail(a: int, b: int, tail: string)
    ensures var s := Two(a, b) + tail;
      FirstNewline(s) < |s| && Head(s) == Print(a) && Tail(s) == Print(b) + tail
  {
    HeadTail(a, Print(b) + tail);
    assert Two(a, b) + tail == Print(a) + "\n" + (Print(b) + tail);
  }

  lemma ThreeAndTail(a: int, b: int, c: int, tail: string)
    ensures var s := Three(a, b, c) + tail;
      Head(s) == Print(a) && Tail(s) == Two(b, c) + tail
  {
    HeadTail(a, Two(b, c) + tail);
    assert Three(a, b, c) + tail == Print(a) + "\n" + (Two(b, c) + tail);
  }

  lemma LinuxReadsRanged(code: int, id: int, a: int, b: int, android: bool, wide: bool, tail: string)
    requires IsInt32(id) && IsUint32(a) && (code == DISCONNECT || code == RETRANSMIT)
    ensures LinuxBody(code, Three(id, SeqNo(android)(a), b) + tail, wide)
         == Ranged(code, Some(id), Some(a), Stoul(Print(b) + tail, wide))
  {
    hide Print, Stoi, Stoul, FirstNewline, Head, Tail, Three, Two;
    ThreeAndTail(id, SeqNo(android)(a), b, tail);
    TwoAndTail(SeqNo(android)(a), b, tail);
    StoiAlone(id);
    StoulAlone(a, android, wide);
  }

  lemma LinuxReadsStatus(a: int, b: int, android: bool, wide: bool, tail: string)
    requires IsUint32(a)
    ensures LinuxBody(QUEUE_STATUS, Two(SeqNo(android)(a), b) + tail, wide)
         == Status(Some(a), Stoul(Print(b) + tail, wide))
  {
    hide Print, Stoi, Stoul, FirstNewline, Head, Tail, Two;
    TwoAndTail(SeqNo(android)(a), b, tail);
    StoulAlone(a, android, wide);
  }

  lemma LinuxReadsCode(code: int, rest: string, wide: bool)
    requires IsInt32(code)
    ensures ParseLinux(Print(code) + "\n" + rest, wide) == LinuxBody(code, rest, wide)
  {
    hide Print, Stoi, FirstNewline, LinuxBody;
    HeadTail(code, rest);
    StoiAlone(code);
  }

  /** A text is its code, a newline and its other lines. */
  lemma TextAndTail(code: int, body: string, tail: string)
    ensures (Print(code) + "\n" + body) + tail == Print(code) + "\n" + (body + tail)
  {
  }

  /** The last number of a text is read back with these digits behind it. */
  predicate LastReadBack(m: Message, android: bool, digits: string, wide: bool)
    requires Sendable(m) && AllDigits(digits)
  {
    match m
    case Normal(_, id) => WithDigits(id, digits) == id
    case Disconnect(_, _, data) => StoulReads(data, SeqNo(android)(data), digits, wide)
    case Retransmit(_, _, end) => StoulReads(end, SeqNo(android)(end), digits, wide)
    case QueueStatus(_, data) => StoulReads(data, SeqNo(android)(data), digits, wide)
  }

  /** The Linux receiver reads a message back exactly if its last number is. */
  lemma LinuxReadsExactly(m: Message, android: bool, wide: bool, tail: string)
    requires Sendable(m)
    ensures ParseLinux(SentText(m, android) + tail, wide) == m
        <==> LastReadBack(m, android, LeadingDigits(tail), wide)
  {
    hide Print, Stoi, Stoul, FirstNewline, Head, Tail, ParseLinux, WithDigits, StoulReads, LeadingDigits;
    var f := SeqNo(android);
    match m {
      case Normal(code, id) =>
        TextAndTail(code, Print(id), tail);
        LinuxReadsCode(code, Print(id) + tail, wide);
        StoiPrinted(id, tail);
      case Disconnect(id, control, data) =>
        TextAndTail(DISCONNECT, Three(id, f(control), f(data)), tail);
        LinuxReadsCode(DISCONNECT, Three(id, f(control), f(data)) + tail, wide);
        LinuxReadsRanged(DISCONNECT, id, control, f(data), android, wide, tail);
        StoulPrinted(data, f(data), tail, wide);
      case Retransmit(segmentType, start, end) =>
        TextAndTail(RETRANSMIT, Three(segmentType, f(start), f(end)), tail);
        LinuxReadsCode(RETRANSMIT, Three(segmentType, f(start), f(end)) + tail, wide);
        LinuxReadsRanged(RETRANSMIT, segmentType, start, f(end), android, wide, tail);
        StoulPrinted(end, f(end), tail, wide);
      case QueueStatus(control, data) =>
        TextAndTail(QUEUE_STATUS, Two(f(control), f(data)), tail);
        LinuxReadsCode(QUEUE_STATUS, Two(f(control), f(data)) + tail, wide);
        LinuxReadsStatus(control, f(data), android, wide, tail);
        StoulPrinted(data, f(data), tail, wide);
    }
  }

  lemma LastReadBackAlone(m: Message, android: bool, wide: bool)
    requires Sendable(m)
    ensures LastReadBack(m, android, [], wide)
  {
    hide WithDigits, StoulReads;
    match m {
      case Normal(_, id) => NoDigitsBehind(id);
      case Disconnect(_, _, data) => StoulReadsAlone(data, android, wide);
      case Retransmit(_, _, end) => StoulReadsAlone(end, android, wide);
      case QueueStatus(_, data) => StoulReadsAlone(data, android, wide);
    }
  }

  /**
   * The Linux receiver reads every message either side prints, for all 32-bit sequence numbers, whatever stands behind
   * it that does not start with a digit.
   */
  lemma LinuxReadsBoth(m: Message, android: bool, wide: bool, tail: string)
    requires Sendable(m) && NoDigit(tail)
    ensures ParseLinux(SentText(m, android) + tail, wide) == m
  {
    hide ParseLinux, LastReadBack;
    LinuxReadsExactly(m, android, wide, tail);
    LastReadBackAlone(m, android, wide);
  }

  lemma AndroidReadsCode(code: int, rest: string)
    requires IsInt32(code)
    ensures ParseAndroid(Print(code) + "\n" + rest) == AndroidBody(code, rest)
  {
    HeadTail(code, rest);
    ParseIntPrinted(code);
  }

  function IfInt32(n: int): Option<int> {
    if IsInt32(n) then Some(n) else None
  }

  lemma AndroidReadsRanged(code: int, id: int, a: int, b: int)
    requires code == DISCONNECT || code == RETRANSMIT
    ensures AndroidRanged(code, Three(id, a, b)) == Ranged(code, IfInt32(id), IfInt32(a), IfInt32(b))
  {
    HeadTail(id, Two(a, b));
    HeadTail(a, Print(b));
    ParseIntPrinted(id);
    ParseIntPrinted(a);
    ParseIntPrinted(b);
  }

  lemma AndroidReadsStatus(a: int, b: int)
    ensures AndroidStatus(Two(a, b)) == Status(IfInt32(a), IfInt32(b))
  {
    HeadTail(a, Print(b));
    ParseIntPrinted(a);
    ParseIntPrinted(b);
  }

  /** A sequence number from 2^31 on, as Linux prints it, is no Java int. */
  predicate BelowJavaLimit(m: Message) {
    match m
    case Disconnect(_, control, data) => control < TWO_31 && data < TWO_31
    case Retransmit(_, start, end) => start < TWO_31 && end < TWO_31
    case QueueStatus(control, data) => control < TWO_31 && data < TWO_31
    case _ => true
  }

  /** The Android receiver reads a Linux message exactly when its sequence numbers are below 2^31. */
  lemma AndroidReadsLinux(m: Message)
    requires Sendable(m)
    ensures ParseAndroid(LinuxText(m)) == if BelowJavaLimit(m) then m else Malformed
  {
    hide Print, ParseInt, FirstNewline, Cut, AndroidRanged, AndroidStatus, ParseAndroid;
    match m {
      case Normal(code, id) =>
        AndroidReadsCode(code, Print(id));
        ParseIntPrinted(id);
      case Disconnect(id, control, data) =>
        AndroidReadsCode(DISCONNECT, Three(id, control, data));
        AndroidReadsRanged(DISCONNECT, id, control, data);
      case Retransmit(segmentType, start, end) =>
        AndroidReadsCode(RETRANSMIT, Three(segmentType, start, end));
        AndroidReadsRanged(RETRANSMIT, segmentType, start, end);
      case QueueStatus(control, data) =>
        AndroidReadsCode(QUEUE_STATUS, Two(control, data));
        AndroidReadsStatus(control, data);
    }
  }

  lemma {:induction false} DigitsBeforeNul(behind: string)
    ensures LeadingDigits(CText(behind)) == LeadingDigits(behind)
  {
    if behind != [] && IsDigit(behind[0]) {
      DigitsBeforeNul(behind[1..]);
    }
  }

  /**
   * From buffer to buffer. On Linux the text ends at the NUL its own sender appends; a text from Android has none, and
   * the last number ends at whatever stands behind it. The zeros of the Java buffer are trimmed.
   */
  lemma BuffersRoundTrip(m: Message, android: bool, wide: bool, behind: string)
    requires Sendable(m)
    ensures ParseLinux(CText(SentText(m, android) + behind), wide) == m
        <==> LastReadBack(m, android, LeadingDigits(behind), wide)
    ensures NoDigit(behind) ==> ParseLinux(CText(SentText(m, android) + behind), wide) == m
    ensures (forall i :: 0 <= i < |behind| ==> behind[i] == NUL) ==>
        ParseAndroid(JavaText(LinuxText(m) + behind)) == if BelowJavaLimit(m) then m else Malformed
  {
    hide ParseLinux, ParseAndroid, LastReadBack;
    TextIsBare(m, SeqNo(android));
    TextIsBare(m, SeqNo(false));
    CTextStops(SentText(m, android), behind);
    LinuxReadsExactly(m, android, wide, CText(behind));
    DigitsBeforeNul(behind);
    LastReadBackAlone(m, android, wide);
    if forall i :: 0 <= i < |behind| ==> behind[i] == NUL {
      JavaTextTrims(LinuxText(m), behind);
      AndroidReadsLinux(m);
    }
  }

  /** A digit that happens to stand behind Android's text changes its adapter id, unless both are zero. */
  lemma DigitBehindIsRead(code: int, id: int, android: bool, wide: bool, behind: string)
    requires IsNormal(code) && IsInt32(id)
    ensures ParseLinux(CText(SentText(Normal(code, id), android) + behind), wide) == Normal(code, id)
        <==> LeadingDigits(behind) == [] || (id == 0 && Zeros(LeadingDigits(behind)))
  {
    hide ParseLinux, WithDigits, CText, LeadingDigits, SentText;
    BuffersRoundTrip(Normal(code, id), android, wide, behind);
    DigitsChangeNumber(id, LeadingDigits(behind));
  }

  // --- Other texts ---

  /** The C conversions skip blanks in front; a text that then starts with no digit and no sign is no number. */
  lemma ScanFromFront(c: char, s: string)
    ensures c == ' ' || c == '\t' || c == '\n' || c == '\r' ==> Scan([c] + s) == Scan(s)
    ensures 'A' <= c ==> Scan([c] + s) == None
    ensures '0' <= c <= '9' ==> Scan("+" + ([c] + s)) == Scan([c] + s)
  {
    assert ([c] + s)[1..] == s;
    assert ("+" + ([c] + s))[1..] == [c] + s;
    if '0' <= c <= '9' {
      ScanStarts([c] + s);
      ScanStarts("+" + ([c] + s));
    }
  }

  /** Java takes a plus sign, too. */
  lemma ParseIntTakesPlus(n: int)
    requires 0 <= n < 0x8000_0000
    ensures ParseInt("+" + Print(n)) == Some(n)
  {
    var s := "+" + Print(n);
    assert s[1..] == Decimal(n);
    MagnitudeOfDecimal(n);
  }

  /** String.trim drops everything up to the blank, in code order, at both ends, and nothing else. */
  lemma {:induction false} TrimsBothEnds(front: string, text: string, padding: string)
    requires Bare(text) && forall i :: 0 <= i < |padding| ==> padding[i] <= ' '
    requires forall i :: 0 <= i < |front| ==> front[i] <= ' '
    ensures JavaText(front + text + padding) == text
    decreases |front|
  {
    if front == [] {
      assert front + text + padding == text + padding;
      JavaTextTrims(text, padding);
    } else {
      TrimsBothEnds(front[1..], text, padding);
      assert (front + text + padding)[1..] == front[1..] + text + padding;
    }
  }

  /** Integer.parseInt takes nothing but an optional sign and digits. */
  lemma ParseIntIsStrict(s: string, i: nat)
    requires i < |s| && !('0' <= s[i] <= '9') && (i > 0 || (s[i] != '-' && s[i] != '+'))
    ensures ParseInt(s) == None
  {
    var signed := s[0] == '-' || s[0] == '+';
    if signed && i > 0 { assert s[1..][i - 1] == s[i]; }
  }

  /** stoi takes a printed number exactly if it is an int. */
  lemma StoiExactly(n: int)
    ensures Stoi(Print(n)) == if -0x8000_0000 <= n < 0x8000_0000 then Some(n) else None
  {
    hide WithDigits, Print, Scan;
    WithoutTail(Print(n));
    ScanPrinted(n, []);
    NoDigitsBehind(n);
  }

  /** stoul takes a printed number exactly if its magnitude fits an unsigned long; 32 bits of it remain. */
  lemma StoulExactly(n: int, wide: bool)
    ensures var size := if wide then 0x1_0000_0000_0000_0000 else 0x1_0000_0000;
      Stoul(Print(n), wide) == if -size < n < size then Some(n % 0x1_0000_0000) else None
  {
    hide WithDigits, Print, Scan;
    WithoutTail(Print(n));
    ScanPrinted(n, []);
    NoDigitsBehind(n);
    WrapTo32(n, wide);
  }

  /** A private text comes through whatever it is, and a code that means nothing is reported. */
  lemma OtherCodes(code: int, rest: string, wide: bool)
    requires IsInt32(code)
    ensures ParseLinux(Print(10) + "\n" + rest, wide) == ParseAndroid(Print(10) + "\n" + rest) == Priv(rest)
    ensures code !in {1, 2, 3, 4, 10, 24, 30, 31} ==>
        ParseLinux(Print(code) + "\n" + rest, wide) == ParseAndroid(Print(code) + "\n" + rest) == Unknown(code)
  {
    hide Print, ParseLinux, ParseAndroid;
    LinuxReadsCode(10, rest, wide);
    AndroidReadsCode(10, rest);
    LinuxReadsCode(code, rest, wide);
    AndroidReadsCode(code, rest);
  }

  lemma {:induction false} NoNewlineFound(s: string)
    requires '\n' !in s
    ensures FirstNewline(s) == |s|
  {
    if s != [] {
      assert s[0] in s;
      NoNewlineFound(s[1..]);
    }
  }

  lemma PrintHasNoNewline(n: int)
    ensures '\n' !in Print(n)
  {
    var digits := Decimal(Absolute(n));
    assert forall i :: 0 <= i < |digits| ==> IsDigit(digits[i]);
  }

  lemma NoOtherLine(n: int)
    ensures Head(Print(n)) == Tail(Print(n)) == Print(n) && Cut(Print(n)) == None
  {
    PrintHasNoNewline(n);
    NoNewlineFound(Print(n));
    assert Print(n)[..|Print(n)|] == Print(n);
    hide Print, FirstNewline;
  }

  /**
   * Where the last newline is missing, Linux takes the line before it for the next one as well: npos + 1 is 0. Android
   * fails.
   */
  lemma MissingLine(n: int, wide: bool)
    requires IsUint32(n)
    ensures ParseLinux(Print(31) + "\n" + Print(n), wide) == QueueStatus(n, n)
    ensures ParseAndroid(Print(31) + "\n" + Print(n)) == Malformed
  {
    hide Print, ParseLinux, ParseAndroid, FirstNewline, Stoul, Head, Tail, Cut;
    NoOtherLine(n);
    StoulExactly(n, wide);
    assert Stoul(Print(n), wide) == Some(n);
    LinuxReadsCode(31, Print(n), wide);
    AndroidReadsCode(31, Print(n));
  }

  lemma Digits(n: nat)
    ensures n < 10 ==> Print(n) == ['0' + n as char]
    ensures 10 <= n < 100 ==> Print(n) == ['0' + (n / 10) as char, '0' + (n % 10) as char]
    ensures 100 <= n < 1000 ==>
        Print(n) == ['0' + (n / 100) as char, '0' + (n / 10 % 10) as char, '0' + (n % 10) as char]
  {
    if n >= 100 {
      assert Decimal(n) == Decimal(n / 10) + ['0' + (n % 10) as char];
      assert n < 1000 ==> Decimal(n / 10) == Decimal(n / 100) + ['0' + (n / 10 % 10) as char] by {
        assert n / 10 / 10 == n / 100;
      }
    } else if n >= 10 {
      assert Decimal(n) == Decimal(n / 10) + ['0' + (n % 10) as char];
    }
  }

  lemma Negative(n: int)
    requires n > 0
    ensures Print(-n) == "-" + Print(n)
  {
  }

  /** The texts as they stand on the line. */
  lemma NormalTexts()
    ensures LinuxText(Normal(1, 5)) == "1\n5" && LinuxText(Normal(2, 0)) == "2\n0"
    ensures LinuxText(Normal(3, 12)) == "3\n12" && LinuxText(Normal(24, -7)) == "24\n-7"
  {
    hide Print;
    Digits(1); Digits(5); Digits(2); Digits(0); Digits(3); Digits(12); Digits(24); Digits(7);
    Negative(7);
  }

  lemma RangedTexts()
    ensures LinuxText(Disconnect(1, 907, 46)) == "4\n1\n907\n46"
    ensures LinuxText(Retransmit(1, 30, 58)) == "30\n1\n30\n58"
  {
    hide Print;
    Digits(4); Digits(1); Digits(907); Digits(46); Digits(30); Digits(58);
  }

  lemma StatusTexts()
    ensures LinuxText(QueueStatus(8, 6)) == "31\n8\n6"
    ensures AndroidText(QueueStatus(4294967295, 4294967284)) == "31\n-1\n-12"
  {
    hide Print;
    Digits(31); Digits(8); Digits(6); Digits(1); Digits(12);
    Negative(1);
    Negative(12);
  }

  // --- The Linux printers, which build the text piece by piece ---

  /** send_control_message: the text and a NUL in a new buffer. */
  method SendControlMessage(message: string) returns (buffer: array<char>)
    requires NUL !in message
    ensures fresh(buffer) && buffer[..] == message + [NUL]
  {
    var size := |message| + 1;
    buffer := new char[size];
    forall i | 0 <= i < |message| { buffer[i] := message[i]; }
    buffer[size - 1] := NUL;
  }

  lemma NormalText(code: int, adapterId: int)
    requires IsNormal(code) && IsInt32(adapterId)
    ensures var text := LinuxText(Normal(code, adapterId));
      text == "" + Print(code) + "\n" + Print(adapterId) && Bare(text)
  {
    hide Print, Bare;
    TwoIsBare(code, adapterId);
    assert "" + Print(code) == Print(code);
  }

  method SendRequest(code: int, adapterId: int) returns (buffer: array<char>)
    requires IsNormal(code) && IsInt32(adapterId)
    ensures fresh(buffer) && buffer[..] == LinuxText(Normal(code, adapterId)) + [NUL]
  {
    var message := "";
    message := message + Print(code);
    message := message + "\n";
    message := message + Print(adapterId);
    NormalText(code, adapterId);
    buffer := SendControlMessage(message);
  }

  /** send_request_connect, and its siblings below: the code of each request. */
  method SendRequestConnect(adapterId: int) returns (buffer: array<char>)
    requires IsInt32(adapterId)
    ensures fresh(buffer) && buffer[..] == "1\n" + Print(adapterId) + [NUL]
  {
    buffer := SendRequest(CONNECT, adapterId);
  }

  method SendRequestSleep(adapterId: int) returns (buffer: array<char>)
    requires IsInt32(adapterId)
    ensures fresh(buffer) && buffer[..] == "2\n" + Print(adapterId) + [NUL]
  {
    buffer := SendRequest(SLEEP, adapterId);
  }

  method SendRequestWakeUp(adapterId: int) returns (buffer: array<char>)
    requires IsInt32(adapterId)
    ensures fresh(buffer) && buffer[..] == "3\n" + Print(adapterId) + [NUL]
  {
    buffer := SendRequest(WAKE_UP, adapterId);
  }

  method SendRequestDisconnectAck(adapterId: int) returns (buffer: array<char>)
    requires IsInt32(adapterId)
    ensures fresh(buffer) && buffer[..] == "24\n" + Print(adapterId) + [NUL]
  {
    buffer := SendRequest(DISCONNECT_ACK, adapterId);
  }

  lemma FourLines(a: string, b: string, c: string, d: string)
    ensures "" + a + "\n" + b + "\n" + c + "\n" + d == a + "\n" + (b + "\n" + (c + "\n" + d))
  {
  }

  lemma RangedText(code: int, number: int, start: int, end: int)
    requires IsInt32(number) && IsUint32(start) && IsUint32(end) && (code == DISCONNECT || code == RETRANSMIT)
    ensures var text := LinuxText(Ranged(code, Some(number), Some(start), Some(end)));
      && text == Print(code) + "\n" + (Print(number) + "\n" + (Print(start) + "\n" + Print(end)))
      && Bare(text)
  {
    hide Print, Bare;
    TextIsBare(Ranged(code, Some(number), Some(start), Some(end)), n => n);
  }

  /** Four lines: the code, a number and two sequence numbers. */
  method SendRanged(code: int, number: int, start: int, end: int) returns (buffer: array<char>)
    requires IsInt32(number) && IsUint32(start) && IsUint32(end) && (code == DISCONNECT || code == RETRANSMIT)
    ensures fresh(buffer)
    ensures buffer[..] == LinuxText(Ranged(code, Some(number), Some(start), Some(end))) + [NUL]
  {
    var message := "";
    message := message + Print(code);
    message := message + "\n";
    message := message + Print(number);
    message := message + "\n";
    message := message + Print(start);
    message := message + "\n";
    message := message + Print(end);
    FourLines(Print(code), Print(number), Print(start), Print(end));
    RangedText(code, number, start, end);
    buffer := SendControlMessage(message);
  }

  lemma StatusText(lastControl: int, lastData: int)
    requires IsUint32(lastControl) && IsUint32(lastData)
    ensures var text := LinuxText(QueueStatus(lastControl, lastData));
      text == "" + Print(QUEUE_STATUS) + "\n" + Print(lastControl) + "\n" + Print(lastData) && Bare(text)
  {
    hide Print, Bare;
    ThreeIsBare(QUEUE_STATUS, lastControl, lastData);
    var a, b, d := Print(QUEUE_STATUS), Print(lastControl), Print(lastData);
    assert "" + a + "\n" + b + "\n" + d == a + "\n" + (b + "\n" + d);
  }

  method SendRequestQueueStatus(lastControl: int, lastData: int) returns (buffer: array<char>)
    requires IsUint32(lastControl) && IsUint32(lastData)
    ensures fresh(buffer) && buffer[..] == LinuxText(QueueStatus(lastControl, lastData)) + [NUL]
  {
    var message := "";
    message := message + Print(QUEUE_STATUS);
    message := message + "\n";
    message := message + Print(lastControl);
    message := message + "\n";
    message := message + Print(lastData);
    StatusText(lastControl, lastData);
    buffer := SendControlMessage(message);
  }
}
