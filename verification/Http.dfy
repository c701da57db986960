/** The HTTP response printer and the request parser, and when one undoes the other. */
module Http {

  const LINE_MAX := 1024
  const CONTENT_TYPE := "Content-Type:"

  /** The caller's output buffers, each read as the string up to its first NUL; the rest is zero. */
  datatype Info = Info(content: string, verb: string, header: string, contentType: string)

  const BLANK := Info("", "", "", "")

  /** Overrun: the code would read or write outside a buffer. */
  datatype Parsed = Done(info: Info) | Overrun

  // ----- C strings -----

  /** `strncpy` of `n` characters over a zero-filled buffer that holds `dst`: no NUL is added. */
  function CopyChars(dst: string, src: string, n: nat): string
    requires n <= |src|
  {
    src[..n] + if n < |dst| then dst[n..] else ""
  }

  /** Index of the first `c`, or the length. */
  function First(s: string, c: char): (k: nat)
    ensures k <= |s| && c !in s[..k] && (k < |s| ==> s[k] == c)
  {
    if s == "" || s[0] == c then 0
    else
      var k := First(s[1..], c) + 1;
      assert s[..k] == [s[0]] + s[1..][..k - 1];
      k
  }

  /** Index of the last `c`, or the length. */
  function Last(s: string, c: char): (k: nat)
    ensures if c in s then k < |s| && s[k] == c && c !in s[k + 1..] else k == |s|
  {
    if s == "" then 0
    else
      var n := |s| - 1;
      assert s == s[..n] + [s[n]];
      if s[n] == c then n
      else if c in s[..n] then
        var k := Last(s[..n], c);
        assert s[k + 1..] == s[..n][k + 1..] + [s[n]];
        k
      else |s|
  }

  /** The number a string of digits denotes. */
  function Value(s: string): int {
    if s == "" then 0 else 10 * Value(s[..|s| - 1]) + (s[|s| - 1] as int - '0' as int)
  }

  /** `%lu` */
  function Digits(n: nat): (s: string)
    ensures s != "" && (|s| > 1 ==> s[0] != '0') && forall i :: 0 <= i < |s| ==> '0' <= s[i] <= '9'
    ensures Value(s) == n
  {
    var d := [('0' as int + n % 10) as char];
    if n < 10 then d
    else
      var s := Digits(n / 10) + d;
      assert s[..|s| - 1] == Digits(n / 10);
      s
  }

  // ----- The printer -----

  function Line(line: string, rest: string): string {
    line + "\r\n" + rest
  }

  /** Server, length and date lines, then the content: what comes after the content type. */
  function Trailer(date: string, content: string): string {
    Line("Server: localhost", Line("Content-Length: " + Digits(|content|), Line("Date: " + date, content)))
  }

  /** The response as lines. `date` is what `ctime` prints. */
  function Response(header: string, contentType: string, date: string, content: string): string {
    Line(header + " 200 OK", Line("Content-Type: " + contentType, Trailer(date, content)))
  }

  /** If `whole` is `done`, a line end, a line and `rest`, the line's two parts can be written after `done`. */
  lemma LineAfter(whole: string, done: string, name: string, value: string, rest: string)
    requires whole == done + "\r\n" + Line(name + value, rest)
    ensures whole == (done + ("\r\n" + name) + value) + "\r\n" + rest
  {
    assert Line(name + value, rest) == name + (value + ("\r\n" + rest));
    assert (done + ("\r\n" + name) + value) + "\r\n" + rest == done + "\r\n" + (name + (value + ("\r\n" + rest)));
  }

  /** One `strcat` after the other. */
  method SetOutput(content: string, header: string, contentType: string, date: string) returns (info: string)
    ensures info == Response(header, contentType, date, content)
  {
    info := header;
    info := info + " 200 OK";
    LineAfter(Response(header, contentType, date, content), info, "Content-Type: ", contentType, Trailer(date, content));
    assert "\r\n" + "Content-Type: " == "\r\nContent-Type: ";
    info := info + "\r\nContent-Type: ";
    info := info + contentType;
    info := SetTrailer(info, content, date);
  }

  /** The second half of the printer. */
  method SetTrailer(head: string, content: string, date: string) returns (info: string)
    ensures info == head + "\r\n" + Trailer(date, content)
  {
    var length := Digits(|content|);
    ghost var whole := head + "\r\n" + Trailer(date, content);
    ghost var last := Line("Date: " + date, content);
    assert "Server: localhost" + "" == "Server: localhost";
    LineAfter(whole, head, "Server: localhost", "", Line("Content-Length: " + length, last));
    assert "\r\n" + "Server: localhost" == "\r\nServer: localhost";
    info := head + "\r\nServer: localhost";
    assert info + "" == info;
    LineAfter(whole, info, "Content-Length: ", length, last);
    assert "\r\n" + "Content-Length: " == "\r\nContent-Length: ";
    info := info + "\r\nContent-Length: ";
    info := info + length;
    LineAfter(whole, info, "Date: ", date, content);
    assert "\r\n" + "Date: " == "\r\nDate: ";
    info := info + "\r\nDate: ";
    info := info + date;
    info := info + "\r\n";
    info := info + content;
  }

  // ----- The parser -----

  /** The first line: what follows the last space, and what lies between the first two words and it. */
  function StatusLine(info: Info, line: string): Parsed {
    if ' ' !in line then Done(info)
    else
      var f, e := First(line, ' '), Last(line, ' ');
      var header := if |line| - e > 1 then line[e + 1..] else info.header;
      if e - f < 2 || f + 2 > |line| then Overrun
      else Done(info.(header := header, verb := CopyChars(info.verb, line[f + 2..], e - f - 2)))
  }

  function HeaderLine(info: Info, line: string): Info {
    if |line| > 14 && line[..13] == CONTENT_TYPE then info.(contentType := line[14..]) else info
  }

  /** One line, without its carriage return. */
  function OneLine(info: Info, line: string, first: bool): Parsed {
    if |line| >= LINE_MAX then Overrun
    else if first then StatusLine(info, line)
    else Done(HeaderLine(info, line))
  }

  /** The text from a line start on; each carriage return takes the next character with it. */
  function Parse(text: string, first: bool, info: Info): Parsed
    decreases |text|
  {
    var k := First(text, '\r');
    if k == |text| then Done(info.(content := CopyChars(info.content, text, |text|)))
    else
      var r := OneLine(info, text[..k], first);
      if r.Overrun? || k + 2 > |text| then Overrun else Parse(text[k + 2..], false, r.info)
  }

  lemma FirstIs(s: string, c: char, k: nat)
    requires k <= |s| && c !in s[..k] && (k < |s| ==> s[k] == c)
    ensures First(s, c) == k
  {
    var m := First(s, c);
    assert forall i :: 0 <= i < k ==> s[..k][i] == s[i];
    assert forall i :: 0 <= i < m ==> s[..m][i] == s[i];
  }

  lemma FirstAtMost(s: string, c: char, k: nat)
    requires k < |s| && s[k] == c
    ensures First(s, c) <= k
  {
    var m := First(s, c);
    assert forall i :: 0 <= i < m ==> s[..m][i] == s[i];
  }

  lemma LastIs(s: string, c: char, k: nat)
    requires k < |s| && s[k] == c && c !in s[k + 1..]
    ensures Last(s, c) == k
  {
    var m := Last(s, c);
    assert forall i :: k < i < |s| ==> s[k + 1..][i - k - 1] == s[i];
    assert forall i :: m < i < |s| ==> s[m + 1..][i - m - 1] == s[i];
  }

  /** Going on after a line that gave `r` and ended at `i`. */
  function Onward(buffer: string, i: nat, r: Parsed): Parsed {
    if r.Overrun? || i + 2 > |buffer| then Overrun else Parse(buffer[i + 2..], false, r.info)
  }

  /** What `Parse` does with the line that ends at `i`. */
  lemma ParseAt(buffer: string, j: nat, i: nat, info: Info, r: Parsed)
    requires j <= i < |buffer| && '\r' !in buffer[j..i] && buffer[i] == '\r'
    requires r == OneLine(info, buffer[j..i], j == 0)
    ensures Parse(buffer[j..], j == 0, info) == Onward(buffer, i, r)
  {
    assert buffer[j..][..i - j] == buffer[j..i];
    FirstIs(buffer[j..], '\r', i - j);
    if i + 2 <= |buffer| { assert buffer[j..][i - j + 2..] == buffer[i + 2..]; }
  }

  /** What it does with the text after the last line. */
  lemma ParseRest(buffer: string, j: nat, first: bool, info: Info)
    requires j <= |buffer| && '\r' !in buffer[j..]
    ensures Parse(buffer[j..], first, info) ==
            Done(info.(content := CopyChars(info.content, buffer[j..], |buffer| - j)))
  {
    assert buffer[j..][..|buffer| - j] == buffer[j..];
    FirstIs(buffer[j..], '\r', |buffer| - j);
  }

  /** Where the scan stands: the line so far has no carriage return, and the rest still owes `goal`. */
  ghost predicate Scanned(buffer: string, j: nat, i: nat, info: Info, goal: Parsed) {
    j <= i <= |buffer| && '\r' !in buffer[j..i] && Parse(buffer[j..], j == 0, info) == goal
  }

  lemma StepScanned(buffer: string, j: nat, i: nat, info: Info, goal: Parsed)
    requires Scanned(buffer, j, i, info, goal) && i < |buffer| && buffer[i] != '\r'
    ensures Scanned(buffer, j, i + 1, info, goal)
  {
    assert buffer[j..i + 1] == buffer[j..i] + [buffer[i]];
  }

  /** One line, its fields stored. */
  method TakeLine(buffer: string, j: nat, i: nat, info: Info, ghost goal: Parsed) returns (r: Parsed)
    requires Scanned(buffer, j, i, info, goal) && i < |buffer| && buffer[i] == '\r'
    ensures if r.Overrun? || i + 2 > |buffer| then goal == Overrun else Scanned(buffer, i + 2, i + 2, r.info, goal)
  {
    r := OneLine(info, buffer[j..i], j == 0);
    ParseAt(buffer, j, i, info, r);
  }

  /** What follows the last line is the content. */
  method TakeContent(buffer: string, j: nat, info: Info, ghost goal: Parsed) returns (r: Parsed)
    requires Scanned(buffer, j, |buffer|, info, goal)
    ensures r == goal
  {
    assert buffer[j..|buffer|] == buffer[j..];
    ParseRest(buffer, j, j == 0, info);
    r := Done(info.(content := CopyChars(info.content, buffer[j..], |buffer| - j)));
  }

  lemma ScanStarts(buffer: string, info: Info)
    ensures Scanned(buffer, 0, 0, info, Parse(buffer, true, info))
  {
    assert buffer[0..] == buffer;
  }

  /** The scanning loop over `i` and `j`. */
  method Scan(buffer: string, info0: Info, ghost goal: Parsed) returns (r: Parsed)
    requires Scanned(buffer, 0, 0, info0, goal)
    ensures r == goal
  {
    var i, j := 0, 0;
    var info := info0;
    while i < |buffer|
      invariant i <= |buffer| && Scanned(buffer, j, i, info, goal)
    {
      if buffer[i] != '\r' {
        StepScanned(buffer, j, i, info, goal);
        i := i + 1;
        continue;
      }
      var line := TakeLine(buffer, j, i, info, goal);
      if line.Overrun? || i + 2 > |buffer| {
        return Overrun;
      }
      info := line.info;
      i := i + 1;
      i := i + 1;
      j := i;
    }
    r := TakeContent(buffer, j, info, goal);
  }

  method GetInput(buffer: string, info0: Info) returns (r: Parsed)
    ensures r == Parse(buffer, true, info0)
  {
    ScanStarts(buffer, info0);
    r := Scan(buffer, info0, Parse(buffer, true, info0));
  }

  // ----- Round trip -----

  predicate NoReturn(s: string) {
    '\r' !in s
  }

  lemma ParseLine(line: string, rest: string, first: bool, info: Info)
    requires NoReturn(line)
    ensures Parse(Line(line, rest), first, info) ==
            var r := OneLine(info, line, first);
            if r.Overrun? then Overrun else Parse(rest, false, r.info)
  {
    var text := Line(line, rest);
    assert text[..|line|] == line;
    FirstIs(text, '\r', |line|);
    assert text[|line| + 2..] == rest;
  }

  /** The fields fit the parser's line buffer and the printer's 20-byte number, and break no line. */
  ghost predicate Printable(header: string, contentType: string, date: string, content: string) {
    && |Digits(|content|)| < 20 && NoReturn(header) && NoReturn(contentType) && NoReturn(date)
    && |header| + 7 < LINE_MAX && |contentType| + 14 < LINE_MAX && |date| + 6 < LINE_MAX
  }

  /** "... 200 OK": the last space is the one before OK, and an earlier one precedes 200. */
  lemma StatusOfResponse(header: string, info: Info)
    ensures var r := StatusLine(info, header + " 200 OK");
            r.Done? && r.info.header == "OK" && r.info.content == info.content && r.info.contentType == info.contentType
  {
    var line := header + " 200 OK";
    var n := |header|;
    assert line[n] == ' ' && line[n + 4] == ' ' && line[n + 5..] == "OK";
    LastIs(line, ' ', n + 4);
    FirstAtMost(line, ' ', n);
  }

  lemma DigitsShort(n: nat)
    ensures NoReturn(Digits(n))
  {
    var s := Digits(n);
    assert forall i :: 0 <= i < |s| ==> s[i] != '\r';
  }

  /** The last three header lines change nothing. */
  lemma TailIgnored(date: string, content: string, info: Info)
    requires NoReturn(date) && |date| + 6 < LINE_MAX && |Digits(|content|)| < 20
    ensures Parse(Trailer(date, content), false, info) == Parse(content, false, info)
  {
    var l5 := Line("Date: " + date, content);
    var sized := "Content-Length: " + Digits(|content|);
    LineIgnored("Server: localhost", 'S', 0, Line(sized, l5), info);
    SizeIgnored(|content|, l5, info);
    LineIgnored("Date: " + date, 'D', 0, content, info);
  }

  lemma SizeIgnored(n: nat, rest: string, info: Info)
    requires |Digits(n)| < 20
    ensures Parse(Line("Content-Length: " + Digits(n), rest), false, info) == Parse(rest, false, info)
  {
    DigitsShort(n);
    var sized := "Content-Length: " + Digits(n);
    assert sized[8] == 'L';
    LineIgnored(sized, 'L', 8, rest, info);
  }

  lemma LineIgnored(line: string, c: char, k: nat, rest: string, info: Info)
    requires NoReturn(line) && |line| < LINE_MAX && k < 13 && k < |line| && line[k] == c && c != CONTENT_TYPE[k]
    ensures Parse(Line(line, rest), false, info) == Parse(rest, false, info)
  {
    ParseLine(line, rest, false, info);
    NotContentType(line, c, k);
  }

  lemma TypeTaken(contentType: string, rest: string, info: Info)
    requires NoReturn(contentType) && |contentType| + 14 < LINE_MAX
    ensures Parse(Line("Content-Type: " + contentType, rest), false, info) ==
            Parse(rest, false, info.(contentType := if contentType == "" then info.contentType else contentType))
  {
    var typed := "Content-Type: " + contentType;
    assert typed[..13] == CONTENT_TYPE && typed[14..] == contentType;
    ParseLine(typed, rest, false, info);
  }

  /** The header lines of a response set the content type and leave the content to the rest. */
  lemma HeadersOfResponse(header: string, contentType: string, date: string, content: string, info: Info)
    requires Printable(header, contentType, date, content)
    ensures var r := StatusLine(info, header + " 200 OK");
            r.Done? &&
            Parse(Response(header, contentType, date, content), true, info) ==
            Parse(content, false, r.info.(contentType := if contentType == "" then info.contentType else contentType))
  {
    StatusOfResponse(header, info);
    var i1 := StatusLine(info, header + " 200 OK").info;
    ParseLine(header + " 200 OK", Line("Content-Type: " + contentType, Trailer(date, content)), true, info);
    TypeTaken(contentType, Trailer(date, content), i1);
    TailIgnored(date, content, i1.(contentType := if contentType == "" then info.contentType else contentType));
  }

  lemma NotContentType(line: string, c: char, k: nat)
    requires k < 13 && k < |line| && line[k] == c && c != CONTENT_TYPE[k]
    ensures forall info: Info :: HeaderLine(info, line) == info
  {
    assert |line| > 14 ==> line[..13][k] == c;
  }

  /** A text with a carriage return loses at least that and what stood before it. */
  lemma {:induction false} ParsedIsShorter(text: string, first: bool, info: Info)
    requires info.content == ""
    ensures var r := Parse(text, first, info);
            r.Done? ==> |r.info.content| <= |text| && (!NoReturn(text) ==> |r.info.content| < |text|)
    decreases |text|
  {
    var k := First(text, '\r');
    if k < |text| {
      var r := OneLine(info, text[..k], first);
      if r.Done? && k + 2 <= |text| {
        ParsedIsShorter(text[k + 2..], false, r.info);
      }
    } else {
      assert text[..k] == text;
    }
  }

  /**
   * Round trip: for header, content type and date that break no line and fit, parsing what was printed
   * gives back content and content type exactly when the content has no carriage return.
   */
  lemma RoundTrip(header: string, contentType: string, date: string, content: string)
    requires Printable(header, contentType, date, content)
    ensures var r := Parse(Response(header, contentType, date, content), true, BLANK);
            && (r.Done? && r.info.content == content && r.info.contentType == contentType <==> NoReturn(content))
            && (NoReturn(content) ==> r.info.header == "OK")
  {
    HeadersOfResponse(header, contentType, date, content, BLANK);
    StatusOfResponse(header, BLANK);
    var i1 := StatusLine(BLANK, header + " 200 OK").info;
    var i2 := i1.(contentType := contentType);
    ContentParsed(content, i2);
  }

  // ----- The number that is printed -----

  lemma LineJoins(before: string, line: string, rest: string)
    ensures before + "\r\n" + Line(line, rest) == (before + "\r\n" + line) + "\r\n" + rest
  {
    assert Line(line, rest) == line + ("\r\n" + rest);
  }

  /** The content length stands in its line, in decimal and without leading zeros. */
  lemma LengthPrinted(header: string, contentType: string, date: string, content: string) returns (before: string, number: string)
    ensures Response(header, contentType, date, content) ==
            (before + "\r\n" + ("Content-Length: " + number)) + "\r\n" + Line("Date: " + date, content)
    ensures Value(number) == |content| && (|number| > 1 ==> number[0] != '0')
    ensures number != "" && forall i :: 0 <= i < |number| ==> '0' <= number[i] <= '9'
  {
    var first, typed := header + " 200 OK", "Content-Type: " + contentType;
    number := Digits(|content|);
    var last := Line("Date: " + date, content);
    LineJoins(first, typed, Trailer(date, content));
    before := first + "\r\n" + typed;
    LineJoins(before, "Server: localhost", Line("Content-Length: " + number, last));
    before := before + "\r\n" + "Server: localhost";
    LineJoins(before, "Content-Length: " + number, last);
  }

  /** Base ten. */
  lemma Decimal()
    ensures Value("10") == 10 && Value("07") == 7 && Digits(10) == "10" && Digits(9) == "9"
  {
    assert "10"[..1] == "1" && "1"[..0] == "" && "07"[..1] == "0" && "0"[..0] == "";
    assert Digits(1) == "1" && "1" + "0" == "10";
  }

  // ----- Requests -----

  predicate NoSpace(s: string) {
    ' ' !in s
  }

  function RequestLine(verb: string, path: string, version: string): string {
    verb + " /" + path + " " + version
  }

  /** Header lines, each with its end, and what follows them. */
  function Lines(lines: seq<string>, rest: string): string {
    if lines == [] then rest else Line(lines[0], Lines(lines[1..], rest))
  }

  /** The request: its line, header lines, an empty line, the content. */
  function Request(verb: string, path: string, version: string, lines: seq<string>, content: string): string {
    Line(RequestLine(verb, path, version), Lines(lines, Line("", content)))
  }

  lemma RequestPieces(verb: string, path: string, version: string)
    ensures var line, f, e := RequestLine(verb, path, version), |verb|, |verb| + 2 + |path|;
            && |line| == e + 1 + |version| && line[f] == ' ' && line[..f] == verb
            && line[e] == ' ' && line[e + 1..] == version && line[f + 2..][..|path|] == path
  {
  }

  /** A request's first line: the word after the last space is the header, what follows the slash the path. */
  lemma RequestLineParsed(info: Info, verb: string, path: string, version: string)
    requires NoSpace(verb) && NoSpace(version) && version != ""
    ensures StatusLine(info, RequestLine(verb, path, version)) ==
            Done(info.(header := version, verb := CopyChars(info.verb, path, |path|)))
  {
    var line, f := RequestLine(verb, path, version), |verb|;
    var e := f + 2 + |path|;
    RequestPieces(verb, path, version);
    FirstIs(line, ' ', f);
    LastIs(line, ' ', e);
    CopiesPath(info.verb, line[f + 2..], path);
  }

  lemma CopiesPath(dst: string, src: string, path: string)
    requires |path| <= |src| && src[..|path|] == path
    ensures CopyChars(dst, src, |path|) == CopyChars(dst, path, |path|)
  {
    assert path[..|path|] == path;
  }

  /** A first line without a space sets nothing. */
  lemma NoSpaceParsed(info: Info, line: string)
    requires NoSpace(line)
    ensures StatusLine(info, line) == Done(info)
  {
  }

  /** The first line cannot be handled exactly if its first and its last space coincide or adjoin. */
  lemma TooFewSpaces(info: Info, line: string)
    ensures StatusLine(info, line).Overrun? <==>
            exists f, e :: 0 <= f <= e < |line| && e <= f + 1 && line[f] == line[e] == ' ' && NoSpace(line[..f]) && NoSpace(line[e + 1..])
  {
    if StatusLine(info, line).Overrun? {
      var f, e := First(line, ' '), Last(line, ' ');
      FirstAtMost(line, ' ', e);
      assert line[f] == line[e] == ' ' && NoSpace(line[..f]) && NoSpace(line[e + 1..]);
    }
    if f, e :| 0 <= f <= e < |line| && e <= f + 1 && line[f] == line[e] == ' ' && NoSpace(line[..f]) && NoSpace(line[e + 1..]) {
      FirstIs(line, ' ', f);
      LastIs(line, ' ', e);
    }
  }

  /** So one space is too few. */
  lemma OneSpace(info: Info, a: string, b: string)
    requires NoSpace(a) && NoSpace(b)
    ensures StatusLine(info, a + " " + b) == Overrun
  {
    var line := a + " " + b;
    assert line[|a|] == ' ' && line[..|a|] == a && line[|a| + 1..] == b;
    FirstIs(line, ' ', |a|);
    LastIs(line, ' ', |a|);
  }

  /** A line that sets the content type. */
  predicate Typed(line: string) {
    |line| > 14 && line[..13] == "Content-Type:"
  }

  ghost predicate AllFit(lines: seq<string>) {
    forall i :: 0 <= i < |lines| ==> NoReturn(lines[i]) && |lines[i]| < LINE_MAX
  }

  /** `t` is what the last line that sets the content type says, or what it was before. */
  ghost predicate TypeIs(lines: seq<string>, before: string, t: string) {
    && (forall i :: 0 <= i < |lines| && Typed(lines[i]) && !AnyTyped(lines[i + 1..]) ==> t == lines[i][14..])
    && (!AnyTyped(lines) ==> t == before)
  }

  ghost predicate AnyTyped(lines: seq<string>) {
    exists i :: 0 <= i < |lines| && Typed(lines[i])
  }

  lemma TypeFirst(lines: seq<string>, before: string, t: string)
    requires lines != [] && TypeIs(lines[1..], if Typed(lines[0]) then lines[0][14..] else before, t)
    ensures TypeIs(lines, before, t)
  {
    var rest := lines[1..];
    forall i | 0 <= i < |lines| && Typed(lines[i]) && !AnyTyped(lines[i + 1..]) ensures t == lines[i][14..] {
      if i > 0 { assert rest[i - 1] == lines[i] && rest[i..] == lines[i + 1..]; }
    }
    if !AnyTyped(lines) {
      forall i | 0 <= i < |rest| ensures !Typed(rest[i]) { assert rest[i] == lines[i + 1]; }
    }
  }

  /** Header lines set the content type, the last one that does so prevailing, and nothing else. */
  lemma {:induction false} LinesParsed(lines: seq<string>, rest: string, info: Info) returns (t: string)
    requires AllFit(lines)
    ensures TypeIs(lines, info.contentType, t)
    ensures Parse(Lines(lines, rest), false, info) == Parse(rest, false, info.(contentType := t))
    decreases |lines|
  {
    t := info.contentType;
    if lines != [] {
      ParseLine(lines[0], Lines(lines[1..], rest), false, info);
      t := LinesParsed(lines[1..], rest, HeaderLine(info, lines[0]));
      TypeFirst(lines, info.contentType, t);
    }
  }

  /** The request line and the header lines leave the content to the rest. */
  lemma HeadersOfRequest(verb: string, path: string, version: string, lines: seq<string>, content: string) returns (t: string)
    requires NoSpace(verb) && NoSpace(version) && version != "" && NoReturn(RequestLine(verb, path, version))
    requires |RequestLine(verb, path, version)| < LINE_MAX && AllFit(lines)
    ensures TypeIs(lines, "", t)
    ensures Parse(Request(verb, path, version, lines, content), true, BLANK) ==
            Parse(content, false, Info("", path, version, t))
  {
    var info := Info("", path, version, "");
    RequestLineParsed(BLANK, verb, path, version);
    assert CopyChars("", path, |path|) == path;
    ParseLine(RequestLine(verb, path, version), Lines(lines, Line("", content)), true, BLANK);
    t := LinesParsed(lines, Line("", content), info);
    ParseLine("", content, false, info.(contentType := t));
  }

  /** What is left after the last header line. */
  lemma ContentParsed(content: string, info: Info)
    requires info.content == ""
    ensures var r := Parse(content, false, info);
            && (NoReturn(content) ==> r == Done(info.(content := content)))
            && (r.Done? && r.info.content == content <==> NoReturn(content))
  {
    if NoReturn(content) {
      assert content[0..] == content && content[..|content|] == content;
      ParseRest(content, 0, false, info);
    } else {
      ParsedIsShorter(content, false, info);
    }
  }

  /**
   * A whole request: version and path come from the request line, the content type from the header lines,
   * and the content comes back exactly when it has no carriage return.
   */
  lemma RequestParsed(verb: string, path: string, version: string, lines: seq<string>, content: string) returns (t: string)
    requires NoSpace(verb) && NoSpace(version) && version != "" && NoReturn(RequestLine(verb, path, version))
    requires |RequestLine(verb, path, version)| < LINE_MAX && AllFit(lines)
    ensures TypeIs(lines, "", t)
    ensures var r := Parse(Request(verb, path, version, lines, content), true, BLANK);
            && (NoReturn(content) ==> r == Done(Info(content, path, version, t)))
            && (r.Done? && r.info.content == content <==> NoReturn(content))
  {
    t := HeadersOfRequest(verb, path, version, lines, content);
    ContentParsed(content, Info("", path, version, t));
  }
}
