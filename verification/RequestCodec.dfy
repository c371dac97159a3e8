/** HTTP requests (sections 3 and 5 of RFC 9112): writing one, parsing one, and getting back what was written. */
module RequestCodec {
  import opened Optional
  import opened Sizes
  import opened Text

  const MAX_HEADER_SECTION: nat := 64 * 1024
  const MAX_REQUEST_LINE: nat := 4096
  const MAX_HEADER_LINE: nat := 8192
  const MAX_HEADERS: nat := 128

  /** A header map is given by its fields, in the order in which they were stored. */
  datatype Header = Header(name: string, value: string)

  datatype Request = Request(verb: string, target: string, version: string, headers: seq<Header>, body: string)

  predicate IsLength(name: string) {
    SameIgnoringCase(name, "Content-Length")
  }

  predicate IsEncoding(name: string) {
    SameIgnoringCase(name, "Transfer-Encoding")
  }

  // ---------------------------------------------------------------- parsing

  /** The place of the blank line: a line end directly followed by another one. */
  predicate BlankLineAt(s: string, i: int) {
    CrLfAt(s, i) && CrLfAt(s, i + 2)
  }

  /** Where the header section ends, or -1. */
  function HeadEnd(s: string): (k: int)
    ensures k == -1 || (0 <= k && BlankLineAt(s, k))
    ensures forall i :: 0 <= i && (k == -1 || i < k) ==> !BlankLineAt(s, i)
  {
    if |s| < 4 then -1
    else if BlankLineAt(s, 0) then 0
    else
      var k := HeadEnd(s[1..]);
      assert forall i :: BlankLineAt(s, i) && i != 0 ==> BlankLineAt(s[1..], i - 1);
      if k == -1 then -1 else k + 1
  }

  predicate IsVersion(s: string) {
    |s| == 8 && s[..5] == "HTTP/" && IsDigit(s[5]) && s[6] == '.' && IsDigit(s[7])
  }

  function Decimal(s: string): Option<nat> {
    Number(s, 10)
  }

  /** Storing under a name replaces what was stored under exactly that name. */
  function Put(hs: seq<Header>, h: Header): seq<Header> {
    if hs == [] then [h]
    else if hs[0].name == h.name then [h] + hs[1..]
    else [hs[0]] + Put(hs[1..], h)
  }

  /** What has been read of the header lines so far. */
  datatype Progress = Progress(headers: seq<Header>, count: nat, sawLength: bool, sawEncoding: bool)

  const NOTHING_READ := Progress([], 0, false, false)

  /** One header line. */
  function AddLine(p: Progress, line: string): Option<Progress> {
    if line == [] || |line| > MAX_HEADER_LINE || line[0] == ' ' || line[0] == '\t' || Find(line, ':') <= 0 then None
    else
      var colon := Find(line, ':');
      var name, value := Trim(line[..colon]), Trim(line[colon + 1..]);
      var isLength := IsLength(name);
      var isEncoding := !isLength && IsEncoding(name);
      var sawLength, sawEncoding := p.sawLength || isLength, p.sawEncoding || isEncoding;
      if !IsToken(name) || (isLength && (p.sawLength || Decimal(value).None?)) || (isEncoding && p.sawEncoding)
         || (sawLength && sawEncoding) || p.count + 1 > MAX_HEADERS then None
      else Some(Progress(Put(p.headers, Header(name, value)), p.count + 1, sawLength, sawEncoding))
  }

  /** The header lines, separated by line ends. */
  function AddLines(p: Progress, s: string): Option<Progress>
    decreases |s|
  {
    if s == [] then Some(p)
    else
      var k := CrLf(s);
      var next := AddLine(p, if k == -1 then s else s[..k]);
      if next.None? || k == -1 then next else AddLines(next.value, s[k + 2..])
  }

  /** `parseHeaderLines` */
  method ParseHeaderLines(s: string) returns (headers: Option<seq<Header>>)
    ensures headers == var p := AddLines(NOTHING_READ, s); if p.None? then None else Some(p.value.headers)
  {
    var p, offset := NOTHING_READ, 0;
    assert s[0..] == s;
    while offset < |s|
      invariant 0 <= offset <= |s| && AddLines(NOTHING_READ, s) == AddLines(p, s[offset..])
    {
      hide AddLine;
      var rest := s[offset..];
      var k := CrLf(rest);
      var next := AddLine(p, if k == -1 then rest else rest[..k]);
      if next.None? {
        return None;
      }
      p := next.value;
      if k == -1 {
        return Some(p.headers);
      }
      offset := offset + k + 2;
      assert s[offset..] == rest[k + 2..];
    }
    return Some(p.headers);
  }

  /** The three words of a request line. */
  function RequestLine(line: string): Option<(string, string, string)> {
    var first := Find(line, ' ');
    if first <= 0 then None
    else
      var rest := line[first + 1..];
      var second := Find(rest, ' ');
      if second <= 0 || Find(rest[second + 1..], ' ') != -1 then None
      else Some((line[..first], rest[..second], rest[second + 1..]))
  }

  /**
   `parseRequestHead`. The header lines are taken from behind the request line to the end of the header
   section; when there are none, the count wraps around and everything behind the request line is taken.
   */
  function ParseHead(data: string): Option<Request> {
    var end, lineEnd := HeadEnd(data), CrLf(data);
    if end == -1 || end > MAX_HEADER_SECTION || lineEnd == -1 || lineEnd > MAX_REQUEST_LINE then None
    else
      var words := RequestLine(data[..lineEnd]);
      if words.None? || !IsToken(words.value.0) || words.value.1 == [] || !IsVersion(words.value.2) then None
      else
        var lines := if lineEnd + 2 <= end then data[lineEnd + 2..end] else data[lineEnd + 2..];
        var p := AddLines(NOTHING_READ, lines);
        if p.None? then None
        else Some(Request(words.value.0, words.value.1, words.value.2, p.value.headers, []))
  }

  /** Whether a comma-separated list holds a token. */
  predicate HoldsToken(list: string, token: string)
    decreases |list|
  {
    var comma := Find(list, ',');
    || SameIgnoringCase(Trim(if comma == -1 then list else list[..comma]), token)
    || (comma != -1 && HoldsToken(list[comma + 1..], token))
  }

  predicate IsChunked(headers: seq<Header>) {
    exists i :: 0 <= i < |headers| && IsEncoding(headers[i].name) && HoldsToken(headers[i].value, "chunked")
  }

  /** The order in which the header map is walked. */
  predicate Before(a: string, b: string) {
    b != [] && (a == [] || a[0] < b[0] || (a[0] == b[0] && Before(a[1..], b[1..])))
  }

  /** `getHeader`: the first field of a name, whatever the case, in the order of the map. */
  function Get(hs: seq<Header>, name: string): Option<Header> {
    if hs == [] then None
    else
      var h, other := hs[|hs| - 1], Get(hs[..|hs| - 1], name);
      if !SameIgnoringCase(h.name, name) then other
      else if other.None? || Before(h.name, other.value.name) then Some(h)
      else other
  }

  /** The declared length; `None` if there is none or it is no number. */
  function ContentLength(headers: seq<Header>): Option<nat> {
    var h := Get(headers, "Content-Length");
    if h.None? then None else Decimal(Trim(h.value.value))
  }

  /** `assignMessageBody` */
  function BodyOf(remaining: string, headers: seq<Header>): Option<string> {
    if IsChunked(headers) || ContentLength(headers).None? then Some(remaining)
    else
      var n := ContentLength(headers).value;
      if n > |remaining| then None else Some(remaining[..n])
  }

  /** `parseRequest` */
  function Parse(data: string): Option<Request> {
    var head := ParseHead(data);
    if head.None? then None
    else
      var body := BodyOf(data[HeadEnd(data) + 4..], head.value.headers);
      if body.None? then None else Some(head.value.(body := body.value))
  }

  // ---------------------------------------------------------------- writing

  function HeaderLine(h: Header): string {
    h.name + ": " + h.value
  }

  function Lines(hs: seq<Header>): string {
    if hs == [] then "" else Lines(hs[..|hs| - 1]) + (HeaderLine(hs[|hs| - 1]) + "\r\n")
  }

  /** Whether the fields say themselves where the body ends. */
  predicate Framed(hs: seq<Header>) {
    exists h :: h in hs && (IsLength(h.name) || IsEncoding(h.name))
  }

  function LengthField(n: nat): Header {
    Header("Content-Length", Digits(n, 10))
  }

  function LengthHeader(body: string): Header {
    LengthField(|body|)
  }

  /** The header fields as they are sent: with a length, unless length or encoding is among them. */
  function Sent(hs: seq<Header>, body: string): seq<Header> {
    if Framed(hs) then hs else hs + [LengthHeader(body)]
  }

  function StartLine(verb: string, target: string): string {
    verb + " " + (target + " " + "HTTP/1.1")
  }

  /** `buildRequest` */
  function Build(verb: string, target: string, hs: seq<Header>, body: string): string {
    StartLine(verb, target) + "\r\n" + Lines(Sent(hs, body)) + "\r\n" + body
  }

  lemma NoLines()
    ensures Lines([]) == "" && !Framed([])
  {
  }

  lemma OneMore(hs: seq<Header>, h: Header, output: string)
    ensures output + Lines(hs + [h]) == output + Lines(hs) + (HeaderLine(h) + "\r\n")
    ensures Framed(hs + [h]) <==> Framed(hs) || IsLength(h.name) || IsEncoding(h.name)
  {
    hide HeaderLine; hide IsLength; hide IsEncoding;
    assert (hs + [h])[..|hs|] == hs;
    assert forall g :: g in hs + [h] <==> g in hs || g == h;
    var a, b := Lines(hs), HeaderLine(h) + "\r\n";
    assert output + (a + b) == output + a + b;
  }

  /** `appendHeaders` */
  method AppendHeaders(output: string, hs: seq<Header>, body: string) returns (r: string)
    ensures r == output + Lines(Sent(hs, body))
  {
    hide Lines; hide Framed; hide HeaderLine; hide IsLength; hide IsEncoding; hide LengthHeader;
    NoLines();
    r := output;
    var hasLength, hasEncoding := false, false;
    var i := 0;
    while i < |hs|
      invariant 0 <= i <= |hs| && r == output + Lines(hs[..i])
      invariant hasLength || hasEncoding <==> Framed(hs[..i])
    {
      if IsLength(hs[i].name) {
        hasLength := true;
      } else if IsEncoding(hs[i].name) {
        hasEncoding := true;
      }
      OneMore(hs[..i], hs[i], output);
      assert hs[..i + 1] == hs[..i] + [hs[i]];
      r := r + (HeaderLine(hs[i]) + "\r\n");
      i := i + 1;
    }
    assert hs[..i] == hs;
    if !hasLength && !hasEncoding {
      OneMore(hs, LengthHeader(body), output);
      r := r + (HeaderLine(LengthHeader(body)) + "\r\n");
    }
  }

  // ---------------------------------------------------------------- what can be written and read back

  predicate OneLine(s: string) {
    forall c :: c in s ==> c != '\r' && c != '\n'
  }

  /** A header field that is not about the body's framing. */
  predicate PlainField(h: Header) {
    && IsToken(h.name) && Trimmed(h.value) && OneLine(h.value)
    && !IsLength(h.name) && !IsEncoding(h.name)
    && |HeaderLine(h)| <= MAX_HEADER_LINE
  }

  predicate DistinctNames(hs: seq<Header>) {
    forall i, j :: 0 <= i < j < |hs| ==> hs[i].name != hs[j].name
  }

  predicate Writable(verb: string, target: string, hs: seq<Header>, body: string) {
    && IsToken(verb)
    && target != [] && OneLine(target) && ' ' !in target
    && (forall h :: h in hs ==> PlainField(h)) && DistinctNames(hs)
    && |StartLine(verb, target)| <= MAX_REQUEST_LINE
    && |hs| < MAX_HEADERS
    && |body| <= SIZE_MAX
    && |StartLine(verb, target)| + |Lines(Sent(hs, body))| <= MAX_HEADER_SECTION
  }

  // ---------------------------------------------------------------- tokens and lines

  lemma TokenCharIsPlain(c: char)
    requires IsTokenChar(c)
    ensures c != '\r' && c != '\n' && c != ' ' && c != ':' && c != '\t' && !IsSpace(c)
  {
  }

  lemma TokenIsOneLine(s: string)
    requires IsToken(s)
    ensures OneLine(s) && Trimmed(s) && ' ' !in s && ':' !in s && s[0] != '\t'
  {
    hide IsTokenChar; hide IsSpace;
    forall c | c in s
      ensures c != '\r' && c != '\n' && c != ' ' && c != ':' && c != '\t' && !IsSpace(c)
    {
      TokenCharIsPlain(c);
    }
    assert s[0] in s && s[|s| - 1] in s;
  }

  lemma LineIsOneLine(h: Header)
    requires IsToken(h.name) && OneLine(h.value)
    ensures OneLine(HeaderLine(h)) && HeaderLine(h) != []
  {
    TokenIsOneLine(h.name);
    hide IsToken;
  }

  lemma FirstLine(line: string, rest: string)
    requires OneLine(line)
    ensures var s := line + "\r\n" + rest; CrLf(s) == |line| && s[..|line|] == line && s[|line| + 2..] == rest
  {
    var s := line + "\r\n" + rest;
    forall i | 0 <= i < |line| ensures s[i] != '\r' {
      assert s[i] == line[i] && line[i] in line;
    }
    assert CrLfAt(s, |line|);
    CrLfIs(s, |line|);
  }

  lemma NoLine(line: string)
    requires OneLine(line)
    ensures CrLf(line) == -1
  {
    if CrLf(line) != -1 {
      assert line[CrLf(line)] in line;
    }
  }

  lemma CrLfShift(a: string, rest: string, i: nat)
    ensures CrLfAt(a + rest, |a| + i) <==> CrLfAt(rest, i)
  {
  }

  lemma BlankShift(a: string, rest: string, i: nat)
    ensures BlankLineAt(a + rest, |a| + i) <==> BlankLineAt(rest, i)
  {
    CrLfShift(a, rest, i);
    CrLfShift(a, rest, i + 2);
  }

  /** No blank line begins inside a line. */
  lemma NoBlankInside(line: string, rest: string, i: nat)
    requires OneLine(line) && i < |line|
    ensures !BlankLineAt(line + "\r\n" + rest, i)
  {
    assert (line + "\r\n" + rest)[i] == line[i] && line[i] in line;
  }

  lemma HeadEndIs(s: string, k: nat)
    requires BlankLineAt(s, k) && forall i :: 0 <= i < k ==> !BlankLineAt(s, i)
    ensures HeadEnd(s) == k
  {
  }

  lemma NoBlankBefore(line: string, rest: string)
    requires OneLine(line) && rest != [] && rest[0] != '\r'
    ensures forall i :: 0 <= i < |line| + 2 ==> !BlankLineAt(line + "\r\n" + rest, i)
  {
    var n := |line| + 2;
    var s := line + "\r\n" + rest;
    assert s[|line|] == '\r' && s[|line| + 1] == '\n' && s[n] == rest[0];
    forall i | 0 <= i < n ensures !BlankLineAt(s, i) {
      if i < |line| {
        NoBlankInside(line, rest, i);
      }
    }
  }

  /** A line followed by another nonempty one is not where the header section ends. */
  lemma HeadEndBehind(line: string, rest: string)
    requires OneLine(line) && rest != [] && rest[0] != '\r' && HeadEnd(rest) != -1
    ensures HeadEnd(line + "\r\n" + rest) == |line| + 2 + HeadEnd(rest)
  {
    hide *;
    var a, n, m := line + "\r\n", |line| + 2, HeadEnd(rest);
    NoBlankBefore(line, rest);
    forall i | n <= i <= n + m ensures BlankLineAt(a + rest, i) <==> i == n + m {
      BlankShift(a, rest, i - n);
    }
    HeadEndIs(a + rest, n + m);
  }

  // ---------------------------------------------------------------- the header section

  lemma {:induction false} LinesFront(hs: seq<Header>)
    requires hs != []
    ensures Lines(hs) == HeaderLine(hs[0]) + "\r\n" + Lines(hs[1..])
  {
    hide HeaderLine;
    var last := |hs| - 1;
    if last > 0 {
      LinesFront(hs[..last]);
      assert hs[..last][1..] == hs[1..][..last - 1] && hs[1..][last - 1] == hs[last];
      var a, b, c := HeaderLine(hs[0]) + "\r\n", Lines(hs[1..][..last - 1]), HeaderLine(hs[last]) + "\r\n";
      assert a + b + c == a + (b + c);
    } else {
      assert hs[..0] == [] && hs[1..] == [];
    }
  }

  predicate Sendable(hs: seq<Header>) {
    forall h :: h in hs ==> IsToken(h.name) && OneLine(h.value)
  }

  lemma StartsPlainly(hs: seq<Header>, rest: string)
    requires hs != [] && Sendable(hs)
    ensures var s := Lines(hs) + rest; s != [] && s[0] != '\r'
  {
    LinesFront(hs);
    assert hs[0] in hs;
    LineIsOneLine(hs[0]);
    hide HeaderLine; hide IsToken; hide Lines;
    assert HeaderLine(hs[0])[0] in HeaderLine(hs[0]);
  }

  lemma HeadEndHere(line: string, body: string)
    requires OneLine(line)
    ensures HeadEnd(line + "\r\n" + ("\r\n" + body)) == |line|
  {
    var s := line + "\r\n" + ("\r\n" + body);
    forall i | 0 <= i < |line| ensures !BlankLineAt(s, i) {
      NoBlankInside(line, "\r\n" + body, i);
    }
    assert BlankLineAt(s, |line|);
    hide BlankLineAt; hide HeadEnd;
  }

  lemma Rejoin(first: string, rest: string, body: string)
    ensures first + "\r\n" + rest + ("\r\n" + body) == first + "\r\n" + (rest + ("\r\n" + body))
  {
  }

  /** The header section of what is sent ends with its last line. */
  lemma {:induction false} HeadEndOf(line: string, hs: seq<Header>, body: string)
    requires OneLine(line) && Sendable(hs)
    ensures HeadEnd(line + "\r\n" + (Lines(hs) + ("\r\n" + body))) == |line| + |Lines(hs)|
    decreases |hs|
  {
    if hs == [] {
      HeadEndHere(line, body);
      assert Lines(hs) + ("\r\n" + body) == "\r\n" + body;
    } else {
      StartsPlainly(hs, "\r\n" + body);
      LinesFront(hs);
      assert hs[0] in hs;
      LineIsOneLine(hs[0]);
      HeadEndOf(HeaderLine(hs[0]), hs[1..], body);
      Rejoin(HeaderLine(hs[0]), Lines(hs[1..]), body);
      hide *;
      HeadEndBehind(line, Lines(hs) + ("\r\n" + body));
    }
  }

  // ---------------------------------------------------------------- reading the lines back

  lemma SplitLine(h: Header)
    requires IsToken(h.name) && Trimmed(h.value)
    ensures var line := HeaderLine(h);
      && line != [] && line[0] != ' ' && line[0] != '\t' && 0 < Find(line, ':') == |h.name| < |line|
      && Trim(line[..|h.name|]) == h.name && Trim(line[|h.name| + 1..]) == h.value
  {
    var line := HeaderLine(h);
    TokenIsOneLine(h.name);
    hide IsToken;
    assert line[|h.name|] == ':' && line[0] == h.name[0] && h.name[0] in h.name;
    forall i | 0 <= i < |h.name| ensures line[i] != ':' {
      assert line[i] == h.name[i] && h.name[i] in h.name;
    }
    FindIs(line, ':', |h.name|);
    hide Find;
    assert line[..|h.name|] == h.name && line[|h.name| + 1..] == [' '] + h.value;
    TrimTrimmed(h.name);
    TrimAfterSpace(h.value);
    hide Trim;
  }

  /** A header line whose name is fresh adds the field at the end. */
  lemma AddHeader(p: Progress, h: Header)
    requires IsToken(h.name) && Trimmed(h.value) && |HeaderLine(h)| <= MAX_HEADER_LINE && p.count < MAX_HEADERS
    requires forall g :: g in p.headers ==> g.name != h.name
    requires !IsEncoding(h.name) && !p.sawEncoding
    requires IsLength(h.name) ==> !p.sawLength && Decimal(h.value).Some?
    ensures AddLine(p, HeaderLine(h)) == Some(Progress(p.headers + [h], p.count + 1, p.sawLength ||
      IsLength(h.name), false))
  {
    SplitLine(h);
    PutFresh(p.headers, h);
    hide IsToken; hide Trim; hide IsLength; hide IsEncoding; hide Decimal; hide Put; hide Find; hide HeaderLine;
    hide Trimmed;
  }

  lemma {:induction false} PutFresh(hs: seq<Header>, h: Header)
    requires forall g :: g in hs ==> g.name != h.name
    ensures Put(hs, h) == hs + [h]
  {
    if hs != [] {
      PutFresh(hs[1..], h);
      assert hs == [hs[0]] + hs[1..];
    }
  }

  /** What is required of the remaining fields, given what was read. */
  predicate Readable(p: Progress, hs: seq<Header>) {
    && p.count + |hs| <= MAX_HEADERS && !p.sawEncoding
    && (forall h :: h in hs ==>
        && IsToken(h.name) && Trimmed(h.value) && OneLine(h.value) && |HeaderLine(h)| <= MAX_HEADER_LINE
        && !IsEncoding(h.name)
        && (IsLength(h.name) ==> !p.sawLength && Decimal(h.value).Some?))
    && (forall i, j :: 0 <= i < j < |hs| ==>
        !(IsLength(hs[i].name) && IsLength(hs[j].name)))
    && DistinctNames(p.headers + hs)
  }

  lemma ReadableNext(p: Progress, hs: seq<Header>)
    requires hs != [] && Readable(p, hs)
    ensures AddLine(p, HeaderLine(hs[0])).Some?
    ensures var next := AddLine(p, HeaderLine(hs[0])).value;
      Readable(next, hs[1..]) && next.headers == p.headers + [hs[0]]
    ensures OneLine(HeaderLine(hs[0])) && HeaderLine(hs[0]) != []
  {
    var h := hs[0];
    assert h in hs;
    forall g | g in p.headers ensures g.name != h.name {
      var i :| 0 <= i < |p.headers| && p.headers[i] == g;
      assert (p.headers + hs)[i] == g && (p.headers + hs)[|p.headers|] == h;
    }
    AddHeader(p, h);
    LineIsOneLine(h);
    hide AddLine; hide IsToken; hide IsLength; hide IsEncoding; hide Decimal; hide HeaderLine; hide Trimmed;
    hide OneLine;
    assert p.headers + [h] + hs[1..] == p.headers + hs;
    assert forall g :: g in hs[1..] ==> g in hs;
  }

  lemma AddLinesStep(p: Progress, line: string, rest: string)
    requires OneLine(line)
    ensures AddLines(p, line + "\r\n" + rest)
         == var next := AddLine(p, line); if next.None? then None else AddLines(next.value, rest)
  {
    hide AddLine;
    FirstLine(line, rest);
    hide CrLf;
  }

  lemma AddLinesLast(p: Progress, line: string)
    requires OneLine(line) && line != []
    ensures AddLines(p, line) == AddLine(p, line)
  {
    hide AddLine;
    NoLine(line);
  }

  lemma CutLineEnd(line: string, lines: string)
    requires |lines| >= 2
    ensures var s := line + "\r\n" + lines; s[..|s| - 2] == line + "\r\n" + lines[..|lines| - 2]
  {
  }

  /** The header lines without the last line end, as they lie between request line and blank line. */
  lemma {:induction false} ReadLines(p: Progress, hs: seq<Header>)
    requires hs != [] && Readable(p, hs)
    ensures |Lines(hs)| >= 2
    ensures var r := AddLines(p, Lines(hs)[..|Lines(hs)| - 2]);
      r.Some? && r.value.headers == p.headers + hs
    decreases |hs|
  {
    hide *;
    LinesFront(hs);
    ReadableNext(p, hs);
    var line, next, tail := HeaderLine(hs[0]), AddLine(p, HeaderLine(hs[0])).value, hs[1..];
    assert p.headers + [hs[0]] + tail == p.headers + hs;
    if tail == [] {
      NoLines();
      AddLinesLast(p, line);
      assert (line + "\r\n" + "")[..|line|] == line;
    } else {
      ReadLines(next, tail);
      AddLinesStep(p, line, Lines(tail)[..|Lines(tail)| - 2]);
      CutLineEnd(line, Lines(tail));
    }
  }

  // ---------------------------------------------------------------- the request line

  lemma FirstWord(a: string, rest: string)
    requires ' ' !in a
    ensures var s := a + " " + rest; Find(s, ' ') == |a| && s[..|a|] == a && s[|a| + 1..] == rest
  {
    var s := a + " " + rest;
    forall i | 0 <= i < |a| ensures s[i] != ' ' {
      assert s[i] == a[i] && a[i] in a;
    }
    assert s[|a|] == ' ';
    FindIs(s, ' ', |a|);
  }

  lemma ThreeWords(a: string, b: string, c: string)
    requires a != [] && b != [] && ' ' !in a && ' ' !in b && ' ' !in c
    ensures RequestLine(a + " " + (b + " " + c)) == Some((a, b, c))
  {
    FirstWord(a, b + " " + c);
    FirstWord(b, c);
    assert Find(c, ' ') == -1;
    hide Find;
  }

  lemma StartIsOneLine(a: string, b: string, c: string)
    requires OneLine(a) && OneLine(b) && OneLine(c)
    ensures OneLine(a + " " + (b + " " + c))
  {
  }

  lemma ReadRequestLine(verb: string, target: string)
    requires IsToken(verb) && target != [] && OneLine(target) && ' ' !in target
    ensures RequestLine(StartLine(verb, target)) == Some((verb, target, "HTTP/1.1")) && OneLine(StartLine(verb, target))
  {
    TokenIsOneLine(verb);
    var version := "HTTP/1.1";
    assert ' ' !in version && OneLine(version);
    ThreeWords(verb, target, version);
    hide *;
    StartIsOneLine(verb, target, version);
  }

  // ---------------------------------------------------------------- the round trip

  lemma NotEncoding()
    ensures !IsEncoding("Content-Length") && IsLength("Content-Length") && IsToken("Content-Length")
  {
    var s := "Content-Length";
    assert |s| != |"Transfer-Encoding"|;
    assert forall c :: c in s ==> IsAlnum(c) || c == '-';
  }

  lemma LengthFieldReadable(n: nat)
    requires n <= SIZE_MAX
    ensures var h := LengthField(n);
      && IsToken(h.name) && Trimmed(h.value) && OneLine(h.value) && |HeaderLine(h)| <= MAX_HEADER_LINE
      && !IsEncoding(h.name) && IsLength(h.name) && Decimal(h.value) == Some(n)
  {
    NotEncoding();
    var h := LengthField(n);
    DigitsRoundTrip(n, 10);
    AlnumTrimmed(h.value);
    DigitsShort(n);
    hide IsToken; hide IsEncoding; hide IsLength; hide FromDigits; hide Digits; hide Trimmed;
  }

  lemma NamesApart(hs: seq<Header>, h: Header)
    requires DistinctNames(hs) && IsLength(h.name) && forall g :: g in hs ==> !IsLength(g.name)
    ensures DistinctNames([] + (hs + [h]))
    ensures forall i, j :: 0 <= i < j < |hs| + 1 ==> !(IsLength((hs + [h])[i].name) && IsLength((hs + [h])[j].name))
  {
    hide IsLength;
    var all := hs + [h];
    assert [] + all == all;
    forall i, j | 0 <= i < j < |all|
      ensures all[i].name != all[j].name && !(IsLength(all[i].name) && IsLength(all[j].name))
    {
      assert all[i] == hs[i] && hs[i] in hs;
    }
  }

  lemma SentIsReadable(hs: seq<Header>, body: string)
    requires (forall h :: h in hs ==> PlainField(h)) && DistinctNames(hs) && |hs| < MAX_HEADERS && |body| <= SIZE_MAX
    ensures Sent(hs, body) == hs + [LengthHeader(body)]
    ensures Readable(NOTHING_READ, Sent(hs, body)) && Sendable(Sent(hs, body))
    ensures Decimal(LengthHeader(body).value) == Some(|body|)
  {
    var h := LengthHeader(body);
    LengthFieldReadable(|body|);
    NamesApart(hs, h);
    assert forall g :: g in hs + [h] ==> g in hs || g == h;
    hide IsToken; hide IsEncoding; hide IsLength; hide Decimal; hide LengthHeader; hide HeaderLine; hide OneLine;
    hide Trimmed; hide DistinctNames;
  }

  lemma DigitsShort(n: nat)
    requires n <= SIZE_MAX
    ensures |Digits(n, 10)| <= 20
  {
    assert Pow10(5) == 100_000;
    assert Pow10(10) == 10_000_000_000;
    assert Pow10(15) == 1_000_000_000_000_000;
    assert Pow10(19) == 10_000_000_000_000_000_000;
    DigitsBelow(n, 19);
  }

  function Pow10(k: nat): nat {
    if k == 0 then 1 else 10 * Pow10(k - 1)
  }

  lemma {:induction false} DigitsBelow(n: nat, k: nat)
    requires n < 10 * Pow10(k)
    ensures |Digits(n, 10)| <= k + 1
  {
    if n >= 10 {
      if k > 0 {
        DigitsBelow(n / 10, k - 1);
      }
    }
  }

  lemma {:induction false} GetAbsent(hs: seq<Header>, name: string)
    requires forall h :: h in hs ==> !SameIgnoringCase(h.name, name)
    ensures Get(hs, name) == None
  {
    hide SameIgnoringCase; hide Before;
    if hs != [] {
      var front := hs[..|hs| - 1];
      assert forall h :: h in front ==> h in hs;
      GetAbsent(front, name);
      assert hs[|hs| - 1] in hs;
    }
  }

  lemma GetLast(hs: seq<Header>, h: Header, name: string)
    requires (forall g :: g in hs ==> !SameIgnoringCase(g.name, name)) && SameIgnoringCase(h.name, name)
    ensures Get(hs + [h], name) == Some(h)
  {
    GetAbsent(hs, name);
    assert (hs + [h])[..|hs|] == hs;
    hide SameIgnoringCase; hide Before;
  }

  lemma IsVersionHttp11()
    ensures IsVersion("HTTP/1.1")
  {
    var s := "HTTP/1.1";
    assert s[..5] == "HTTP/";
  }

  lemma HeadOfBuilt(line: string, sent: seq<Header>, tail: string)
    requires OneLine(line) && Sendable(sent) && sent != []
    ensures var data, lines := line + "\r\n" + (Lines(sent) + ("\r\n" + tail)), Lines(sent);
      && |lines| >= 2
      && CrLf(data) == |line| && data[..|line|] == line && HeadEnd(data) == |line| + |lines|
      && data[|line| + 2..HeadEnd(data)] == lines[..|lines| - 2] && data[HeadEnd(data) + 4..] == tail
  {
    LinesFront(sent);
    HeadEndOf(line, sent, tail);
    var lines := Lines(sent);
    FirstLine(line, lines + ("\r\n" + tail));
    hide *;
    var data := line + "\r\n" + (lines + ("\r\n" + tail));
    assert |lines| >= 2;
    assert data[|line| + 2..|line| + |lines|] == lines[..|lines| - 2];
    assert data[|line| + |lines| + 4..] == tail;
  }

  lemma BodyOfBuilt(hs: seq<Header>, body: string, rest: string)
    requires (forall h :: h in hs ==> PlainField(h)) && Decimal(LengthHeader(body).value) == Some(|body|)
    requires |body| <= SIZE_MAX
    ensures BodyOf(body + rest, hs + [LengthHeader(body)]) == Some(body)
  {
    NotEncoding();
    var h := LengthHeader(body);
    DigitsRoundTrip(|body|, 10);
    AlnumTrimmed(h.value);
    TrimTrimmed(h.value);
    assert IsLength(h.name);
    hide IsLength; hide IsEncoding; hide Decimal; hide Digits; hide FromDigits; hide Trim; hide HoldsToken;
    hide IsToken;
    GetLast(hs, h, "Content-Length");
    var all := hs + [h];
    forall i | 0 <= i < |all| ensures !IsEncoding(all[i].name) {
      assert i < |hs| ==> all[i] in hs;
    }
    assert (body + rest)[..|body|] == body;
  }

  lemma Layout(verb: string, target: string, hs: seq<Header>, body: string, rest: string)
    ensures Build(verb, target, hs, body) + rest
         == StartLine(verb, target) + "\r\n" + (Lines(Sent(hs, body)) + ("\r\n" + (body + rest)))
  {
    var a, b := StartLine(verb, target), Lines(Sent(hs, body));
    hide StartLine; hide Lines; hide Sent;
    assert a + "\r\n" + b + "\r\n" + body + rest == a + "\r\n" + (b + ("\r\n" + (body + rest)));
  }

  lemma ParseHeadIs(data: string, verb: string, target: string, version: string, headers: seq<Header>)
    requires 0 <= CrLf(data) < HeadEnd(data) - 1 && CrLf(data) <= MAX_REQUEST_LINE &&
      HeadEnd(data) <= MAX_HEADER_SECTION
    requires RequestLine(data[..CrLf(data)]) == Some((verb, target, version))
    requires IsToken(verb) && target != [] && IsVersion(version)
    requires AddLines(NOTHING_READ, data[CrLf(data) + 2..HeadEnd(data)]).Some?
    requires AddLines(NOTHING_READ, data[CrLf(data) + 2..HeadEnd(data)]).value.headers == headers
    ensures ParseHead(data) == Some(Request(verb, target, version, headers, []))
  {
    hide RequestLine; hide IsVersion; hide IsToken; hide AddLines; hide HeadEnd; hide CrLf;
  }

  lemma NothingRead()
    ensures NOTHING_READ.headers == []
  {
  }

  lemma HeadParses(verb: string, target: string, sent: seq<Header>, tail: string)
    requires IsToken(verb) && target != [] && OneLine(target) && ' ' !in target
    requires |StartLine(verb, target)| <= MAX_REQUEST_LINE &&
      |StartLine(verb, target)| + |Lines(sent)| <= MAX_HEADER_SECTION
    requires sent != [] && Sendable(sent) && Readable(NOTHING_READ, sent)
    ensures var data := StartLine(verb, target) + "\r\n" + (Lines(sent) + ("\r\n" + tail));
      && ParseHead(data) == Some(Request(verb, target, "HTTP/1.1", sent, []))
      && HeadEnd(data) != -1 && data[HeadEnd(data) + 4..] == tail
  {
    hide *;
    var line, lines := StartLine(verb, target), Lines(sent);
    ReadRequestLine(verb, target);
    HeadOfBuilt(line, sent, tail);
    ReadLines(NOTHING_READ, sent);
    assert NOTHING_READ.headers + sent == sent by { NothingRead(); }
    IsVersionHttp11();
    var data := line + "\r\n" + (lines + ("\r\n" + tail));
    ParseHeadIs(data, verb, target, "HTTP/1.1", sent);
  }

  lemma ParseIs(data: string, head: Request, body: string)
    requires HeadEnd(data) != -1 && ParseHead(data) == Some(head)
    requires BodyOf(data[HeadEnd(data) + 4..], head.headers) == Some(body)
    ensures Parse(data) == Some(head.(body := body))
  {
    hide ParseHead; hide BodyOf; hide HeadEnd;
  }

  lemma WritableParts(verb: string, target: string, hs: seq<Header>, body: string)
    requires Writable(verb, target, hs, body)
    ensures IsToken(verb) && target != [] && OneLine(target) && ' ' !in target && |body| <= SIZE_MAX
    ensures (forall h :: h in hs ==> PlainField(h)) && DistinctNames(hs) && |hs| < MAX_HEADERS
    ensures |StartLine(verb, target)| <= MAX_REQUEST_LINE
    ensures |StartLine(verb, target)| + |Lines(Sent(hs, body))| <= MAX_HEADER_SECTION
  {
    hide IsToken; hide OneLine; hide PlainField; hide DistinctNames; hide StartLine; hide Lines; hide Sent;
  }

  /**
   Parsing a request that was written, whatever follows it on the wire, gives back the method, the target,
   the header fields with the generated length, and the body.
   */
  lemma RoundTrip(verb: string, target: string, hs: seq<Header>, body: string, rest: string)
    requires Writable(verb, target, hs, body)
    ensures Parse(Build(verb, target, hs, body) + rest)
         == Some(Request(verb, target, "HTTP/1.1", hs + [LengthHeader(body)], body))
  {
    hide *;
    WritableParts(verb, target, hs, body);
    SentIsReadable(hs, body);
    Layout(verb, target, hs, body, rest);
    HeadParses(verb, target, Sent(hs, body), body + rest);
    BodyOfBuilt(hs, body, rest);
    ParseIs(Build(verb, target, hs, body) + rest, Request(verb, target, "HTTP/1.1", hs + [LengthHeader(body)], []),
      body);
  }

  // ---------------------------------------------------------------- requests without header fields

  /** A request without a single header field is rejected, whatever else it holds. */
  lemma NoFieldsRejected(data: string)
    requires HeadEnd(data) != -1 && HeadEnd(data) == CrLf(data)
    ensures Parse(data) == None
  {
    var end := HeadEnd(data);
    var lines := data[end + 2..];
    assert BlankLineAt(data, end) && CrLfAt(lines, 0);
    CrLfIs(lines, 0);
    assert lines[..0] == [];
    assert AddLine(NOTHING_READ, lines[..0]) == None;
    hide AddLine; hide RequestLine; hide IsVersion; hide IsToken; hide CrLf; hide HeadEnd;
    assert AddLines(NOTHING_READ, lines) == None;
  }

  // ---------------------------------------------------------------- accepted heads are unambiguous

  /** Storing puts a field at the end, or in the place of the one field of that very name. */
  lemma {:induction false} PutIs(hs: seq<Header>, h: Header) returns (k: nat)
    ensures k <= |hs|
    ensures Put(hs, h) == if k == |hs| then hs + [h] else hs[k := h]
    ensures k < |hs| ==> hs[k].name == h.name
  {
    if hs == [] || hs[0].name == h.name {
      k := 0;
    } else {
      k := PutIs(hs[1..], h);
      k := k + 1;
      assert hs == [hs[0]] + hs[1..];
    }
  }

  /** The fields so far bear out what is remembered of them, and do not contradict each other about the body. */
  predicate Unambiguous(p: Progress) {
    && |p.headers| <= p.count <= MAX_HEADERS
    && (forall h :: h in p.headers ==> IsToken(h.name))
    && (forall h :: h in p.headers && IsLength(h.name) ==> p.sawLength)
    && (forall h :: h in p.headers && IsEncoding(h.name) ==> p.sawEncoding)
    && (forall i, j :: 0 <= i < j < |p.headers| ==> !(IsLength(p.headers[i].name) && IsLength(p.headers[j].name)))
    && (forall i, j :: 0 <= i < j < |p.headers| ==> !(IsEncoding(p.headers[i].name) && IsEncoding(p.headers[j].name)))
    && !(p.sawLength && p.sawEncoding)
  }

  /** A field in the place of one of the same name, or at the end, is the only one of its kind if it was before. */
  lemma StoredOnce(hs: seq<Header>, h: Header, k: nat)
    requires k <= |hs| && (k < |hs| ==> hs[k].name == h.name)
    requires forall i, j :: 0 <= i < j < |hs| ==> !(IsLength(hs[i].name) && IsLength(hs[j].name))
    requires forall i, j :: 0 <= i < j < |hs| ==> !(IsEncoding(hs[i].name) && IsEncoding(hs[j].name))
    requires forall g :: g in hs ==> !(IsLength(h.name) && IsLength(g.name))
    requires forall g :: g in hs ==> !(IsEncoding(h.name) && IsEncoding(g.name))
    ensures var r := if k == |hs| then hs + [h] else hs[k := h];
      && (forall i, j :: 0 <= i < j < |r| ==> !(IsLength(r[i].name) && IsLength(r[j].name)))
      && (forall i, j :: 0 <= i < j < |r| ==> !(IsEncoding(r[i].name) && IsEncoding(r[j].name)))
      && (forall g :: g in r ==> g == h || g in hs)
  {
    hide IsLength; hide IsEncoding;
    var r := if k == |hs| then hs + [h] else hs[k := h];
    assert forall i :: 0 <= i < |r| ==> if i == k then r[i] == h else r[i] == hs[i] && hs[i] in hs;
  }

  lemma PutUnambiguous(p: Progress, h: Header, sawLength: bool, sawEncoding: bool)
    requires Unambiguous(p) && IsToken(h.name) && p.count < MAX_HEADERS && !(sawLength && sawEncoding)
    requires sawLength == (p.sawLength || IsLength(h.name)) && !(p.sawLength && IsLength(h.name))
    requires sawEncoding == (p.sawEncoding || IsEncoding(h.name)) && !(p.sawEncoding && IsEncoding(h.name))
    ensures Unambiguous(Progress(Put(p.headers, h), p.count + 1, sawLength, sawEncoding))
  {
    hide IsLength; hide IsEncoding; hide IsToken; hide Put;
    var k := PutIs(p.headers, h);
    StoredOnce(p.headers, h, k);
  }

  lemma LineUnambiguous(p: Progress, line: string)
    requires Unambiguous(p) && AddLine(p, line).Some?
    ensures Unambiguous(AddLine(p, line).value)
  {
    var colon := Find(line, ':');
    var name, value := Trim(line[..colon]), Trim(line[colon + 1..]);
    NotBoth(name);
    var next := AddLine(p, line).value;
    assert next == Progress(Put(p.headers, Header(name, value)), p.count + 1, next.sawLength, next.sawEncoding);
    assert next.sawLength == (p.sawLength || IsLength(name)) && next.sawEncoding == (p.sawEncoding || IsEncoding(name));
    hide Trim; hide Find; hide IsLength; hide IsEncoding; hide IsToken; hide Decimal; hide Put; hide Unambiguous;
    PutUnambiguous(p, Header(name, value), next.sawLength, next.sawEncoding);
  }

  lemma NotBoth(name: string)
    ensures !(IsLength(name) && IsEncoding(name))
  {
    assert |"Content-Length"| != |"Transfer-Encoding"|;
  }

  lemma {:induction false} LinesUnambiguous(p: Progress, s: string)
    requires Unambiguous(p) && AddLines(p, s).Some?
    ensures Unambiguous(AddLines(p, s).value)
    decreases |s|
  {
    hide AddLine; hide Unambiguous;
    if s != [] {
      var k := CrLf(s);
      var line := if k == -1 then s else s[..k];
      LineUnambiguous(p, line);
      if k != -1 {
        LinesUnambiguous(AddLine(p, line).value, s[k + 2..]);
      }
    }
  }

  lemma HeadProgress(data: string) returns (lines: string)
    requires ParseHead(data).Some?
    ensures AddLines(NOTHING_READ, lines).Some? && AddLines(NOTHING_READ,
      lines).value.headers == ParseHead(data).value.headers
  {
    hide AddLines; hide RequestLine; hide IsVersion; hide IsToken; hide HeadEnd;
    var end, lineEnd := HeadEnd(data), CrLf(data);
    lines := if lineEnd + 2 <= end then data[lineEnd + 2..end] else data[lineEnd + 2..];
  }

  lemma NothingUnambiguous()
    ensures Unambiguous(NOTHING_READ)
  {
  }

  /**
   Every accepted head says at most once how long the body is: at most one length, at most one encoding, and
   never both (section 6.3 of RFC 9112). Its names are tokens and there are at most 128 of them.
   */
  lemma AcceptedIsUnambiguous(data: string)
    requires ParseHead(data).Some?
    ensures var hs := ParseHead(data).value.headers;
      && |hs| <= MAX_HEADERS && (forall h :: h in hs ==> IsToken(h.name))
      && (forall i, j :: 0 <= i < j < |hs| ==>
          !((IsLength(hs[i].name) || IsEncoding(hs[i].name)) && (IsLength(hs[j].name) || IsEncoding(hs[j].name))))
  {
    hide AddLines; hide ParseHead; hide IsToken; hide IsLength; hide IsEncoding;
    var lines := HeadProgress(data);
    NothingUnambiguous();
    LinesUnambiguous(NOTHING_READ, lines);
    var hs := ParseHead(data).value.headers;
    assert forall i :: 0 <= i < |hs| ==> hs[i] in hs;
  }
}
