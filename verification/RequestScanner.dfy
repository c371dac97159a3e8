/** How the HTTP server takes requests off a connection's buffer, one at a time. */
module RequestScanner {
  import opened Optional
  import opened Sizes
  import opened Text
  import opened Walks
  import opened Incremental
  import opened RequestCodec
  import opened BodyScan
  import Chunked

  // ---------------------------------------------------------------- one request

  /** What the server answers: a request it hands to the application, or an error of its own. */
  datatype Answer = Served(request: Request) | Unsupported | Malformed | TooLarge

  predicate KnownMethod(verb: string) {
    exists m :: m in ["GET", "POST", "PUT", "DELETE", "HEAD", "OPTIONS", "PATCH"] && SameIgnoringCase(verb, m)
  }

  predicate IsHttp11(version: string) {
    version == "HTTP/1.1"
  }

  /** `shouldKeepAlive` */
  predicate KeepAlive(head: Request) {
    var connection := Get(head.headers, "Connection");
    if connection.None? then IsHttp11(head.version)
    else if HoldsToken(connection.value.value, "close") then false
    else HoldsToken(connection.value.value, "keep-alive") || IsHttp11(head.version)
  }

  predicate SendsChunks(head: Request) {
    var h := Get(head.headers, "Transfer-Encoding");
    h.Some? && HoldsToken(h.value.value, "chunked")
  }

  /** The length a head declares, as far as it counts: not for a chunked body, and not if it cannot be read. */
  function Declared(head: Request): Option<nat> {
    var h := Get(head.headers, "Content-Length");
    if SendsChunks(head) || h.None? then None else Stoull(h.value.value, 10)
  }

  /** The size of the body behind a head, as a verdict on what lies behind the head. */
  function ScanBehind(head: Request, rest: string): (v: Verdict<string>)
    ensures v.Item? ==> v.size <= |rest|
  {
    var n := Declared(head);
    if SendsChunks(head) then ScanBody(rest)
    else if n.Some? then if |rest| < n.value then NeedMore else Item([], n.value, true)
    else if Get(head.headers, "Content-Length").Some? then Reject
    else Item([], 0, true)
  }

  /** The request with its body, `total` characters being taken. */
  function Found(head: Request, body: string, total: nat): (v: Verdict<Answer>)
    ensures v.Item? && v.size == total
  {
    if !KnownMethod(head.verb) then Item([Unsupported], total, true)
    else Item([Served(head.(body := body))], total, !KeepAlive(head))
  }

  /** The body that reaches the application: a chunked one is decoded if it can be. */
  function BodyText(head: Request, body: string): string {
    if SendsChunks(head) && Chunked.Parse(body).Some? then Chunked.Parse(body).value else body
  }

  /**
   `tryExtractRequest` with exact arithmetic; a rejected buffer is answered as malformed and dropped as a
   whole.
   */
  function Scan(s: string): (v: Verdict<Answer>)
    ensures v.Item? ==> 4 <= v.size <= |s|
  {
    var end := HeadEnd(s);
    if end == -1 then NeedMore
    else
      var head := ParseHead(s[..end + 4]);
      if head.None? then Reject
      else
        var b := ScanBehind(head.value, s[end + 4..]);
        if b.NeedMore? then NeedMore
        else if b.Reject? then Reject
        else Found(head.value, BodyText(head.value, s[end + 4..][..b.size]), end + 4 + b.size)
  }

  /** What comes of an attempt to extract a request: a verdict, an exception, or nothing ever. */
  datatype Look = Sees(verdict: Verdict<Answer>) | Escapes | Hangs

  /** A request with a chunked body: of a known method, the body is decoded. */
  function HandOver(head: Request, body: string, total: nat): (look: Look)
    ensures look.Sees? ==> look.verdict.Item? && look.verdict.size == total
  {
    var d := Chunked.Decode(body);
    if KnownMethod(head.verb) && d.Overlong? then Escapes
    else Sees(Found(head, if d.Accepted? then d.body else body, total))
  }

  /** A request with a chunked body, where the head ends and what lies behind it. */
  function ExtractChunked(head: Request, end: nat, rest: string): (look: Look)
    ensures look.Sees? && look.verdict.Item? ==> end <= look.verdict.size <= end + |rest|
  {
    match BodySize(rest)
    case Endless => Hangs
    case Ends(answer) =>
      match answer
      case Short => Sees(NeedMore)
      case Bad => Sees(Reject)
      case Thrown => Escapes
      case Size(size) => if size <= |rest| then HandOver(head, rest[..size], end + size) else Sees(NeedMore)
  }

  /**
   `tryExtractRequest` with 64-bit sums. If the sum of head size and declared length wraps around below the size
   of the head, the size of the body wraps around as well and everything behind the head is the body.
   */
  function Extract(s: string): (look: Look)
    ensures look.Sees? && look.verdict.Item? ==> look.verdict.size <= |s|
  {
    var end := HeadEnd(s);
    if end == -1 then Sees(NeedMore)
    else
      var head := ParseHead(s[..end + 4]);
      if head.None? then Sees(Reject)
      else if SendsChunks(head.value) then ExtractChunked(head.value, end + 4, s[end + 4..])
      else if Declared(head.value).None? then Sees(Scan(s))
      else
        var total := Sum64(end + 4, Declared(head.value).value);
        if |s| < total then Sees(NeedMore)
        else Sees(Found(head.value, if total < end + 4 then s[end + 4..] else s[end + 4..total], total))
  }

  /** The head at the front declares a length that exceeds a 64-bit size together with the head. */
  predicate LengthWraps(s: string) {
    var end := HeadEnd(s);
    && end != -1
    && var head := ParseHead(s[..end + 4]);
    && head.Some? && Declared(head.value).Some?
    && end + 4 + Declared(head.value).value >= WORD
  }

  /** Behind the head at the front, some chunk has an end that exceeds a 64-bit size. */
  predicate ChunksWrap(s: string) {
    var end := HeadEnd(s);
    && end != -1
    && var head := ParseHead(s[..end + 4]);
    && head.Some? && SendsChunks(head.value) && WrapsFrom(s[end + 4..], 0)
  }

  predicate Wraps(s: string) {
    LengthWraps(s) || ChunksWrap(s)
  }

  // ---------------------------------------------------------------- more input changes no verdict

  lemma HeadEndStable(a: string, b: string)
    requires HeadEnd(a) != -1
    ensures HeadEnd(a + b) == HeadEnd(a)
  {
    var k := HeadEnd(a);
    assert BlankLineAt(a + b, k);
    forall i | 0 <= i < k ensures !BlankLineAt(a + b, i) {
      assert BlankLineAt(a + b, i) ==> BlankLineAt(a, i);
    }
    HeadEndIs(a + b, k);
  }

  lemma BehindStable(head: Request, a: string, b: string)
    requires !ScanBehind(head, a).NeedMore?
    ensures ScanBehind(head, a + b) == ScanBehind(head, a)
  {
    if SendsChunks(head) {
      BodyStable(a, b);
    }
    hide SendsChunks; hide ScanBody; hide Get; hide Declared;
  }

  lemma ScanStable(a: string, b: string)
    requires !Scan(a).NeedMore?
    ensures Scan(a + b) == Scan(a)
  {
    hide ParseHead; hide ScanBehind; hide Found; hide HeadEnd; hide BlankLineAt; hide BodyText;
    var n := HeadEnd(a) + 4;
    assert 4 <= n <= |a| by { EndInside(a); }
    HeadEndStable(a, b);
    assert (a + b)[..n] == a[..n] && (a + b)[n..] == a[n..] + b;
    var head := ParseHead(a[..n]);
    if head.Some? {
      BehindStable(head.value, a[n..], b);
      var v := ScanBehind(head.value, a[n..]);
      if v.Item? {
        assert (a[n..] + b)[..v.size] == a[n..][..v.size];
      }
    }
  }

  // ---------------------------------------------------------------- where the sum wraps around

  lemma ExtractOf(s: string, end: nat, head: Request, n: nat)
    requires HeadEnd(s) == end <= |s| - 4 && ParseHead(s[..end + 4]) == Some(head) && Declared(head) == Some(n)
    ensures var total := Sum64(end + 4, n);
      Extract(s) == Sees(if |s| < total then NeedMore
        else Found(head, if total < end + 4 then s[end + 4..] else s[end + 4..total], total))
    ensures Scan(s) == if |s| < end + 4 + n then NeedMore else Found(head, s[end + 4..end + 4 + n], end + 4 + n)
    ensures !ChunksWrap(s) && (LengthWraps(s) <==> end + 4 + n >= WORD)
  {
    hide HeadEnd; hide ParseHead; hide Found; hide ScanBody; hide Get; hide Stoull; hide WrapsFrom; hide Chunked.Parse;
    hide ExtractChunked; hide HoldsToken;
    if |s| >= end + 4 + n {
      assert s[end + 4..][..n] == s[end + 4..end + 4 + n];
    }
  }

  lemma DeclaredFits(head: Request)
    ensures Declared(head).Some? ==> Declared(head).value <= SIZE_MAX
  {
    hide Get; hide SendsChunks;
    var h := Get(head.headers, "Content-Length");
    if Declared(head).Some? {
      StoullFits(h.value.value, 10);
    }
  }

  lemma SumWraps(k: nat, n: nat)
    requires n <= SIZE_MAX
    ensures k + n < WORD ==> Sum64(k, n) == k + n
    ensures k + n >= WORD ==> Sum64(k, n) < k && Sum64(k, n) < k + n
  {
  }

  lemma LengthDiffers(s: string, end: nat, head: Request, n: nat)
    requires HeadEnd(s) == end <= |s| - 4 && ParseHead(s[..end + 4]) == Some(head) && Declared(head) == Some(n)
    ensures Extract(s) == Sees(Scan(s)) <==> !LengthWraps(s)
    ensures !ChunksWrap(s) && (|s| < WORD && LengthWraps(s) ==> Scan(s).NeedMore?)
    ensures LengthWraps(s) ==>
      Extract(s).Sees? && Extract(s).verdict.Item? && Extract(s).verdict.size == Sum64(end + 4, n) < end + 4
  {
    hide *;
    ExtractOf(s, end, head, n);
    DeclaredFits(head);
    SumWraps(end + 4, n);
  }

  /** With a chunked body. */
  lemma ExtractOfChunks(s: string, end: nat, head: Request)
    requires HeadEnd(s) == end <= |s| - 4 && ParseHead(s[..end + 4]) == Some(head) && SendsChunks(head)
    ensures Extract(s) == ExtractChunked(head, end + 4, s[end + 4..])
    ensures var b, rest := ScanBody(s[end + 4..]), s[end + 4..];
      Scan(s) ==
        if b.NeedMore? then NeedMore
        else if b.Reject? then Reject
        else Found(head, BodyText(head, rest[..b.size]), end + 4 + b.size)
    ensures !LengthWraps(s) && (ChunksWrap(s) <==> WrapsFrom(s[end + 4..], 0))
  {
    hide HeadEnd; hide ParseHead; hide Found; hide BodyText; hide ScanBody; hide Get; hide Stoull; hide WrapsFrom;
    hide ExtractChunked; hide SendsChunks;
  }

  lemma HandedOver(head: Request, body: string, total: nat)
    requires SendsChunks(head) && !Chunked.WrapsFrom(body, 0)
    ensures HandOver(head, body, total) == Sees(Found(head, BodyText(head, body), total))
  {
    hide Found; hide SendsChunks; hide Chunked.WrapsFrom; hide Chunked.Parse; hide KnownMethod; hide Chunked.DecodeFrom;
    Chunked.DecodeIsParse(body, 0);
    assert body[0..] == body;
  }

  lemma ChunksAgree(s: string, end: nat, head: Request)
    requires HeadEnd(s) == end <= |s| - 4 && ParseHead(s[..end + 4]) == Some(head) && SendsChunks(head)
    requires !WrapsFrom(s[end + 4..], 0)
    ensures Extract(s) == Sees(Scan(s))
  {
    hide HeadEnd; hide ParseHead; hide Found; hide BodyText; hide ScanBody; hide WrapsFrom; hide SendsChunks;
    hide HandOver; hide BodySize; hide Extract; hide Scan; hide ChunksWrap; hide LengthWraps; hide Chunked.WrapsFrom;
    var rest := s[end + 4..];
    ExtractOfChunks(s, end, head);
    BodySizeIsScan(rest);
    var b := ScanBody(rest);
    if b.Item? {
      assert rest[0..] == rest;
      ItemBelowWord(rest, 0);
      DecoderNeverWraps(rest, 0, b.size);
      HandedOver(head, rest[..b.size], end + 4 + b.size);
    }
  }

  /**
   What the server extracts is what exact arithmetic gives, unless a sum wraps around. If one does, exact arithmetic
   waits for more; the server agrees with it only if it waits as well, which it never does for a declared length.
   */
  lemma ExtractIsScan(s: string)
    ensures !Wraps(s) ==> Extract(s) == Sees(Scan(s))
    ensures LengthWraps(s) ==> Extract(s) != Sees(Scan(s))
    ensures |s| <= MAX_BYTES && Wraps(s) ==> Scan(s).NeedMore?
  {
    EndInside(s);
    var end := HeadEnd(s);
    if end != -1 && ParseHead(s[..end + 4]).Some? {
      var head := ParseHead(s[..end + 4]).value;
      if SendsChunks(head) {
        ExtractOfChunks(s, end, head);
        if WrapsFrom(s[end + 4..], 0) {
          if |s| <= MAX_BYTES {
            WrapsWaits(s[end + 4..], 0);
            assert s[end + 4..][0..] == s[end + 4..];
          }
        } else {
          ChunksAgree(s, end, head);
        }
      } else if Declared(head).Some? {
        LengthDiffers(s, end, head, Declared(head).value);
      }
    }
    hide HeadEnd; hide ParseHead; hide Declared; hide Scan; hide Found; hide SendsChunks; hide WrapsFrom; hide ScanBody;
    hide ExtractChunked;
  }

  lemma LengthWrapsStable(a: string, b: string)
    requires HeadEnd(a) != -1
    ensures LengthWraps(a + b) <==> LengthWraps(a)
    ensures ChunksWrap(a) ==> ChunksWrap(a + b)
  {
    hide HeadEnd; hide ParseHead; hide Declared; hide BlankLineAt; hide SendsChunks; hide WrapsFrom;
    EndInside(a);
    HeadEndStable(a, b);
    var n := HeadEnd(a) + 4;
    assert (a + b)[..n] == a[..n] && (a + b)[n..] == a[n..] + b;
    if ChunksWrap(a) {
      WrapsStay(a[n..], b, 0);
    }
  }

  /** What does not wrap around with more input does not wrap around without it. */
  lemma WrapsStable(a: string, b: string)
    requires !Wraps(a + b)
    ensures !Wraps(a)
  {
    if HeadEnd(a) != -1 {
      LengthWrapsStable(a, b);
    }
    hide HeadEnd; hide ParseHead; hide Declared; hide SendsChunks; hide WrapsFrom;
  }

  lemma ChunksStable(head: Request, end: nat, a: string, b: string)
    requires ExtractChunked(head, end, a) != Sees(NeedMore)
    ensures ExtractChunked(head, end, a + b) == ExtractChunked(head, end, a)
  {
    hide BodySize; hide HandOver;
    SizeInside(a);
    BodySizeStable(a, b);
    var size := BodySize(a);
    if size.Ends? && size.answer.Size? {
      assert (a + b)[..size.answer.size] == a[..size.answer.size];
    }
  }

  /**
   Whatever came of an attempt, unless it lacked input, comes of it when more has arrived, chunk sizes that wrap
   around included; only a declared length that wraps around is an exception.
   */
  lemma ExtractStable(a: string, b: string)
    requires Extract(a) != Sees(NeedMore) && !LengthWraps(a)
    ensures Extract(a + b) == Extract(a)
  {
    hide *;
    NeedsHead(a);
    HeadEndStable(a, b);
    var end := HeadEnd(a);
    assert (a + b)[..end + 4] == a[..end + 4] && (a + b)[end + 4..] == a[end + 4..] + b;
    var head := ParseHead(a[..end + 4]);
    if head.Some? && SendsChunks(head.value) {
      ExtractOfChunks(a, end, head.value);
      ExtractOfChunks(a + b, end, head.value);
      ChunksStable(head.value, end + 4, a[end + 4..], b);
    } else {
      LengthWrapsStable(a, b);
      NoChunksNoWrap(a);
      NoChunksNoWrap(a + b);
      ExtractIsScan(a);
      ExtractIsScan(a + b);
      ScanStable(a, b);
    }
  }

  /** A request takes at least four bytes off, unless its declared length wraps around. */
  lemma TakesFour(s: string)
    ensures Extract(s).Sees? && Extract(s).verdict.Item? && !LengthWraps(s) ==> Extract(s).verdict.size >= 4
  {
    hide *;
    if Extract(s) != Sees(NeedMore) {
      NeedsHead(s);
      var end := HeadEnd(s);
      var head := ParseHead(s[..end + 4]);
      if head.Some? && SendsChunks(head.value) {
        ExtractOfChunks(s, end, head.value);
      } else {
        NoChunksNoWrap(s);
        ExtractIsScan(s);
      }
    }
  }

  lemma NeedsHead(s: string)
    requires Extract(s) != Sees(NeedMore)
    ensures 0 <= HeadEnd(s) <= |s| - 4
  {
    EndInside(s);
    hide HeadEnd; hide ParseHead; hide Declared; hide Scan; hide Found; hide SendsChunks; hide ExtractChunked;
  }

  lemma NoChunksNoWrap(s: string)
    requires HeadEnd(s) != -1
    requires ParseHead(s[..HeadEnd(s) + 4]).None? || !SendsChunks(ParseHead(s[..HeadEnd(s) + 4]).value)
    ensures Wraps(s) <==> LengthWraps(s)
  {
    hide HeadEnd; hide ParseHead; hide SendsChunks; hide WrapsFrom;
  }

  lemma EndInside(s: string)
    ensures HeadEnd(s) == -1 || 0 <= HeadEnd(s) <= |s| - 4
  {
  }

  ghost function Scanner(): (scan: string -> Verdict<Answer>)
    ensures Lawful(scan)
  {
    var scan := s => Scan(s);
    assert Lawful(scan) by {
      hide Scan;
      forall a, b | !scan(a).NeedMore? ensures scan(a + b) == scan(a) {
        ScanStable(a, b);
      }
    }
    scan
  }

  /** What the server makes of everything that arrived, taken at once. */
  ghost function Drained(s: string): Outcome<char, Answer> {
    hide Lawful; hide Scanner; Drain(Scanner(), s)
  }

  lemma DrainedAppend(a: string, b: string)
    ensures var o := Drained(a);
      Drained(a + b) ==
        if o.status == Open then var r := Drained(o.rest + b); r.(pieces := o.pieces + r.pieces)
        else o.(rest := o.rest + b)
  {
    hide Drain; hide Lawful; hide Scanner;
    DrainAppend(Scanner(), a, b);
  }

  lemma DrainStep(s: string)
    ensures var v := Scan(s);
      Drained(s) ==
        if v.NeedMore? then Outcome([], s, Open)
        else if v.Reject? then Outcome([], s, Failed)
        else if v.last then Outcome(v.out, s[v.size..], Done)
        else var r := Drained(s[v.size..]); r.(pieces := v.out + r.pieces)
  {
    hide Scan;
    assert Scanner()(s) == Scan(s);
  }

  // ---------------------------------------------------------------- the declared length is always readable

  lemma DigitsRead(s: string)
    requires Decimal(s).Some?
    ensures Stoull(s, 10) == Decimal(s)
  {
    AllDigits(s);
    assert s[0] in s;
    var k := DigitRun(s, 10);
    assert k == |s| && s[..k] == s;
    hide FromDigits;
  }

  lemma {:induction false} AllDigits(s: string)
    requires FromDigits(s, 10).Some?
    ensures forall i :: 0 <= i < |s| ==> DigitValue(s[i], 10) >= 0
  {
    if s != [] {
      AllDigits(s[..|s| - 1]);
      forall i | 0 <= i < |s| ensures DigitValue(s[i], 10) >= 0 {
        assert i < |s| - 1 ==> s[i] == s[..|s| - 1][i];
      }
    }
  }

  predicate LengthsAreNumbers(hs: seq<Header>) {
    forall h :: h in hs && IsLength(h.name) ==> Decimal(h.value).Some?
  }

  lemma {:induction false} PutMember(hs: seq<Header>, h: Header)
    ensures forall g :: g in Put(hs, h) ==> g in hs || g == h
  {
    if hs != [] {
      PutMember(hs[1..], h);
    }
  }

  lemma LineKeepsNumbers(p: Progress, line: string)
    requires LengthsAreNumbers(p.headers) && AddLine(p, line).Some?
    ensures LengthsAreNumbers(AddLine(p, line).value.headers)
  {
    var colon := Find(line, ':');
    PutMember(p.headers, Header(Trim(line[..colon]), Trim(line[colon + 1..])));
    hide Trim; hide IsToken; hide Decimal; hide SameIgnoringCase; hide Put; hide Find;
  }

  lemma {:induction false} LinesKeepNumbers(p: Progress, s: string)
    requires LengthsAreNumbers(p.headers) && AddLines(p, s).Some?
    ensures LengthsAreNumbers(AddLines(p, s).value.headers)
    decreases |s|
  {
    hide AddLine; hide LengthsAreNumbers;
    if s != [] {
      var k := CrLf(s);
      var line := if k == -1 then s else s[..k];
      LineKeepsNumbers(p, line);
      if k != -1 {
        LinesKeepNumbers(AddLine(p, line).value, s[k + 2..]);
      }
    }
  }

  lemma {:induction false} GetMember(hs: seq<Header>, name: string)
    ensures var h := Get(hs, name); h.Some? ==> h.value in hs && SameIgnoringCase(h.value.name, name)
  {
    hide SameIgnoringCase; hide Before;
    if hs != [] {
      GetMember(hs[..|hs| - 1], name);
    }
  }

  lemma HeadNumbers(s: string)
    requires ParseHead(s).Some?
    ensures LengthsAreNumbers(ParseHead(s).value.headers)
  {
    hide AddLines; hide ParseHead; hide LengthsAreNumbers;
    var lines := HeadProgress(s);
    NoNumbers();
    LinesKeepNumbers(NOTHING_READ, lines);
  }

  lemma NoNumbers()
    ensures LengthsAreNumbers(NOTHING_READ.headers)
  {
  }

  /**
   The server reads the length of a body with another routine than the parser that checked the head. Of
   every accepted head both read the same number, so the branch for an unreadable length is never taken.
   */
  lemma LengthAlwaysReads(s: string)
    requires ParseHead(s).Some?
    ensures var h := Get(ParseHead(s).value.headers, "Content-Length");
      h.Some? ==> Decimal(h.value.value).Some? && Stoull(h.value.value, 10) == Decimal(h.value.value)
  {
    HeadNumbers(s);
    var hs := ParseHead(s).value.headers;
    GetMember(hs, "Content-Length");
    var h := Get(hs, "Content-Length");
    hide ParseHead; hide Get; hide SameIgnoringCase; hide Stoull; hide Decimal;
    if h.Some? {
      DigitsRead(h.value.value);
    }
  }

  // ---------------------------------------------------------------- a written request is one item

  /** The request as it arrives: with the generated length, and without its body or with it. */
  function Arriving(verb: string, target: string, hs: seq<Header>, body: string): Request {
    Request(verb, target, "HTTP/1.1", hs + [LengthHeader(body)], body)
  }

  lemma FramingOf(hs: seq<Header>, body: string)
    requires (forall h :: h in hs ==> PlainField(h)) && |body| <= SIZE_MAX
    ensures var sent := hs + [LengthHeader(body)];
      && Get(sent, "Transfer-Encoding") == None && Get(sent, "Content-Length") == Some(LengthHeader(body))
      && Stoull(LengthHeader(body).value, 10) == Some(|body|)
  {
    var h := LengthHeader(body);
    LengthFieldReadable(|body|);
    DigitsRead(h.value);
    assert IsLength(h.name) && !IsEncoding(h.name);
    hide LengthHeader; hide SameIgnoringCase; hide Stoull; hide Decimal; hide IsToken; hide OneLine; hide Trimmed;
    hide HeaderLine;
    GetLast(hs, h, "Content-Length");
    GetAbsent(hs + [h], "Transfer-Encoding");
    hide Get;
  }

  /** Where the head of a written request ends, what it parses to, and what lies behind it. */
  lemma WrittenHead(verb: string, target: string, hs: seq<Header>, body: string, rest: string) returns (end: nat)
    requires Writable(verb, target, hs, body)
    ensures var s, head := Build(verb, target, hs, body) + rest, Arriving(verb, target, hs, body).(body := []);
      && end + 4 + |body| == |Build(verb, target, hs, body)| && HeadEnd(s) == end
      && ParseHead(s[..end + 4]) == Some(head) && s[end + 4..] == body + rest && Declared(head) == Some(|body|)
  {
    hide *;
    var line, lines := StartLine(verb, target), Lines(Sent(hs, body));
    var built, tail := Build(verb, target, hs, body), body + rest;
    WritableParts(verb, target, hs, body);
    SentIsReadable(hs, body);
    Layout(verb, target, hs, body, rest);
    HeadParses(verb, target, Sent(hs, body), tail);
    HeadParses(verb, target, Sent(hs, body), "");
    Resplit(line, lines, tail);
    var first := line + "\r\n" + (lines + ("\r\n" + ""));
    end := |first| - 4;
    assert built + rest == first + tail;
    assert (built + rest)[..end + 4] == first && (built + rest)[end + 4..] == tail;
    EndInside(built + rest);
    assert |(built + rest)[HeadEnd(built + rest) + 4..]| == |tail|;
    assert HeadEnd(built + rest) == end;
    ArrivingIs(verb, target, hs, body);
    FramingOf(hs, body);
    DeclaredIs(Arriving(verb, target, hs, body).(body := []), LengthHeader(body), |body|);
  }

  lemma DeclaredIs(head: Request, h: Header, n: nat)
    requires Get(head.headers, "Transfer-Encoding") == None && Get(head.headers, "Content-Length") == Some(h)
    requires Stoull(h.value, 10) == Some(n)
    ensures Declared(head) == Some(n)
  {
    hide Get; hide Stoull;
  }

  /** A written request of a known method is taken off the buffer as one item: all of it and nothing more. */
  lemma WrittenIsOneItem(verb: string, target: string, hs: seq<Header>, body: string, rest: string)
    requires Writable(verb, target, hs, body) && KnownMethod(verb)
    ensures var request := Arriving(verb, target, hs, body);
      Scan(Build(verb, target, hs, body) + rest)
        == Item([Served(request)], |Build(verb, target, hs, body)|, !KeepAlive(request.(body := [])))
  {
    hide *;
    var end := WrittenHead(verb, target, hs, body, rest);
    var s, head := Build(verb, target, hs, body) + rest, Arriving(verb, target, hs, body).(body := []);
    ExtractOf(s, end, head, |body|);
    assert s[end + 4..end + 4 + |body|] == body;
    ArrivingIs(verb, target, hs, body);
    FoundIs(head, body, end + 4 + |body|);
  }

  lemma FoundIs(head: Request, body: string, total: nat)
    requires KnownMethod(head.verb)
    ensures Found(head, body, total) == Item([Served(head.(body := body))], total, !KeepAlive(head))
  {
    hide KeepAlive; hide KnownMethod;
  }

  lemma DeclaredNotChunked(head: Request)
    requires Declared(head).Some?
    ensures !SendsChunks(head)
  {
    hide SendsChunks; hide Get; hide Stoull;
  }

  lemma PrefixNeverWraps(s: string, end: nat, head: Request, n: nat, view: string)
    requires HeadEnd(s) == end <= |s| - 4 && ParseHead(s[..end + 4]) == Some(head) && Declared(head) == Some(n)
    requires end + 4 + n < WORD && view <= s
    ensures !Wraps(view)
  {
    hide HeadEnd; hide ParseHead; hide Declared; hide BlankLineAt; hide SendsChunks; hide WrapsFrom;
    DeclaredNotChunked(head);
    if HeadEnd(view) != -1 {
      EndInside(view);
      assert view + s[|view|..] == s;
      HeadEndStable(view, s[|view|..]);
      assert view[..end + 4] == s[..end + 4];
    }
  }

  /** No beginning of a written request that fits into memory wraps around, whatever follows it. */
  lemma WrittenNeverWraps(verb: string, target: string, hs: seq<Header>, body: string, rest: string, view: string)
    requires Writable(verb, target, hs, body) && |Build(verb, target, hs, body)| <= SIZE_MAX
    requires view <= Build(verb, target, hs, body) + rest
    ensures !Wraps(view)
  {
    hide HeadEnd; hide ParseHead; hide Declared; hide Build; hide Writable; hide Arriving; hide Wraps;
    var end := WrittenHead(verb, target, hs, body, rest);
    PrefixNeverWraps(Build(verb, target, hs, body) + rest, end, Arriving(verb, target, hs, body).(body := []),
      |body|, view);
  }

  /** The same of what the server extracts, for a request that fits into memory. */
  lemma WrittenIsExtracted(verb: string, target: string, hs: seq<Header>, body: string, rest: string)
    requires Writable(verb, target, hs, body) && KnownMethod(verb) && |Build(verb, target, hs, body)| <= SIZE_MAX
    ensures var request := Arriving(verb, target, hs, body);
      Extract(Build(verb, target, hs, body) + rest)
        == Sees(Item([Served(request)], |Build(verb, target, hs, body)|, !KeepAlive(request.(body := []))))
  {
    hide *;
    var s := Build(verb, target, hs, body) + rest;
    WrittenIsOneItem(verb, target, hs, body, rest);
    WrittenNeverWraps(verb, target, hs, body, rest, s);
    ExtractIsScan(s);
  }

  lemma Resplit(line: string, lines: string, tail: string)
    ensures line + "\r\n" + (lines + ("\r\n" + tail)) == line + "\r\n" + (lines + ("\r\n" + "")) + tail
    ensures |line + "\r\n" + (lines + ("\r\n" + ""))| == |line| + |lines| + 4
  {
  }

  lemma ArrivingIs(verb: string, target: string, hs: seq<Header>, body: string)
    ensures var r := Arriving(verb, target, hs, body);
      && r.(body := []) == Request(verb, target, "HTTP/1.1", hs + [LengthHeader(body)], [])
      && r.(body := []).(body := body) == r
  {
    hide LengthHeader;
  }

  // ---------------------------------------------------------------- looking a field up

  lemma {:induction false} BeforeTransitive(a: string, b: string, c: string)
    requires Before(a, b) && Before(b, c)
    ensures Before(a, c)
  {
    if a != [] && a[0] == b[0] == c[0] {
      BeforeTransitive(a[1..], b[1..], c[1..]);
    }
  }

  /** A lookup gives the matching field that comes first in the order of the map. */
  lemma {:induction false} GetFirst(hs: seq<Header>, name: string, g: Header)
    requires g in hs && SameIgnoringCase(g.name, name)
    ensures Get(hs, name).Some? && !Before(g.name, Get(hs, name).value.name)
  {
    hide SameIgnoringCase;
    var front, h := hs[..|hs| - 1], hs[|hs| - 1];
    if g in front {
      GetFirst(front, name, g);
      var other := Get(front, name).value;
      hide Before;
      if Before(h.name, other.name) && Before(g.name, h.name) {
        BeforeTransitive(g.name, h.name, other.name);
      }
    } else {
      assert g == h;
      NotBeforeItself(g.name);
    }
  }

  lemma {:induction false} NotBeforeItself(a: string)
    ensures !Before(a, a)
  {
    if a != [] {
      NotBeforeItself(a[1..]);
    }
  }

  /** A request that does not mention the connection is kept alive. */
  lemma QuietIsKeptAlive(head: Request)
    requires head.version == "HTTP/1.1" && forall h :: h in head.headers ==> !SameIgnoringCase(h.name, "Connection")
    ensures KeepAlive(head)
  {
    GetAbsent(head.headers, "Connection");
  }

  // ---------------------------------------------------------------- a request whose length wraps around

  lemma {:induction false} DigitsAtLeast(n: nat, k: nat)
    requires n >= Pow10(k)
    ensures |Digits(n, 10)| >= k + 1
  {
    if k > 0 {
      assert n / 10 >= Pow10(k - 1);
      DigitsAtLeast(n / 10, k - 1);
    }
  }

  lemma TwentyDigits(n: nat)
    requires 10_000_000_000_000_000_000 <= n <= SIZE_MAX
    ensures |Digits(n, 10)| == 20
  {
    DigitsShort(n);
    assert Pow10(5) == 100_000;
    assert Pow10(10) == 10_000_000_000;
    assert Pow10(15) == 1_000_000_000_000_000;
    assert Pow10(19) == 10_000_000_000_000_000_000;
    DigitsAtLeast(n, 19);
  }

  /** A head that declares a length and nothing else. */
  function LengthOnly(n: nat): string {
    StartLine("GET", "/") + "\r\n" + (Lines([LengthField(n)]) + ("\r\n" + ""))
  }

  /** A request of a single field parses, and its head is all of it. */
  lemma OneFieldParses(verb: string, target: string, h: Header)
    requires IsToken(verb) && target != [] && OneLine(target) && ' ' !in target
    requires IsToken(h.name) && Trimmed(h.value) && OneLine(h.value) && |HeaderLine(h)| <= MAX_HEADER_LINE
    requires !IsEncoding(h.name) && Decimal(h.value).Some?
    requires |StartLine(verb, target)| <= MAX_REQUEST_LINE
    ensures var s := StartLine(verb, target) + "\r\n" + (Lines([h]) + ("\r\n" + ""));
      && |s| == |StartLine(verb, target)| + 2 + |h.name| + 2 + |h.value| + 2 + 2 && HeadEnd(s) == |s| - 4
      && ParseHead(s) == Some(Request(verb, target, "HTTP/1.1", [h], []))
  {
    var s := StartLine(verb, target) + "\r\n" + (Lines([h]) + ("\r\n" + ""));
    LinesOfOne(h);
    OneHeader(h);
    assert |HeaderLine(h)| == |h.name| + 2 + |h.value|;
    hide IsToken; hide Trimmed; hide OneLine; hide IsEncoding; hide Decimal; hide StartLine; hide Lines;
    hide HeaderLine;
    hide Sendable; hide Readable; hide ParseHead; hide HeadEnd;
    HeadParses(verb, target, [h], "");
    EndInside(s);
    assert |s[HeadEnd(s) + 4..]| == 0;
  }

  /** A field that is the only one and a readable length is what the head declares. */
  lemma OnlyLengthDeclared(head: Request, h: Header, n: nat)
    requires head.headers == [h] && IsLength(h.name) && !IsEncoding(h.name) && Stoull(h.value, 10) == Some(n)
    ensures Declared(head) == Some(n)
  {
    assert [] + [h] == [h];
    GetLast([], h, "Content-Length");
    GetAbsent([h], "Transfer-Encoding");
    hide Get; hide Stoull;
  }

  lemma LengthOnlyParses(n: nat)
    requires n <= SIZE_MAX
    ensures var s, head := LengthOnly(n), Request("GET", "/", "HTTP/1.1", [LengthField(n)], []);
      && |s| == 36 + |Digits(n, 10)| && HeadEnd(s) == |s| - 4 && ParseHead(s) == Some(head)
      && Declared(head) == Some(n)
  {
    var h := LengthField(n);
    LengthFieldReadable(n);
    DigitsRead(h.value);
    GetIsToken();
    assert |StartLine("GET", "/")| == 14 && OneLine("/");
    hide IsToken; hide Trimmed; hide IsEncoding; hide IsLength; hide Decimal; hide HeaderLine; hide Stoull; hide Digits;
    assert |h.name| == 14 && h.value == Digits(n, 10);
    hide ParseHead; hide HeadEnd; hide Declared; hide Lines; hide StartLine; hide OneLine; hide LengthField;
    OneFieldParses("GET", "/", h);
    OnlyLengthDeclared(Request("GET", "/", "HTTP/1.1", [h], []), h, n);
  }

  lemma LinesOfOne(h: Header)
    ensures |Lines([h])| == |h.name| + 2 + |h.value| + 2
  {
    assert [h][..0] == [];
  }

  lemma GetIsToken()
    ensures IsToken("GET") && KnownMethod("GET")
  {
    var s := "GET";
    assert forall c :: c in s ==> IsAlnum(c);
    assert s in ["GET", "POST", "PUT", "DELETE", "HEAD", "OPTIONS", "PATCH"] && SameIgnoringCase(s, s);
  }

  lemma OneHeader(h: Header)
    requires IsToken(h.name) && Trimmed(h.value) && OneLine(h.value) && |HeaderLine(h)| <= MAX_HEADER_LINE
    requires !IsEncoding(h.name) && Decimal(h.value).Some?
    ensures Sendable([h]) && Readable(NOTHING_READ, [h])
  {
    hide IsToken; hide Trimmed; hide OneLine; hide HeaderLine; hide IsEncoding; hide IsLength; hide Decimal;
    assert [] + [h] == [h];
  }

  /**
   The request of 56 bytes that declares a length of 2^64 - 56: the server takes nothing off the buffer and
   serves it, where exact arithmetic waits for more.
   */
  lemma WrappedRequest()
    ensures var s, n := LengthOnly(WORD - 56), WORD - 56;
      && |s| == 56 && LengthWraps(s) && Scan(s).NeedMore?
      && Extract(s) == Sees(Item([Served(Request("GET", "/", "HTTP/1.1", [LengthField(n)], ""))], 0, false))
  {
    var n := WORD - 56;
    var head := Request("GET", "/", "HTTP/1.1", [LengthField(n)], []);
    LengthOnlyParses(n);
    TwentyDigits(n);
    LengthOnlyIsServed(n);
    assert Sum64(56, n) == 0;
    TakesNothing(LengthOnly(n), head, n);
  }

  lemma LengthOnlyIsServed(n: nat)
    ensures Found(Request("GET", "/", "HTTP/1.1", [LengthField(n)], []), "", 0)
         == Item([Served(Request("GET", "/", "HTTP/1.1", [LengthField(n)], ""))], 0, false)
  {
    var head := Request("GET", "/", "HTTP/1.1", [LengthField(n)], []);
    GetIsToken();
    assert |"Content-Length"| != |"Connection"|;
    QuietIsKeptAlive(head);
    hide KeepAlive; hide KnownMethod; hide Digits;
  }

  lemma TakesNothing(s: string, head: Request, n: nat)
    requires |s| == 56 && HeadEnd(s) == 52 && ParseHead(s) == Some(head) && Declared(head) == Some(n) && n == WORD - 56
    ensures LengthWraps(s) && Scan(s).NeedMore? && Extract(s) == Sees(Found(head, "", 0))
  {
    assert Sum64(56, n) == 0;
    hide HeadEnd; hide ParseHead; hide Declared; hide Extract; hide Scan; hide LengthWraps; hide Found; hide Sum64;
    assert s[..56] == s && s[56..] == [];
    ExtractOf(s, 52, head, n);
  }

  // ---------------------------------------------------------------- requests with chunked bodies

  lemma ExtractsBody(head: Request, end: nat, rest: string, size: nat, text: string)
    requires BodySize(rest) == Ends(Chunked.Size(size)) && size <= |rest| && KnownMethod(head.verb)
    requires var d := Chunked.Decode(rest[..size]); d == Chunked.Accepted(text) || (d.Refused? && text == rest[..size])
    ensures ExtractChunked(head, end, rest) == Sees(Item([Served(head.(body := text))], end + size, !KeepAlive(head)))
  {
    hide BodySize; hide Chunked.Decode; hide KnownMethod; hide KeepAlive;
  }

  /** A request whose body was chunked is served with what was chunked, and taken off as a whole. */
  lemma ChunkedRequestServed(s: string, end: nat, head: Request, d: string, rest: string)
    requires HeadEnd(s) == end <= |s| - 4 && ParseHead(s[..end + 4]) == Some(head) && SendsChunks(head)
    requires KnownMethod(head.verb) && s[end + 4..] == Chunked.Build(d) + rest && |Chunked.Build(d)| <= MAX_BYTES
    ensures Extract(s) == Sees(Item([Served(head.(body := d))], end + 4 + |Chunked.Build(d)|, !KeepAlive(head)))
  {
    hide *;
    ExtractOfChunks(s, end, head);
    ChunkedBodyArrives(d, rest);
    ExtractsBody(head, end + 4, s[end + 4..], |Chunked.Build(d)|, d);
  }

  const ENCODING := Header("Transfer-Encoding", "chunked")

  const POST_CHUNKED := Request("POST", "/", "HTTP/1.1", [ENCODING], "")

  /** A request with nothing but a chunked body. */
  function ChunkedPost(body: string): string {
    StartLine("POST", "/") + "\r\n" + (Lines([ENCODING]) + ("\r\n" + body))
  }

  lemma EncodingName()
    ensures IsToken(ENCODING.name) && |ENCODING.name| == 17
    ensures IsEncoding(ENCODING.name) && !IsLength(ENCODING.name)
  {
    var name := "Transfer-Encoding";
    assert forall c :: c in name ==> IsAlnum(c) || c == '-';
    assert |name| == 17 && |"Content-Length"| == 14;
  }

  lemma EncodingValue()
    ensures Trimmed(ENCODING.value) && OneLine(ENCODING.value) && |ENCODING.value| == 7
  {
    var value := "chunked";
    assert value[0] == 'c' && value[6] == 'd' && |value| == 7;
    assert forall c :: c in value ==> IsAlnum(c);
  }

  lemma AddEncoding(h: Header)
    requires IsToken(h.name) && Trimmed(h.value) && |HeaderLine(h)| <= MAX_HEADER_LINE
    requires IsEncoding(h.name) && !IsLength(h.name)
    ensures AddLine(NOTHING_READ, HeaderLine(h)) == Some(Progress([h], 1, false, true))
  {
    SplitLine(h);
    PutFresh([], h);
    assert [] + [h] == [h];
    hide IsToken; hide Trim; hide IsLength; hide IsEncoding; hide Decimal; hide Put; hide Find; hide HeaderLine;
    hide Trimmed;
  }

  lemma SmallEnough(h: Header)
    requires IsToken(h.name) && OneLine(h.value)
    ensures Sendable([h]) && MAX_REQUEST_LINE >= 1000 && MAX_HEADER_SECTION >= 4000
  {
    hide IsToken; hide OneLine;
  }

  /** The head of a request with a single field that is accepted. */
  lemma OneFieldHead(verb: string, target: string, h: Header, p: Progress, tail: string) returns (end: nat)
    requires IsToken(verb) && target != [] && OneLine(target) && ' ' !in target
    requires |StartLine(verb, target)| <= 1000 && |h.name| + |h.value| <= 1000 && IsToken(h.name) && OneLine(h.value)
    requires AddLine(NOTHING_READ, HeaderLine(h)) == Some(p)
    ensures var s := StartLine(verb, target) + "\r\n" + (Lines([h]) + ("\r\n" + tail));
      && HeadEnd(s) == end <= |s| - 4 && s[end + 4..] == tail
      && end == |StartLine(verb, target)| + |h.name| + |h.value| + 4
      && ParseHead(s[..end + 4]) == Some(Request(verb, target, "HTTP/1.1", p.headers, []))
  {
    hide *;
    SmallEnough(h);
    var line, lines := StartLine(verb, target), Lines([h]);
    ReadRequestLine(verb, target);
    LinesOfOne(h);
    LinesFront([h]);
    assert [h][1..] == [];
    NoLines();
    LineIsOneLine(h);
    IsVersionHttp11();
    HeadOfBuilt(line, [h], tail);
    HeadOfBuilt(line, [h], "");
    Resplit(line, lines, tail);
    end := |line| + |lines|;
    var s, first := line + "\r\n" + (lines + ("\r\n" + tail)), line + "\r\n" + (lines + ("\r\n" + ""));
    assert s[..end + 4] == first;
    assert lines[..|lines| - 2] == HeaderLine(h);
    AddLinesLast(NOTHING_READ, HeaderLine(h));
    ParseHeadIs(first, verb, target, "HTTP/1.1", p.headers);
  }

  lemma PostIsToken()
    ensures IsToken("POST") && KnownMethod("POST") && |StartLine("POST", "/")| == 15 && OneLine("/")
  {
    var s := "POST";
    assert forall c :: c in s ==> IsAlnum(c);
    assert s in ["GET", "POST", "PUT", "DELETE", "HEAD", "OPTIONS", "PATCH"] && SameIgnoringCase(s, s);
  }

  lemma ChunkedPostParses(body: string) returns (end: nat)
    ensures end == 43
    ensures var s := ChunkedPost(body);
      && HeadEnd(s) == end <= |s| - 4 && ParseHead(s[..end + 4]) == Some(POST_CHUNKED) && s[end + 4..] == body
  {
    EncodingName();
    EncodingValue();
    PostIsToken();
    assert |HeaderLine(ENCODING)| == 26;
    hide IsToken; hide Trimmed; hide OneLine; hide IsEncoding; hide IsLength; hide StartLine; hide Lines;
    hide HeaderLine; hide AddLine; hide HeadEnd; hide ParseHead; hide KnownMethod;
    AddEncoding(ENCODING);
    end := OneFieldHead("POST", "/", ENCODING, Progress([ENCODING], 1, false, true), body);
  }

  lemma PostSendsChunks()
    ensures SendsChunks(POST_CHUNKED) && KnownMethod(POST_CHUNKED.verb) && KeepAlive(POST_CHUNKED)
  {
    hide Get; hide KeepAlive; hide KnownMethod; hide HoldsToken; hide IsToken; hide StartLine; hide IsLength;
    PostIsToken();
    EncodingName();
    ChunkedIsToken();
    var h := ENCODING;
    assert POST_CHUNKED.headers == [] + [h];
    GetLast([], h, "Transfer-Encoding");
    assert |h.name| != |"Connection"|;
    QuietIsKeptAlive(POST_CHUNKED);
  }

  lemma ChunkedIsToken()
    ensures HoldsToken("chunked", "chunked")
  {
    var list := "chunked";
    EncodingValue();
    assert Find(list, ',') == -1;
    TrimTrimmed(list);
    hide Trim; hide Find;
    assert SameIgnoringCase(list, list);
  }

  lemma ChunkedPostExtracts(body: string) returns (end: nat)
    ensures |ChunkedPost(body)| == end + |body| && end == 47
    ensures Extract(ChunkedPost(body)) == ExtractChunked(POST_CHUNKED, end, body)
    ensures ScanBody(body).NeedMore? ==> Scan(ChunkedPost(body)).NeedMore?
  {
    hide *;
    var at := ChunkedPostParses(body);
    PostSendsChunks();
    ExtractOfChunks(ChunkedPost(body), at, POST_CHUNKED);
    end := at + 4;
  }

  /** The chunk size `-2`: the server serves the request, where exact arithmetic waits for more. */
  lemma ChunkSizeWraps()
    ensures var body := "-2\r\n0\r\n\r\n";
      var s := ChunkedPost(body);
      Extract(s) == Sees(Item([Served(POST_CHUNKED.(body := body))], |s|, false)) && Scan(s).NeedMore?
  {
    var body := "-2\r\n0\r\n\r\n";
    assert body[..9] == body && |body| == 9;
    hide *;
    var end := ChunkedPostExtracts(body);
    MinusTwo();
    NotDecoded();
    PostSendsChunks();
    ExtractsBody(POST_CHUNKED, end, body, 9, body);
  }

  lemma NotDecoded()
    ensures Chunked.Decode("-2\r\n0\r\n\r\n").Refused?
  {
    var s := "-2\r\n0\r\n\r\n";
    CrLfIs(s, 2);
    assert s[0..] == s && s[..2] == "-2";
    var line := "-2";
    TrimTrimmed(line);
    assert Find(line, ';') == -1;
    assert line[..1] == "-" && DigitValue('-', 16) == -1;
    assert FromDigits(line, 16) == None;
    hide Trim; hide Find; hide FromDigits; hide CrLf;
  }

  /** The chunk size `-6` behind a chunk of one character: the scan never ends. */
  lemma ScanHangs()
    ensures Extract(ChunkedPost("1\r\nX\r\n-6\r\n")) == Hangs
  {
    var end := ChunkedPostExtracts("1\r\nX\r\n-6\r\n");
    GoesRound(0);
    hide ChunkedPost; hide BodySize; hide Extract;
  }

  /** The chunk size `-6` at the front: the scan throws. */
  lemma ScanThrows()
    ensures Extract(ChunkedPost("-6\r\n")) == Escapes
  {
    var end := ChunkedPostExtracts("-6\r\n");
    MinusSix();
    hide ChunkedPost; hide BodySize; hide Extract;
  }
}
