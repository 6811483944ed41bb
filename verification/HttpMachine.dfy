/** The incremental HTTP/1.x request parser as a pure machine.

    Every function takes the bytes at the current position and gives the machine after
    them together with the bytes it left; `Rejected` is the thrown error response, with
    the machine as the throw left it. */
module HttpMachine {
  import opened Wrappers
  import opened Bytes

  const MAX_HEAD_SIZE: nat := 8 * 1024
  const MAX_HEADERS_COUNT: nat := 100
  const MAX_CHUNK_LINE_SIZE: nat := 1024
  /** The largest size_t, which also stands for "length not known". */
  const CHUNKED_DATA: nat := 0xffff_ffff_ffff_ffff

  datatype Head = RequestLine | Headers | Done
  datatype Body = NoBody | ContentLength | Chunked
  datatype Chunk = Size | Data | DataEnd | Trailers
  datatype ParseState =
    | Uninitialized | ProcessingUrl | ProcessingHeader | HeadersCompleted | ProcessingBody | Completed

  datatype Parser = Parser(
    head: Head, body: Body, chunk: Chunk,
    headSeen: nat, headers: nat, remaining: nat, received: nat, contentLength: nat,
    http11: bool, hasContentLength: bool, chunked: bool, close: bool, keepAlive: bool)

  /** `delivered` is what the body callback was handed so far, `maxBody == 0` is no limit. */
  datatype Request = Request(
    state: ParseState, verb: string, url: string, fields: map<string, string>, keepAlive: bool,
    hasCallback: bool, maxBody: nat, delivered: string)

  datatype Machine = Machine(p: Parser, r: Request)

  datatype Outcome =
    | Stop(m: Machine, rest: string)
    | Rejected(m: Machine, status: nat)

  datatype Step = Ok(m: Machine) | Fail(m: Machine, status: nat)

  const FRESH_PARSER := Parser(RequestLine, NoBody, Size, 0, 0, 0, 0, 0, false, false, false, false, false)
  const FRESH_REQUEST := Request(Uninitialized, "", "", map[], false, false, 0, "")

  /** Only a chunked body has chunk data, and a chunk being read has bytes to come. */
  predicate Valid(m: Machine) { m.p.chunk.Data? ==> m.p.body.Chunked? && m.p.remaining > 0 }

  /** The body is being decoded as chunks. */
  predicate Decoding(m: Machine) { Valid(m) && m.p.body.Chunked? }

  // ---------------------------------------------------------------- request head

  function BeginRequest(m: Machine): Machine
  {
    Machine(FRESH_PARSER, m.r.(state := ProcessingUrl))
  }

  predicate IsVersion(v: string) {
    |v| == 8 && v[..5] == "HTTP/" && v[6] == '.' && IsDigit(v[5]) && IsDigit(v[7])
  }

  /** request-line = method SP request-target SP HTTP-version */
  function ParseRequestLine(m: Machine, line: string): (s: Step)
    ensures s.m.p == m.p.(http11 := s.m.p.http11)
    ensures s.m.r == m.r.(verb := s.m.r.verb, url := s.m.r.url)
  {
    var sp1 := Find(line, ' ');
    if sp1 == |line| || sp1 == 0 then Fail(m, 400) else
    var after := line[sp1 + 1..];
    var sp2 := Find(after, ' ');
    if sp2 == |after| || sp2 == 0 then Fail(m, 400) else
    var verb, target, version := line[..sp1], after[..sp2], after[sp2 + 1..];
    if !AllToken(verb) || !AllTarget(target) || !IsVersion(version) then Fail(m, 400) else
    if version[5] != '1' then Fail(m, 505) else
    Ok(Machine(m.p.(http11 := version[7] != '0'), m.r.(verb := verb, url := target)))
  }

  /** What std::from_chars makes of a whole Content-Length value. */
  predicate IsLength(value: string) {
    value != "" && AllDigit(value) && Decimal(value) < CHUNKED_DATA
  }

  /** Stores a field; the values of a repeated one are combined. */
  function Store(r: Request, key: string, value: string): Request
  {
    r.(fields := r.fields[key := if key in r.fields then r.fields[key] + ", " + value else value])
  }

  predicate HasToken(tokens: seq<string>, option: string) {
    exists i :: 0 <= i < |tokens| && IEquals(tokens[i], option)
  }

  /** All but the framing and connection flags, the header count and the stored fields. */
  predicate SameButFields(m: Machine, n: Machine) {
    && n.p == m.p.(headers := n.p.headers, hasContentLength := n.p.hasContentLength,
                   contentLength := n.p.contentLength, chunked := n.p.chunked,
                   close := n.p.close, keepAlive := n.p.keepAlive)
    && n.r == m.r.(fields := n.r.fields)
  }

  /** The effect of an accepted field on framing and connection handling. */
  function ApplyField(m: Machine, key: string, value: string): (s: Step)
    ensures SameButFields(m, s.m) && s.m.p.headers == m.p.headers
  {
    if key == "Content-Length" then
      if !IsLength(value) then Fail(m, 400)
      else if m.p.hasContentLength then
        if Decimal(value) != m.p.contentLength then Fail(m, 400) else Ok(m)
      else
        Ok(Machine(m.p.(hasContentLength := true, contentLength := Decimal(value)), Store(m.r, key, value)))
    else if key == "Transfer-Encoding" then
      var codings := Tokens(value);
      if codings == [] || !IEquals(codings[|codings| - 1], "chunked") then Fail(m, 400)
      else if (if m.p.chunked then 1 else 0) + |codings| != 1 then Fail(m, 501)
      else Ok(Machine(m.p.(chunked := true), Store(m.r, key, value)))
    else if key == "Connection" then
      var options := Tokens(value);
      Ok(Machine(m.p.(close := m.p.close || HasToken(options, "close"),
                      keepAlive := m.p.keepAlive || HasToken(options, "keep-alive")),
                 Store(m.r, key, value)))
    else
      Ok(m.(r := Store(m.r, key, value)))
  }

  datatype Field = Field(name: string, value: string) | BadField

  /** header-field = field-name ":" OWS field-value OWS */
  function SplitField(text: string): (f: Field)
    requires text != ""
  {
    var colon := Find(text, ':');
    if IsOws(text[0]) || colon == |text| || colon == 0 then BadField else
    var value := TrimOws(text[colon + 1..]);
    if !AllToken(text[..colon]) || !AllValue(value) then BadField
    else Field(text[..colon], value)
  }

  function ParseHeaderField(m: Machine, text: string): (s: Step)
    requires text != ""
    ensures SameButFields(m, s.m)
  {
    var m1 := m.(p := m.p.(headers := m.p.headers + 1));
    if m1.p.headers > MAX_HEADERS_COUNT then Fail(m1, 431) else
    match SplitField(text)
    case BadField => Fail(m1, 400)
    case Field(name, value) => ApplyField(m1, Canonical(name), value)
  }

  function FinalizeHead(m: Machine): (s: Step)
  {
    if m.p.hasContentLength && m.p.chunked then Fail(m, 400) else
    var r := m.r.(keepAlive := !m.p.close && (m.p.http11 || m.p.keepAlive));
    var p := m.p.(received := 0, chunk := Size);
    if p.chunked then
      Ok(Machine(p.(body := Chunked, remaining := 0), r.(state := HeadersCompleted)))
    else if p.contentLength > 0 then
      Ok(Machine(p.(body := ContentLength, remaining := p.contentLength), r.(state := HeadersCompleted)))
    else
      Ok(Machine(p.(body := NoBody), r.(state := Completed)))
  }

  /** The request line, or an empty line before it. */
  function FirstLine(m: Machine, text: string): (s: Step)
    ensures s.m.p == m.p.(http11 := s.m.p.http11, head := s.m.p.head)
    ensures s.Ok? ==> s.m.p.head == (if text == "" then m.p.head else Headers)
    ensures s.Ok? ==> s.m.r.state == (if text == "" then m.r.state else ProcessingHeader)
    ensures s.m.r.fields == m.r.fields
    ensures s.Ok? && text != "" ==> m.p.headSeen <= MAX_HEAD_SIZE
  {
    if text == "" then Ok(m) else
    var s := ParseRequestLine(m, text);
    if s.Fail? then s
    else if m.p.headSeen > MAX_HEAD_SIZE then Fail(s.m, 431)
    else Ok(Machine(s.m.p.(head := Headers), s.m.r.(state := ProcessingHeader)))
  }

  /** A header field line, or the empty line which ends the head. */
  function FieldLine(m: Machine, text: string): (s: Step)
    ensures s.Ok? ==> s.m.p.head == (if text == "" then Done else m.p.head)
    ensures s.Ok? ==> s.m.r.state == (if text != "" then m.r.state
                                      else if s.m.p.body.NoBody? then Completed else HeadersCompleted)
    ensures s.Ok? ==> m.p.headSeen == s.m.p.headSeen <= MAX_HEAD_SIZE
    ensures Valid(m) ==> Valid(s.m)
  {
    if m.p.headSeen > MAX_HEAD_SIZE then Fail(m, 431)
    else if text != "" then ParseHeaderField(m, text)
    else
      var s := FinalizeHead(m);
      if s.Fail? then s else Ok(s.m.(p := s.m.p.(head := Done)))
  }

  /** One complete line of the head, `n` bytes with its terminator. */
  function HeadLine(m: Machine, text: string, n: nat): (s: Step)
    requires !m.p.head.Done?
    ensures Valid(m) ==> Valid(s.m)
    ensures s.Ok? ==> s.m.p.headSeen == m.p.headSeen + n
  {
    var m1 := m.(p := m.p.(headSeen := m.p.headSeen + n));
    if m.p.head.RequestLine? then FirstLine(m1, text) else FieldLine(m1, text)
  }

  /** Consumes the complete lines at the beginning of `data`. */
  function RunHead(m: Machine, data: string): (o: Outcome)
    ensures Valid(m) ==> Valid(o.m)
    decreases |data|
  {
    if m.p.head.Done? then Stop(m, data) else
    var lf := Find(data, '\n');
    if lf == |data| then
      if m.p.headSeen + |data| > MAX_HEAD_SIZE then Rejected(m, 431) else Stop(m, data)
    else
      match HeadLine(m, LineText(data, lf), lf + 1)
      case Fail(m', status) => Rejected(m', status)
      case Ok(m') => RunHead(m', data[lf + 1..])
  }

  function ParseHead(m: Machine, data: string): (o: Outcome)
    ensures Valid(m) ==> Valid(o.m)
  {
    RunHead(if m.r.state.Uninitialized? then BeginRequest(m) else m, data)
  }

  // ---------------------------------------------------------------- request body

  /** Hands a piece of the body to the callback. */
  function Deliver(m: Machine, piece: string): (s: Step)
    ensures s.m.p == m.p.(received := m.p.received + |piece|)
    ensures s.m.r == m.r.(delivered := s.m.r.delivered)
  {
    var m1 := m.(p := m.p.(received := m.p.received + |piece|));
    if m.r.maxBody != 0 && m1.p.received > m.r.maxBody then Fail(m1, 413)
    else if !m.r.hasCallback then Fail(m1, 400)
    else Ok(m1.(r := m1.r.(delivered := m1.r.delivered + piece)))
  }

  /** chunk-size [ chunk-ext ], `None` when it is malformed. */
  function ChunkSize(text: string): (size: Option<nat>)
  {
    var digits := HexPrefix(text);
    var ext := TrimOws(text[digits..]);
    if digits == 0 || digits > 16 || (ext != "" && (ext[0] != ';' || !AllValue(ext))) then None
    else Some(Hex(text[..digits]))
  }

  /** What the next step of the chunked decoder does with a non-empty `data`. */
  datatype ChunkStep =
    | Wait                             // an incomplete line, or half a CRLF
    | Bad(m: Machine, status: nat)     // the error response
    | Eat(m: Machine, n: nat)          // consumed n bytes

  function Terminator(data: string): (n: nat)
    requires data != ""
    ensures n <= |data|
  {
    if data[0] == '\n' then 1 else if data[0] == '\r' && |data| > 1 && data[1] == '\n' then 2 else 0
  }

  /** Eating at least one byte, and the decoder goes on or has completed. */
  predicate Progress(m: Machine, data: string, s: ChunkStep) {
    && (s.Eat? ==> 0 < s.n <= |data| && Decoding(s.m) && s.m.r.state in {m.r.state, Completed})
    && (s.Bad? ==> Decoding(s.m) && s.m.r.state == m.r.state)
  }

  function StepSize(m: Machine, data: string): (s: ChunkStep)
    requires Decoding(m)
    ensures Progress(m, data, s)
  {
    var lf := Find(data, '\n');
    if lf == |data| then if |data| > MAX_CHUNK_LINE_SIZE then Bad(m, 400) else Wait else
    match ChunkSize(LineText(data, lf))
    case None => Bad(m, 400)
    case Some(size) =>
      Eat(m.(p := m.p.(remaining := size, chunk := if size > 0 then Data else Trailers)), lf + 1)
  }

  function StepData(m: Machine, data: string): (s: ChunkStep)
    requires Decoding(m) && m.p.chunk.Data? && data != ""
    ensures Progress(m, data, s)
  {
    var n := Min(m.p.remaining, |data|);
    var s := Deliver(m, data[..n]);
    if s.Fail? then Bad(s.m, s.status) else Eat(AfterData(s.m, n), n)
  }

  /** `n` more bytes of the chunk have been delivered. */
  function AfterData(m: Machine, n: nat): (r: Machine)
    requires Decoding(m) && n <= m.p.remaining
    ensures Decoding(r)
  {
    var left := m.p.remaining - n;
    m.(p := m.p.(remaining := left, chunk := if left > 0 then Data else DataEnd))
  }

  function StepDataEnd(m: Machine, data: string): (s: ChunkStep)
    requires Decoding(m) && data != ""
    ensures Progress(m, data, s)
  {
    var n := Terminator(data);
    if n > 0 then Eat(m.(p := m.p.(chunk := Size)), n)
    else if data == "\r" then Wait
    else Bad(m, 400)
  }

  function StepTrailer(m: Machine, data: string): (s: ChunkStep)
    requires Decoding(m)
    ensures Progress(m, data, s)
  {
    var lf := Find(data, '\n');
    if lf == |data| then if |data| > MAX_HEAD_SIZE then Bad(m, 431) else Wait
    else if LineText(data, lf) == "" then Eat(m.(r := m.r.(state := Completed)), lf + 1)
    else
      var m' := m.(p := m.p.(headers := m.p.headers + 1));
      if m'.p.headers > MAX_HEADERS_COUNT then Bad(m', 431)
      else if !AllValue(LineText(data, lf)) then Bad(m', 400)
      else Eat(m', lf + 1)
  }

  function StepChunk(m: Machine, data: string): (s: ChunkStep)
    requires Decoding(m) && data != ""
    ensures Progress(m, data, s)
  {
    match m.p.chunk
    case Size => StepSize(m, data)
    case Data => StepData(m, data)
    case DataEnd => StepDataEnd(m, data)
    case Trailers => StepTrailer(m, data)
  }

  /** Decodes chunks until the message ends, the data runs out or an error is found. */
  function RunChunked(m: Machine, data: string): (o: Outcome)
    requires Decoding(m)
    ensures Decoding(o.m)
    ensures m.r.state.ProcessingBody? ==> o.m.r.state.ProcessingBody? || (o.Stop? && o.m.r.state.Completed?)
    decreases |data|
  {
    if data == "" || m.r.state.Completed? then Stop(m, data) else
    match StepChunk(m, data)
    case Wait => Stop(m, data)
    case Bad(m', status) => Rejected(m', status)
    case Eat(m', n) => RunChunked(m', data[n..])
  }

  /** Subtraction of two size_t. */
  function Minus(a: nat, b: nat): int { if b <= a then a - b else a - b + CHUNKED_DATA + 1 }

  /** What is left of the body does not fit under the limit. */
  predicate TooLong(m: Machine) { m.r.maxBody != 0 && m.p.remaining > Minus(m.r.maxBody, m.p.received) }

  function RunLength(m: Machine, data: string): (o: Outcome)
    requires Valid(m) && !m.p.body.Chunked?
    ensures Valid(o.m) && o.m.p.body == m.p.body && o.m.r.state in {m.r.state, Completed}
    ensures o.Rejected? ==> o.m.r.state == m.r.state
  {
    if TooLong(m) then Rejected(m, 413) else
    var n := Min(m.p.remaining, |data|);
    var s := if n > 0 then Deliver(m, data[..n]) else Ok(m);
    if s.Fail? then Rejected(s.m, s.status)
    else Stop(Advance(s.m, n), data[n..])
  }

  /** `n` more bytes of a body of known length have arrived. */
  function Advance(m: Machine, n: nat): (r: Machine)
    requires n <= m.p.remaining && Valid(m) && !m.p.body.Chunked?
    ensures Valid(r)
  {
    var left := m.p.remaining - n;
    Machine(m.p.(remaining := left), if left == 0 then m.r.(state := Completed) else m.r)
  }

  function ParseBody(m: Machine, data: string): (o: Outcome)
    requires Valid(m)
    ensures Valid(o.m)
    ensures o.Rejected? ==> o.m.r.state.ProcessingBody?
    ensures o.Stop? ==> o.m.r.state in {m.r.state, ProcessingBody, Completed}
  {
    if m.r.state.Completed? || m.p.body.NoBody? then Stop(m, data) else
    var m1 := m.(r := m.r.(state := ProcessingBody));
    if m.p.body.Chunked? then RunChunked(m1, data) else RunLength(m1, data)
  }
}
