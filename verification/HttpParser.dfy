/** http_request_parser: the parser as the server runs it, with its state in fields which the
    calls update and positions which advance over the data it was handed. */
module HttpParser {
  import opened Wrappers
  import opened Bytes
  import opened HttpMachine
  import Fragmentation

  // ---------------------------------------------------------------- scanning helpers

  method TrimOwsOf(text: string) returns (str: string)
    ensures str == TrimOws(text)
  {
    str := text;
    while str != "" && IsOws(str[0])
      invariant TrimFront(str) == TrimFront(text)
      decreases |str|
    {
      str := str[1..];
    }
    ghost var front := str;
    while str != "" && IsOws(str[|str| - 1])
      invariant TrimBack(str) == TrimBack(front)
      decreases |str|
    {
      str := str[..|str| - 1];
    }
  }

  method TokensOf(text: string) returns (tokens: seq<string>)
    ensures tokens == Tokens(text)
  {
    tokens := [];
    var value := text;
    while true
      invariant tokens + Tokens(value) == Tokens(text)
      decreases |value|
    {
      ghost var before := tokens;
      var comma := Find(value, ',');
      var token := TrimOwsOf(value[..comma]);
      if token != "" {
        tokens := tokens + [token];
      }
      if comma == |value| {
        return;
      }
      assert before + Tokens(value) == tokens + Tokens(value[comma + 1..]);
      value := value[comma + 1..];
    }
  }

  method CanonicalName(name: string) returns (res: string)
    ensures res == Canonical(name)
  {
    res := "";
    var upper := true;
    for i := 0 to |name|
      invariant |res| == i && forall j :: 0 <= j < i ==> res[j] == Canonical(name)[j]
      invariant upper == (i == 0 || name[i - 1] == '-')
    {
      var c := name[i];
      res := res + [if upper then Upper(c) else Lower(c)];
      upper := c == '-';
    }
  }

  /** The chunk-size digits and the check of what follows them. */
  method ReadChunkSize(text: string) returns (result: Option<nat>)
    ensures result == ChunkSize(text)
  {
    var digits, size := 0, 0;
    while digits < |text| && IsHex(text[digits])
      invariant digits <= |text| && digits <= 16
      invariant forall i :: 0 <= i < digits ==> IsHex(text[i])
      invariant size == Hex(text[..digits])
    {
      if digits == 16 {
        assert HexPrefix(text) > 16;
        return None;
      }
      assert text[..digits + 1][..digits] == text[..digits];
      size := 16 * size + HexDigit(text[digits]);
      digits := digits + 1;
    }
    assert digits == HexPrefix(text);
    if digits == 0 {
      return None;
    }
    var ext := TrimOwsOf(text[digits..]);
    if ext != "" && (ext[0] != ';' || !AllValue(ext)) {
      return None;
    }
    return Some(size);
  }

  // ---------------------------------------------------------------- the request

  class HttpRequest {
    var state: ParseState
    var verb: string
    var url: string
    var fields: map<string, string>
    var keepAlive: bool
    var hasCallback: bool
    var maxBody: nat
    var delivered: string

    constructor ()
      ensures View() == FRESH_REQUEST
    {
      state, verb, url, fields, keepAlive := Uninitialized, "", "", map[], false;
      hasCallback, maxBody, delivered := false, 0, "";
    }

    function View(): Request
      reads this
    {
      Request(state, verb, url, fields, keepAlive, hasCallback, maxBody, delivered)
    }
  }

  /** A call which threw `error`, or did not, and left the machine `m`. */
  predicate Does(error: Option<nat>, m: Machine, s: Step) {
    m == s.m && error == if s.Ok? then None else Some(s.status)
  }

  // ---------------------------------------------------------------- the parser

  class HttpRequestParser {
    var head: Head
    var body: Body
    var chunk: Chunk
    var headSeen: nat
    var headers: nat
    var remaining: nat
    var received: nat
    var contentLength: nat
    var http11: bool
    var hasContentLength: bool
    var chunked: bool
    var close: bool
    var keepAlive: bool

    constructor ()
      ensures View() == FRESH_PARSER
    {
      head, body, chunk := RequestLine, NoBody, Size;
      headSeen, headers, remaining, received, contentLength := 0, 0, 0, 0, 0;
      http11, hasContentLength, chunked, close, keepAlive := false, false, false, false, false;
    }

    function View(): Parser
      reads this
    {
      Parser(head, body, chunk, headSeen, headers, remaining, received, contentLength,
             http11, hasContentLength, chunked, close, keepAlive)
    }

    function Mach(req: HttpRequest): Machine
      reads this, req
    {
      Machine(View(), req.View())
    }

    method BeginRequest(req: HttpRequest)
      modifies this, req
      ensures Mach(req) == HttpMachine.BeginRequest(old(Mach(req)))
    {
      ResetFields();
      req.state := ProcessingUrl;
    }

    method ResetFields()
      modifies this
      ensures View() == FRESH_PARSER
    {
      head := RequestLine;
      body := NoBody;
      chunk := Size;
      headSeen := 0;
      headers := 0;
      remaining := 0;
      received := 0;
      contentLength := 0;
      http11 := false;
      hasContentLength := false;
      chunked := false;
      close := false;
      keepAlive := false;
    }

    method ParseRequestLine(line: string, req: HttpRequest) returns (error: Option<nat>)
      modifies this, req
      ensures Does(error, Mach(req), HttpMachine.ParseRequestLine(old(Mach(req)), line))
    {
      var sp1 := Find(line, ' ');
      if sp1 == |line| || sp1 == 0 {
        return Some(400);
      }
      var after := line[sp1 + 1..];
      var sp2 := Find(after, ' ');
      if sp2 == |after| || sp2 == 0 {
        return Some(400);
      }
      var method_, target, version := line[..sp1], after[..sp2], after[sp2 + 1..];
      if !AllToken(method_) {
        return Some(400);
      }
      if !AllTarget(target) {
        return Some(400);
      }
      if !IsVersion(version) {
        return Some(400);
      }
      if version[5] != '1' {
        return Some(505);
      }
      http11 := version[7] != '0';
      req.verb := method_;
      req.url := target;
      return None;
    }

    method StoreField(key: string, value: string, req: HttpRequest)
      modifies req
      ensures req.View() == Store(old(req.View()), key, value)
    {
      if key in req.fields {
        req.fields := req.fields[key := req.fields[key] + ", " + value];
      } else {
        req.fields := req.fields[key := value];
      }
    }

    method ApplyFieldEffect(key: string, value: string, req: HttpRequest) returns (error: Option<nat>)
      modifies this, req
      ensures Does(error, Mach(req), ApplyField(old(Mach(req)), key, value))
    {
      if key == "Content-Length" {
        if !IsLength(value) {
          return Some(400);
        }
        var length := Decimal(value);
        if hasContentLength {
          if length != contentLength {
            return Some(400);
          }
          return None;
        }
        hasContentLength := true;
        contentLength := length;
      } else if key == "Transfer-Encoding" {
        var codings := TokensOf(value);
        if codings == [] || !IEquals(codings[|codings| - 1], "chunked") {
          return Some(400);
        }
        if (if chunked then 1 else 0) + |codings| != 1 {
          return Some(501);
        }
        chunked := true;
      } else if key == "Connection" {
        var options := TokensOf(value);
        ScanOptions(options);
      }
      StoreField(key, value, req);
      return None;
    }

    method ScanOptions(options: seq<string>)
      modifies this`close, this`keepAlive
      ensures close == (old(close) || HasToken(options, "close"))
      ensures keepAlive == (old(keepAlive) || HasToken(options, "keep-alive"))
    {
      for i := 0 to |options|
        invariant close == (old(close) || HasToken(options[..i], "close"))
        invariant keepAlive == (old(keepAlive) || HasToken(options[..i], "keep-alive"))
      {
        TokenAppend(options[..i], options[i], "close");
        TokenAppend(options[..i], options[i], "keep-alive");
        assert options[..i + 1] == options[..i] + [options[i]];
        if IEquals(options[i], "close") {
          close := true;
          assert !IEquals(options[i], "keep-alive");
        } else if IEquals(options[i], "keep-alive") {
          keepAlive := true;
        }
      }
      assert options[..|options|] == options;
    }

    method ParseHeaderField(text: string, req: HttpRequest) returns (error: Option<nat>)
      requires text != ""
      modifies this, req
      ensures Does(error, Mach(req), HttpMachine.ParseHeaderField(old(Mach(req)), text))
    {
      headers := headers + 1;
      if headers > MAX_HEADERS_COUNT {
        return Some(431);
      }
      if IsOws(text[0]) {
        return Some(400);
      }
      var colon := Find(text, ':');
      if colon == |text| || colon == 0 {
        return Some(400);
      }
      var name := text[..colon];
      if !AllToken(name) {
        return Some(400);
      }
      var value := TrimOwsOf(text[colon + 1..]);
      if !AllValue(value) {
        return Some(400);
      }
      var key := CanonicalName(name);
      error := ApplyFieldEffect(key, value, req);
    }

    method FinalizeHead(req: HttpRequest) returns (error: Option<nat>)
      modifies this, req
      ensures Does(error, Mach(req), HttpMachine.FinalizeHead(old(Mach(req))))
    {
      if hasContentLength && chunked {
        return Some(400);
      }
      req.keepAlive := if http11 then !close else keepAlive && !close;
      received := 0;
      chunk := Size;
      if chunked {
        body := Chunked;
        remaining := 0;
        req.state := HeadersCompleted;
      } else if contentLength > 0 {
        body := ContentLength;
        remaining := contentLength;
        req.state := HeadersCompleted;
      } else {
        body := NoBody;
        req.state := Completed;
      }
      return None;
    }

    /** The request line, which ends at position `pos` of the data. */
    method TakeFirstLine(text: string, pos: nat, req: HttpRequest) returns (error: Option<nat>)
      requires text != "" && head.RequestLine?
      modifies this, req
      ensures var s := LineStep(At(old(Mach(req)), pos), text);
              if error.Some? then s.Fail? && s.status == error.value
              else s == Ok(At(Mach(req), pos)) && head.Headers?
    {
      hide HttpMachine.ParseRequestLine;
      ParseAt(Mach(req), pos, text);
      error := ParseRequestLine(text, req);
      if error.Some? {
        return;
      }
      if headSeen + pos > MAX_HEAD_SIZE {
        return Some(431);
      }
      head := Headers;
      req.state := ProcessingHeader;
    }

    /** The head up to its request line. `pos` is the position after what was consumed,
        `more` whether the line was there. */
    method RequestLinePhase(data: string, req: HttpRequest) returns (error: Option<nat>, pos: nat, more: bool)
      requires head.RequestLine?
      modifies this, req
      ensures pos <= |data|
      ensures var o := RunHead(old(Mach(req)), data);
              if error.Some? then o.Rejected? && o.status == error.value
              else o == RunHead(At(Mach(req), pos), data[pos..]) &&
                   (if more then head.Headers? else o == Stop(At(Mach(req), pos), data[pos..]))
    {
      hide RunHead, Find, LineText, LineStep;
      var lf;
      pos, lf := SkipEmptyLines(data, Mach(req));
      RunAt(Mach(req), data, pos);
      if lf == |data| - pos {
        return if headSeen + |data| > MAX_HEAD_SIZE then Some(431) else None, pos, false;
      }
      var text := LineText(data[pos..], lf);
      pos := pos + lf + 1;
      error := TakeFirstLine(text, pos, req);
      return error, pos, true;
    }

    /** A header line, which ends at position `pos` of the data. */
    method TakeFieldLine(text: string, pos: nat, req: HttpRequest) returns (error: Option<nat>)
      requires head.Headers?
      modifies this, req
      ensures var s := LineStep(At(old(Mach(req)), pos), text);
              if error.Some? then s.Fail? && s.status == error.value
              else s == Ok(At(Mach(req), pos)) && head == (if text == "" then Done else Headers)
    {
      hide HttpMachine.ParseHeaderField, HttpMachine.FinalizeHead;
      if headSeen + pos > MAX_HEAD_SIZE {
        return Some(431);
      }
      if text == "" {
        FinalizeAt(Mach(req), pos);
        error := FinalizeHead(req);
        if error.None? {
          head := Done;
        }
        return;
      }
      FieldAt(Mach(req), pos, text);
      error := ParseHeaderField(text, req);
    }

    /** The header lines from position `start` on. */
    method HeadersPhase(data: string, start: nat, req: HttpRequest) returns (error: Option<nat>, pos: nat)
      requires head.Headers? && start <= |data|
      modifies this, req
      ensures pos <= |data|
      ensures var o := RunHead(At(old(Mach(req)), start), data[start..]);
              if error.Some? then o.Rejected? && o.status == error.value
              else o == Stop(At(Mach(req), pos), data[pos..])
    {
      hide RunHead, Find, LineText, LineStep;
      pos := start;
      error := None;
      while head.Headers?
        invariant pos <= |data| && error.None? && !head.RequestLine?
        invariant RunHead(At(old(Mach(req)), start), data[start..]) == RunHead(At(Mach(req), pos), data[pos..])
        decreases |data| - pos, head.Headers?
      {
        RunAt(Mach(req), data, pos);
        var lf := Find(data[pos..], '\n');
        if lf == |data| - pos {
          return if headSeen + |data| > MAX_HEAD_SIZE then Some(431) else None, pos;
        }
        var text := LineText(data[pos..], lf);
        pos := pos + lf + 1;
        error := TakeFieldLine(text, pos, req);
        if error.Some? {
          return;
        }
      }
      Fragmentation.HeadDone(At(Mach(req), pos), data[pos..]);
    }

    /** Consumes as much of the head as `data` has and reports how much that was. */
    method ParseHead(data: string, req: HttpRequest) returns (error: Option<nat>, n: nat)
      modifies this, req
      ensures n <= |data|
      ensures var o := HttpMachine.ParseHead(old(Mach(req)), data);
              if error.Some? then o.Rejected? && o.status == error.value
              else o == Stop(Mach(req), data[n..])
    {
      hide RunHead;
      if req.state.Uninitialized? {
        BeginRequest(req);
      }
      if head.Done? {
        Fragmentation.HeadDone(Mach(req), data);
        return None, 0;
      }
      ghost var m := Mach(req);
      n := 0;
      assert data[0..] == data && At(m, 0) == m;
      if head.RequestLine? {
        var more;
        error, n, more := RequestLinePhase(data, req);
        if error.Some? {
          return;
        }
        if !more {
          headSeen := headSeen + n;
          return;
        }
      }
      error, n := HeadersPhase(data, n, req);
      if error.None? {
        headSeen := headSeen + n;
      }
    }

    method Deliver(piece: string, req: HttpRequest) returns (error: Option<nat>)
      modifies this, req
      ensures Does(error, Mach(req), HttpMachine.Deliver(old(Mach(req)), piece))
    {
      received := received + |piece|;
      if req.maxBody != 0 && received > req.maxBody {
        return Some(413);
      }
      if !req.hasCallback {
        return Some(400);
      }
      req.delivered := req.delivered + piece;
      return None;
    }

    /** The decoder's step at the bytes `data`: an error, a wait for more (0), or the number of
        bytes it ate. */
    method TakeSize(data: string, req: HttpRequest) returns (error: Option<nat>, n: nat)
      requires Decoding(Mach(req)) && chunk.Size?
      modifies this
      ensures Steps(error, n, old(Mach(req)), Mach(req), StepSize(old(Mach(req)), data))
    {
      var lf := Find(data, '\n');
      if lf == |data| {
        return if |data| > MAX_CHUNK_LINE_SIZE then Some(400) else None, 0;
      }
      var size := ReadChunkSize(LineText(data, lf));
      if size.None? {
        return Some(400), 0;
      }
      remaining := size.value;
      chunk := if size.value > 0 then Data else Trailers;
      return None, lf + 1;
    }

    method TakeData(data: string, req: HttpRequest) returns (error: Option<nat>, n: nat)
      requires Decoding(Mach(req)) && chunk.Data? && data != ""
      modifies this, req
      ensures Steps(error, n, old(Mach(req)), Mach(req), StepData(old(Mach(req)), data))
    {
      hide HttpMachine.Deliver;
      n := Min(remaining, |data|);
      error := Deliver(data[..n], req);
      if error.Some? {
        return;
      }
      remaining := remaining - n;
      chunk := if remaining > 0 then Data else DataEnd;
    }

    method TakeDataEnd(data: string, req: HttpRequest) returns (error: Option<nat>, n: nat)
      requires Decoding(Mach(req)) && chunk.DataEnd? && data != ""
      modifies this
      ensures Steps(error, n, old(Mach(req)), Mach(req), StepDataEnd(old(Mach(req)), data))
    {
      if data[0] == '\n' {
        n := 1;
      } else if data[0] == '\r' {
        if |data| == 1 {
          return None, 0;
        }
        if data[1] != '\n' {
          return Some(400), 0;
        }
        n := 2;
      } else {
        return Some(400), 0;
      }
      chunk := Size;
      return None, n;
    }

    method TakeTrailer(data: string, req: HttpRequest) returns (error: Option<nat>, n: nat)
      requires Decoding(Mach(req)) && chunk.Trailers?
      modifies this, req
      ensures Steps(error, n, old(Mach(req)), Mach(req), StepTrailer(old(Mach(req)), data))
    {
      var lf := Find(data, '\n');
      if lf == |data| {
        return if |data| > MAX_HEAD_SIZE then Some(431) else None, 0;
      }
      if LineText(data, lf) == "" {
        req.state := Completed;
        return None, lf + 1;
      }
      headers := headers + 1;
      if headers > MAX_HEADERS_COUNT {
        return Some(431), 0;
      }
      if !AllValue(LineText(data, lf)) {
        return Some(400), 0;
      }
      return None, lf + 1;
    }

    method TakeStep(data: string, req: HttpRequest) returns (error: Option<nat>, n: nat)
      requires Decoding(Mach(req)) && data != ""
      modifies this, req
      ensures Steps(error, n, old(Mach(req)), Mach(req), StepChunk(old(Mach(req)), data))
    {
      hide StepSize, StepData, StepDataEnd, StepTrailer;
      match chunk
      case Size => error, n := TakeSize(data, req);
      case Data => error, n := TakeData(data, req);
      case DataEnd => error, n := TakeDataEnd(data, req);
      case Trailers => error, n := TakeTrailer(data, req);
    }

    method ParseChunked(data: string, req: HttpRequest) returns (error: Option<nat>, pos: nat)
      requires Decoding(Mach(req)) && !req.state.Completed?
      modifies this, req
      ensures pos <= |data|
      ensures var o := RunChunked(old(Mach(req)), data);
              if error.Some? then o == Rejected(Mach(req), error.value) else o == Stop(Mach(req), data[pos..])
    {
      hide StepChunk;
      pos := 0;
      error := None;
      assert data[0..] == data;
      while pos < |data| && !req.state.Completed?
        invariant pos <= |data| && error.None? && Decoding(Mach(req))
        invariant RunChunked(old(Mach(req)), data) == RunChunked(Mach(req), data[pos..])
        decreases |data| - pos
      {
        ghost var m := Mach(req);
        var n;
        error, n := TakeStep(data[pos..], req);
        if error.Some? || n == 0 {
          return;
        }
        DropDrop(data, pos, n);
        pos := pos + n;
      }
    }

    method ParseLength(data: string, req: HttpRequest) returns (error: Option<nat>, n: nat)
      requires Valid(Mach(req)) && !body.Chunked?
      modifies this, req
      ensures n <= |data|
      ensures var o := RunLength(old(Mach(req)), data);
              if error.Some? then o == Rejected(Mach(req), error.value) else o == Stop(Mach(req), data[n..])
    {
      hide HttpMachine.Deliver;
      if req.maxBody != 0 && remaining > Minus(req.maxBody, received) {
        return Some(413), 0;
      }
      n := Min(remaining, |data|);
      error := None;
      if n > 0 {
        error := Deliver(data[..n], req);
        if error.Some? {
          return;
        }
        remaining := remaining - n;
      }
      if remaining == 0 {
        req.state := Completed;
      }
    }

    /** Decodes what `data` has of the body and reports how much of it that was. */
    method ParseBody(data: string, req: HttpRequest) returns (error: Option<nat>, n: nat)
      requires Valid(Mach(req))
      modifies this, req
      ensures n <= |data|
      ensures var o := HttpMachine.ParseBody(old(Mach(req)), data);
              if error.Some? then o == Rejected(Mach(req), error.value) else o == Stop(Mach(req), data[n..])
    {
      hide RunChunked, RunLength;
      if req.state.Completed? || body.NoBody? {
        return None, 0;
      }
      req.state := ProcessingBody;
      if body.Chunked? {
        error, n := ParseChunked(data, req);
      } else {
        error, n := ParseLength(data, req);
      }
    }
  }

  /** How a step of the decoder is reported. */
  predicate Steps(error: Option<nat>, n: nat, before: Machine, after: Machine, s: ChunkStep) {
    match s
    case Wait => error.None? && n == 0 && after == before
    case Bad(m, status) => error == Some(status) && after == m
    case Eat(m, k) => error.None? && n == k && after == m
  }

  lemma FinalizeAt(m: Machine, n: nat)
    ensures FinalizeHead(At(m, n)) == StepAt(FinalizeHead(m), n)
  {
  }

  lemma FieldAt(m: Machine, n: nat, text: string)
    requires text != ""
    ensures ParseHeaderField(At(m, n), text) == StepAt(ParseHeaderField(m, text), n)
  {
    hide SplitField, Canonical, ApplyField;
    match SplitField(text)
    case BadField =>
    case Field(name, value) => ApplyAt(m.(p := m.p.(headers := m.p.headers + 1)), n, Canonical(name), value);
  }

  lemma ApplyAt(m: Machine, n: nat, key: string, value: string)
    ensures ApplyField(At(m, n), key, value) == StepAt(ApplyField(m, key, value), n)
  {
    hide IsLength, Tokens, IEquals, HasToken;
  }

  /** RFC 7230, section 3.5: empty lines before the request line are ignored. */
  method SkipEmptyLines(data: string, ghost m: Machine) returns (pos: nat, lf: nat)
    requires m.p.head.RequestLine?
    ensures pos <= |data| && lf == Find(data[pos..], '\n')
    ensures lf < |data| - pos ==> LineText(data[pos..], lf) != ""
    ensures RunHead(m, data) == RunHead(At(m, pos), data[pos..])
  {
    hide *;
    AtStart(m, data);
    pos := 0;
    while true
      invariant pos <= |data| && RunHead(m, data) == RunHead(At(m, pos), data[pos..])
      decreases |data| - pos
    {
      lf := Find(data[pos..], '\n');
      if lf == |data| - pos || LineText(data[pos..], lf) != "" {
        return;
      }
      SkipOne(m, data, pos);
      pos := pos + lf + 1;
    }
  }

  lemma AtStart(m: Machine, data: string)
    ensures At(m, 0) == m && data[0..] == data
  {
  }

  lemma SkipOne(m: Machine, data: string, pos: nat)
    requires m.p.head.RequestLine? && pos <= |data|
    requires var lf := Find(data[pos..], '\n'); lf < |data| - pos && LineText(data[pos..], lf) == ""
    ensures var next := pos + Find(data[pos..], '\n') + 1;
            RunHead(At(m, pos), data[pos..]) == RunHead(At(m, next), data[next..])
  {
    hide RunHead, Find, LineText, LineStep;
    RunAt(m, data, pos);
    BlankLine(At(m, pos + Find(data[pos..], '\n') + 1));
  }

  /** The machine which has also counted `n` bytes of the head. */
  function At(m: Machine, n: nat): Machine { m.(p := m.p.(headSeen := m.p.headSeen + n)) }

  lemma DropDrop(data: string, a: nat, b: nat)
    requires a + b <= |data|
    ensures data[a..][b..] == data[a + b..]
  {
  }

  /** What a line of the head does, `m` having counted it already. */
  function LineStep(m: Machine, text: string): Step
    requires !m.p.head.Done?
  {
    if m.p.head.RequestLine? then FirstLine(m, text) else FieldLine(m, text)
  }

  /** One line of the head, seen from position `pos` of the data. */
  lemma RunAt(m: Machine, data: string, pos: nat)
    requires !m.p.head.Done? && pos <= |data|
    ensures var o, lf := RunHead(At(m, pos), data[pos..]), Find(data[pos..], '\n');
            if lf == |data| - pos then
              o == if m.p.headSeen + |data| > MAX_HEAD_SIZE then Rejected(At(m, pos), 431)
                   else Stop(At(m, pos), data[pos..])
            else
              var s := LineStep(At(m, pos + lf + 1), LineText(data[pos..], lf));
              o == if s.Fail? then Rejected(s.m, s.status) else RunHead(s.m, data[pos + lf + 1..])
  {
    hide Find, LineText, FirstLine, FieldLine;
    var lf := Find(data[pos..], '\n');
    if lf < |data| - pos { DropDrop(data, pos, lf + 1); }
  }

  lemma BlankLine(m: Machine)
    requires m.p.head.RequestLine?
    ensures LineStep(m, "") == Ok(m)
  {
  }

  /** The same step of a machine which has counted `n` bytes more. */
  function StepAt(s: Step, n: nat): Step { s.(m := At(s.m, n)) }

  lemma ParseAt(m: Machine, n: nat, text: string)
    ensures ParseRequestLine(At(m, n), text) == StepAt(ParseRequestLine(m, text), n)
  {
    hide Find, AllToken, AllTarget, IsVersion;
  }

  lemma TokenAppend(options: seq<string>, option: string, wanted: string)
    ensures HasToken(options + [option], wanted) <==> HasToken(options, wanted) || IEquals(option, wanted)
  {
    var all := options + [option];
    assert all[|options|] == option;
    assert forall i :: 0 <= i < |options| ==> all[i] == options[i];
    if HasToken(options, wanted) {
      var i :| 0 <= i < |options| && IEquals(options[i], wanted);
      assert IEquals(all[i], wanted);
    }
  }
}
