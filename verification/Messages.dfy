/** Requests written out by the grammar of RFC 7230, and the requests a connection makes of them. */
module Messages {
  import opened Wrappers
  import opened Bytes
  import opened HttpMachine
  import opened Fragmentation
  import opened Driver
  import opened HeadSyntax
  import opened HeadRoundTrip
  import opened ChunkGrammar
  import opened ChunkedCodec
  import opened Requests
  import Connection

  datatype Content = Plain(data: string) | Chunks(text: ChunkedText)

  datatype Message = Message(head: HeadText, content: Content)

  /** The body as the handler gets it, and as it is sent. */
  function PayloadOf(msg: Message): string {
    match msg.content case Plain(data) => data case Chunks(text) => Payload(text.chunks)
  }

  function BodyText(msg: Message): string {
    match msg.content case Plain(data) => data case Chunks(text) => BodyBytes(text, "")
  }

  function Render(msg: Message): string { RenderHead(msg.head) + BodyText(msg) }

  /** A message by the grammar, within the limits of the server, whose fields announce its body. The
      trailers of a chunked body count as fields. */
  predicate WellFormed(msg: Message) {
    && Acceptable(msg.head)
    && match msg.content
       case Plain(data) => !HasEncoding(HeadSent(msg)) && LengthOf(HeadSent(msg)) == |data|
       case Chunks(text) => HasEncoding(HeadSent(msg)) && GoodBody(text) && TrailersFit(msg.head, text)
  }

  predicate TrailersFit(h: HeadText, text: ChunkedText) {
    text.trailers == [] || |h.fields| + |text.trailers| <= MAX_HEADERS_COUNT
  }

  /** No line of the body is too long to arrive in pieces. */
  predicate ShortMessage(msg: Message) { msg.content.Chunks? ==> ShortText(msg.content.text) }

  function HeadOf(msg: Message): Machine { Announced(msg.head) }

  predicate HasBody(msg: Message) { msg.content.Chunks? || msg.content.data != "" }

  /** The handler reads the body, under a limit which admits it. */
  predicate Welcome(policy: Policy, msg: Message) {
    var limit := policy(HeadOf(msg).r);
    HasBody(msg) ==> limit.Some? && (limit.value == 0 || |PayloadOf(msg)| <= limit.value)
  }

  /** The request the handler of the message gets. */
  function RequestOf(policy: Policy, msg: Message): Request {
    var limit := policy(HeadOf(msg).r);
    var r := if limit.Some? then HeadOf(msg).r.(hasCallback := true, maxBody := limit.value) else HeadOf(msg).r;
    r.(state := Completed, delivered := PayloadOf(msg))
  }

  predicate Continues(msg: Message) { Persists(HeadSent(msg), msg.head.minor) }

  function HeadSent(msg: Message): seq<Sent> { Sents(msg.head.fields) }

  // ---------------------------------------------------------------- one message

  lemma HeadParsed(msg: Message, rest: string)
    requires WellFormed(msg)
    ensures Parse(InHead, Machine(FRESH_PARSER, FRESH_REQUEST), Render(msg) + rest) ==
            Stop(HeadOf(msg), BodyText(msg) + rest)
    ensures Finished(InHead, HeadOf(msg)) && Valid(HeadOf(msg))
    ensures HeadOf(msg).p.body ==
            if msg.content.Chunks? then Chunked else if HasBody(msg) then ContentLength else NoBody
  {
    hide RenderHead, ParseHead, GoodHead, Sents, HasEncoding, LengthOf, HasLength, HasOption, MapOf, Clean, GoodBody,
         BodyText;
    HeadRoundTrip.HeadRoundTrip(FRESH_PARSER, msg.head, BodyText(msg) + rest);
    assert Render(msg) + rest == RenderHead(msg.head) + (BodyText(msg) + rest);
  }

  lemma LengthRead(m: Machine, data: string, rest: string)
    requires Valid(m) && m.p.body.ContentLength? && m.r.state.HeadersCompleted? && m.r.hasCallback
    requires m.p.received == 0 && m.p.remaining == |data| > 0 && (m.r.maxBody == 0 || |data| <= m.r.maxBody)
    ensures var o := Parse(InBody, m, data + rest);
            && o.Stop? && o.rest == rest && o.m.r == m.r.(state := Completed, delivered := m.r.delivered + data)
    ensures Short(InBody, m, data + rest)
  {
    assert (data + rest)[..|data|] == data && (data + rest)[|data|..] == rest;
  }

  lemma ChunksRead(m: Machine, text: ChunkedText, rest: string)
    requires Decoding(m) && m.p.chunk.Size? && m.r.state.HeadersCompleted? && GoodBody(text) && Admitted(m, text)
    ensures var o := Parse(InBody, m, BodyBytes(text, "") + rest);
            && o.Stop? && o.rest == rest
            && o.m.r == m.r.(state := Completed, delivered := m.r.delivered + Payload(text.chunks))
    ensures Short(InBody, m, BodyBytes(text, "") + rest) == ShortText(text)
    ensures BodyBytes(text, "") + rest != ""
  {
    hide BodyBytes, Parse, Short, GoodBody, ShortText, RunChunked, ShortLines;
    BodyAfter(text, rest);
    BodyParses(m, text, rest);
    NotEmpty(text, rest);
  }

  lemma NotEmpty(text: ChunkedText, rest: string)
    requires GoodBody(text)
    ensures BodyBytes(text, rest) != ""
  {
  }

  /** The body is read as a whole. */
  lemma BodyRead(policy: Policy, msg: Message, rest: string)
    requires WellFormed(msg) && HasBody(msg) && Welcome(policy, msg) && Valid(HeadOf(msg))
    ensures var m := WithLimit(HeadOf(msg), policy(HeadOf(msg).r));
            var o := Parse(InBody, m, BodyText(msg) + rest);
            && o.Stop? && o.rest == rest && o.m.r == RequestOf(policy, msg)
            && Short(InBody, m, BodyText(msg) + rest) == ShortMessage(msg)
            && BodyText(msg) + rest != "" && !Unread(m, policy(HeadOf(msg).r))
  {
    HeadParsed(msg, rest);
    var m := WithLimit(HeadOf(msg), policy(HeadOf(msg).r));
    hide Parse, Short, Acceptable, HasEncoding, LengthOf, HasLength, HasOption, MapOf, GoodBody, BodyBytes, ShortText,
         Sents, RenderHead;
    assert m.p.received == 0 && m.r.delivered == "" && "" + PayloadOf(msg) == PayloadOf(msg);
    assert m.p.chunk.Size? && m.r.state.HeadersCompleted? && m.p.headers == |msg.head.fields|;
    match msg.content
    case Plain(data) =>
      assert m.p.remaining == |data|;
      LengthRead(m, data, rest);
    case Chunks(text) =>
      ChunksRead(m, text, rest);
  }

  lemma HeadThen(policy: Policy, n: nat, w: string, m: Machine, body: string)
    requires n > 0 && Parse(InHead, Machine(FRESH_PARSER, FRESH_REQUEST), w) == Stop(m, body)
    requires Finished(InHead, m) && Valid(m)
    ensures var limit := policy(m.r);
            && ServedWhole(policy, n, w) == WholeBody(policy, n, WithLimit(m, limit), limit, body)
            && ShortBodies(policy, n, w) == ShortFrom(policy, n, WithLimit(m, limit), limit, body)
  {
    hide Parse, WholeBody, ShortFrom;
  }

  lemma BodyThen(policy: Policy, n: nat, m: Machine, limit: Option<nat>, w: string)
    requires n > 0 && Valid(m) && !Unread(m, limit) && w != ""
    requires var o := Parse(InBody, m, w); o.Stop? && o.m.r.state.Completed?
    ensures var o := Parse(InBody, m, w);
            && WholeBody(policy, n, m, limit, w) == WholeNext(policy, n, o.m, o.rest)
            && ShortFrom(policy, n, m, limit, w) == (Short(InBody, m, w) && ShortNext(policy, n, o.m, o.rest))
  {
    hide Parse, WholeNext, ShortNext, Short;
  }

  /** What is answered after a message depends on its request only. */
  lemma NextThen(policy: Policy, n: nat, m: Machine, r: Request, rest: string)
    requires n > 0 && Valid(m) && m.r == r && r.state.Completed?
    ensures WholeNext(policy, n, m, rest) ==
            [Answered(r)] + if r.keepAlive then ServedWhole(policy, n - 1, rest) else []
    ensures ShortNext(policy, n, m, rest) == (r.keepAlive ==> ShortBodies(policy, n - 1, rest))
  {
    hide ServedWhole, ShortBodies;
  }

  lemma RequestFacts(policy: Policy, msg: Message)
    requires WellFormed(msg)
    ensures RequestOf(policy, msg).keepAlive == Continues(msg) && RequestOf(policy, msg).state.Completed?
    ensures !HasBody(msg) ==>
              && BodyText(msg) == "" && HeadOf(msg).r.state.Completed? && ShortMessage(msg)
              && (Valid(HeadOf(msg)) ==> WithLimit(HeadOf(msg), policy(HeadOf(msg).r)).r == RequestOf(policy, msg))
  {
    hide RenderHead, GoodHead, Sents, HasLength, HasOption, MapOf, Clean, GoodBody, BodyBytes;
  }

  /** One message is answered with its request, and the connection goes on behind it. */
  lemma MessageServed(policy: Policy, n: nat, msg: Message, rest: string)
    requires n > 0 && WellFormed(msg) && Welcome(policy, msg)
    ensures ServedWhole(policy, n, Render(msg) + rest) ==
            [Answered(RequestOf(policy, msg))] + if Continues(msg) then ServedWhole(policy, n - 1, rest) else []
    ensures ShortBodies(policy, n, Render(msg) + rest) ==
            (ShortMessage(msg) && (Continues(msg) ==> ShortBodies(policy, n - 1, rest)))
  {
    hide Announced, Parse, Short, Render, BodyText, WellFormed, ShortMessage, Welcome, Continues, RequestOf,
         ServedWhole, ShortBodies, WholeNext, ShortNext;
    HeadParsed(msg, rest);
    RequestFacts(policy, msg);
    var limit := policy(HeadOf(msg).r);
    var m := WithLimit(HeadOf(msg), limit);
    HeadThen(policy, n, Render(msg) + rest, HeadOf(msg), BodyText(msg) + rest);
    if HasBody(msg) {
      BodyRead(policy, msg, rest);
      BodyThen(policy, n, m, limit, BodyText(msg) + rest);
      NextThen(policy, n, Parse(InBody, m, BodyText(msg) + rest).m, RequestOf(policy, msg), rest);
    } else {
      assert "" + rest == rest;
      NextThen(policy, n, m, RequestOf(policy, msg), rest);
    }
  }

  /** A handler which reads everything. */
  function ReadAll(r: Request): Option<nat> { Some(0) }

  /** The end of a message is where the grammar has it. */
  lemma MessageEndsThere(msg: Message, rest: string)
    requires WellFormed(msg)
    ensures Connection.MessageEnd(Render(msg) + rest) == Some(rest)
  {
    hide Announced, Render, BodyText, WellFormed, ShortMessage, RequestOf, ParseHead, ParseBody, Short;
    HeadParsed(msg, rest);
    RequestFacts(ReadAll, msg);
    assert Connection.Open(HeadOf(msg)) == WithLimit(HeadOf(msg), ReadAll(HeadOf(msg).r));
    if HasBody(msg) {
      BodyRead(ReadAll, msg, rest);
    } else {
      assert "" + rest == rest;
      CompletedBody(Connection.Open(HeadOf(msg)), rest);
    }
  }

  lemma CompletedBody(m: Machine, w: string)
    requires Valid(m) && m.r.state.Completed?
    ensures ParseBody(m, w) == Stop(m, w)
  {
  }

  /** What the body of an accepted head was written as. */
  lemma ContentWritten(h: HeadText, w: string) returns (msg: Message)
    requires Acceptable(h) && Valid(Announced(h))
    requires var o := ParseBody(Connection.Open(Announced(h)), w); o.Stop? && o.m.r.state.Completed?
    ensures var o := ParseBody(Connection.Open(Announced(h)), w);
            WellFormed(msg) && msg.head == h && w == BodyText(msg) + o.rest
  {
    var m := Connection.Open(Announced(h));
    var rest := ParseBody(m, w).rest;
    var sent := Sents(h.fields);
    hide Acceptable, HasLength, HasOption, MapOf, HasEncoding, LengthOf, GoodBody, BodyBytes, RenderHead, Sents,
         ParseBody;
    if HasEncoding(sent) {
      var b := ChunksWritten(m, w);
      msg := Message(h, Chunks(b));
    } else if LengthOf(sent) > 0 {
      LengthTaken(m, w);
      msg := Message(h, Plain(w[..LengthOf(sent)]));
    } else {
      CompletedBody(m, w);
      msg := Message(h, Plain(""));
      assert w == "" + w;
    }
  }

  lemma ChunksWritten(m: Machine, w: string) returns (b: ChunkedText)
    requires Decoding(m) && m.p.chunk.Size? && m.r.state.HeadersCompleted?
    requires ParseBody(m, w).Stop? && ParseBody(m, w).m.r.state.Completed?
    ensures GoodBody(b) && Admitted(m, b) && w == BodyBytes(b, "") + ParseBody(m, w).rest
  {
    hide RunChunked, GoodBody, BodyBytes;
    b := BodyWritten(m.(r := m.r.(state := ProcessingBody)), w);
    BodyAfter(b, ParseBody(m, w).rest);
  }

  lemma LengthTaken(m: Machine, w: string)
    requires Valid(m) && m.p.body.ContentLength? && !m.r.state.Completed? && m.p.remaining > 0
    requires ParseBody(m, w).Stop? && ParseBody(m, w).m.r.state.Completed?
    ensures m.p.remaining <= |w| && w == w[..m.p.remaining] + ParseBody(m, w).rest
  {
    hide Deliver;
  }

  /** The bytes which the server takes for a complete message, over all byte strings: exactly the
      messages of the grammar. */
  lemma MessageIff(w: string, rest: string)
    ensures Connection.MessageEnd(w) == Some(rest) <==> exists msg :: WellFormed(msg) && w == Render(msg) + rest
  {
    hide ParseHead, ParseBody, Announced, Acceptable, RenderHead, BodyText;
    if Connection.MessageEnd(w) == Some(rest) {
      var o := ParseHead(Machine(FRESH_PARSER, FRESH_REQUEST), w);
      HeadEnded(w, o.m, o.rest);
      var h := HeadWritten(FRESH_PARSER, w, o.m, o.rest);
      var msg := ContentWritten(h, o.rest);
      assert RenderHead(h) + (BodyText(msg) + rest) == Render(msg) + rest;
    }
    if msg :| WellFormed(msg) && w == Render(msg) + rest {
      MessageEndsThere(msg, rest);
    }
  }

  lemma HeadEnded(w: string, m: Machine, rest: string)
    requires ParseHead(Machine(FRESH_PARSER, FRESH_REQUEST), w) == Stop(m, rest) && Finished(InHead, m)
    ensures m.p.head.Done?
  {
    hide RunHead;
    RunHeadState(BeginRequest(Machine(FRESH_PARSER, FRESH_REQUEST)), w);
  }

  // ---------------------------------------------------------------- whole connections

  function RenderAll(msgs: seq<Message>): string
  {
    if msgs == [] then "" else Render(msgs[0]) + RenderAll(msgs[1..])
  }

  function AnswersTo(policy: Policy, msgs: seq<Message>): seq<Turnout>
  {
    if msgs == [] then [] else [Answered(RequestOf(policy, msgs[0]))] + AnswersTo(policy, msgs[1..])
  }

  /** Every message is well-formed, without overlong lines and welcome, and all but the last keep the
      connection open. */
  predicate Conversation(policy: Policy, msgs: seq<Message>) {
    && (forall i :: 0 <= i < |msgs| ==> WellFormed(msgs[i]) && ShortMessage(msgs[i]) && Welcome(policy, msgs[i]))
    && (forall i :: 0 <= i < |msgs| - 1 ==> Continues(msgs[i]))
  }

  lemma {:induction false} AllServed(policy: Policy, msgs: seq<Message>, tail: string)
    requires Conversation(policy, msgs)
    ensures ServedWhole(policy, |msgs|, RenderAll(msgs) + tail) == AnswersTo(policy, msgs)
    ensures ShortBodies(policy, |msgs|, RenderAll(msgs) + tail)
    decreases |msgs|
  {
    hide WellFormed, ShortMessage, Welcome, Continues, Render, RequestOf, Conversation, ServedWhole, ShortBodies;
    if msgs == [] {
      LastServed(policy, RenderAll(msgs) + tail);
    } else {
      var rest := RenderAll(msgs[1..]) + tail;
      assert RenderAll(msgs) + tail == Render(msgs[0]) + rest;
      Shorter(policy, msgs);
      AllServed(policy, msgs[1..], tail);
      MessageServed(policy, |msgs|, msgs[0], rest);
      if |msgs| == 1 { LastServed(policy, rest); }
    }
  }

  lemma Shorter(policy: Policy, msgs: seq<Message>)
    requires Conversation(policy, msgs) && msgs != []
    ensures WellFormed(msgs[0]) && ShortMessage(msgs[0]) && Welcome(policy, msgs[0])
    ensures Conversation(policy, msgs[1..]) && (|msgs| > 1 ==> Continues(msgs[0]))
  {
    hide WellFormed, ShortMessage, Welcome, Continues;
  }

  lemma LastServed(policy: Policy, rest: string)
    ensures ServedWhole(policy, 0, rest) == [] && ShortBodies(policy, 0, rest)
  {
  }

  /** Requests which are written one after the other, with bodies of known length or in chunks, are
      served as exactly these requests with exactly these bodies, however their bytes arrive and
      whatever follows them. */
  lemma MessagesServed(policy: Policy, msgs: seq<Message>, tail: string, p: Parser, pending: string, events: seq<Event>)
    requires Conversation(policy, msgs) && Valid(Machine(p, FRESH_REQUEST))
    requires Unbroken(events) && Stream(pending, events) == RenderAll(msgs) + tail
    ensures Served(policy, |msgs|, p, pending, events) == AnswersTo(policy, msgs)
  {
    AllServed(policy, msgs, tail);
    hide Conversation, AnswersTo, RenderAll, Served, ServedWhole, ShortBodies;
    ServedIsWhole(policy, |msgs|, p, pending, events);
  }
}
