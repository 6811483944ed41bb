/** A whole chunked body, from the writes of a handler to the bytes its peer decodes. */
module EndToEnd {
  import opened Wrappers
  import opened Bytes
  import opened HttpMachine
  import opened Driver
  import opened ChunkGrammar
  import opened ChunkedCodec
  import opened OutStreams
  import opened Truncation
  import Output

  /** What a handler can do with a chunked stream and a stream buffer on top of it. It flushes the
      buffer before it writes past it. */
  datatype Op = Scalar(data: string) | Vectored(buffers: seq<string>) | Put(data: string) | PutChar(c: char) | Flush

  function Data(op: Op): string {
    match op
    case Scalar(data) => data
    case Vectored(buffers) => Flatten(buffers)
    case Put(data) => data
    case PutChar(c) => [c]
    case Flush => ""
  }

  function Written(ops: seq<Op>): string
  {
    if ops == [] then "" else Written(ops[..|ops| - 1]) + Data(ops[|ops| - 1])
  }

  method Perform(buffer: OstreamBuffer, op: Op) returns (ok: bool)
    requires buffer.Valid() && buffer.stream.chunked
    modifies buffer`buffer, buffer.stream`log, buffer.stream.session
    ensures ok ==> buffer.Valid() && buffer.Contents() == old(buffer.Contents()) + Data(op)
    ensures ok ==> buffer.Slack() >= old(buffer.Slack())
    ensures !ok ==> buffer.buffer == "" && buffer.stream.Halted(old(buffer.Contents()) + Data(op))
    ensures old(buffer.Slack()) >= 6 * (|old(buffer.Contents())| + |Data(op)|) ==> ok
  {
    match op
    case Put(data) =>
      var count;
      ok, count := buffer.Xsputn(data, |data|);
      assert data[..|data|] == data;
    case PutChar(c) =>
      ok := PutOne(buffer, c);
    case Scalar(data) =>
      ok := WritePast(buffer, data);
    case Vectored(buffers) =>
      ok := WriteAllPast(buffer, buffers);
    case Flush =>
      ok := buffer.Sync();
      assert old(buffer.Contents()) + "" == old(buffer.Contents());
  }

  method PutOne(buffer: OstreamBuffer, c: char) returns (ok: bool)
    requires buffer.Valid() && buffer.stream.chunked
    modifies buffer`buffer, buffer.stream`log, buffer.stream.session
    ensures ok ==> buffer.Valid() && buffer.Contents() == old(buffer.Contents()) + [c]
    ensures ok ==> buffer.Slack() >= old(buffer.Slack())
    ensures !ok ==> buffer.buffer == "" && buffer.stream.Halted(old(buffer.Contents()) + [c])
    ensures old(buffer.Slack()) >= 6 * (|old(buffer.Contents())| + |[c]|) ==> ok
  {
    ok := buffer.Overflow(Some(c));
  }

  method WritePast(buffer: OstreamBuffer, data: string) returns (ok: bool)
    requires buffer.Valid() && buffer.stream.chunked
    modifies buffer`buffer, buffer.stream`log, buffer.stream.session
    ensures ok ==> buffer.Valid() && buffer.Contents() == old(buffer.Contents()) + data
    ensures ok ==> buffer.Slack() >= old(buffer.Slack())
    ensures !ok ==> buffer.buffer == "" && buffer.stream.Halted(old(buffer.Contents()) + data)
    ensures old(buffer.Slack()) >= 6 * (|old(buffer.Contents())| + |data|) ==> ok
  {
    ok := buffer.Sync();
    if ok {
      LogOne(buffer.stream.log, data);
      assert buffer.Contents() == Flatten(buffer.stream.log);
      hide Flatten, Carried;
      ok := buffer.stream.Write(data);
    }
  }

  method WriteAllPast(buffer: OstreamBuffer, buffers: seq<string>) returns (ok: bool)
    requires buffer.Valid() && buffer.stream.chunked
    modifies buffer`buffer, buffer.stream`log, buffer.stream.session
    ensures ok ==> buffer.Valid() && buffer.Contents() == old(buffer.Contents()) + Flatten(buffers)
    ensures ok ==> buffer.Slack() >= old(buffer.Slack())
    ensures !ok ==> buffer.buffer == "" && buffer.stream.Halted(old(buffer.Contents()) + Flatten(buffers))
    ensures old(buffer.Slack()) >= 6 * (|old(buffer.Contents())| + |Flatten(buffers)|) ==> ok
  {
    ok := buffer.Sync();
    if ok {
      LogOne(buffer.stream.log, Flatten(buffers));
      assert buffer.Contents() == Flatten(buffer.stream.log);
      hide Flatten, Carried;
      var parts := ArrayOf(buffers);
      ok := buffer.stream.WriteBuffers(parts);
    }
  }

  lemma {:induction false} BodyPrefix(ops: seq<Op>, i: nat)
    requires i <= |ops|
    ensures Written(ops[..i]) <= Written(ops)
    decreases |ops| - i
  {
    if i < |ops| {
      BodyPrefix(ops, i + 1);
      assert ops[..i + 1][..i] == ops[..i];
    } else {
      assert ops[..i] == ops;
    }
  }

  lemma WrittenNext(ops: seq<Op>, i: nat)
    requires i < |ops|
    ensures Written(ops[..i + 1]) == Written(ops[..i]) + Data(ops[i])
  {
    assert ops[..i + 1][..i] == ops[..i];
  }

  lemma HaltedEarlier(stream: OutStream, part: string, body: string)
    requires stream.Halted(part) && part <= body
    ensures stream.Halted(body)
  {
  }

  /** The handler ends at its first write which fails. */
  method PerformAll(buffer: OstreamBuffer, ops: seq<Op>) returns (ok: bool)
    requires buffer.Valid() && buffer.stream.chunked && buffer.Contents() == ""
    modifies buffer`buffer, buffer.stream`log, buffer.stream.session
    ensures ok ==> buffer.Valid() && buffer.Contents() == Written(ops) && buffer.Slack() >= old(buffer.Slack())
    ensures !ok ==> buffer.buffer == "" && buffer.stream.Halted(Written(ops))
    ensures old(buffer.Slack()) >= 6 * |Written(ops)| ==> ok
  {
    assert Written(ops[..0]) == "";
    hide Written, Data, Flatten, Carried, Output.Grants;
    for i := 0 to |ops|
      invariant buffer.Valid() && buffer.Contents() == Written(ops[..i]) && buffer.Slack() >= old(buffer.Slack())
    {
      BodyPrefix(ops, i + 1);
      WrittenNext(ops, i);
      ok := Perform(buffer, ops[i]);
      if !ok {
        HaltedEarlier(buffer.stream, Written(ops[..i + 1]), Written(ops));
        return false;
      }
    }
    assert ops[..|ops|] == ops;
    return true;
  }

  /** The destructor of the buffer flushes it; after a write which failed it is empty. */
  method PerformAndFlush(buffer: OstreamBuffer, ops: seq<Op>) returns (ok: bool)
    requires buffer.Valid() && buffer.stream.chunked && buffer.Contents() == ""
    modifies buffer`buffer, buffer.stream`log, buffer.stream.session
    ensures ok ==> buffer.stream.Valid() && Flatten(buffer.stream.log) == Written(ops)
    ensures ok ==> Output.Grants(buffer.stream.session.script) + 6 * |Written(ops)| >= old(buffer.Slack())
    ensures !ok ==> buffer.stream.Halted(Written(ops))
    ensures old(buffer.Slack()) >= 6 * |Written(ops)| ==> ok
  {
    hide Written, Flatten, Carried, Output.Grants;
    var performed := PerformAll(buffer, ops);
    var flushed := buffer.Sync();
    ok := performed && flushed;
  }

  /** What follows a write which failed is a part of the terminating chunk. */
  lemma TornAfter(base: string, log: seq<string>, piece: string, halted: string, sent: string, body: string)
    requires base + Frames(log) <= halted < base + Frames(log + [piece]) && Flatten(log) + piece <= body
    requires halted <= sent <= halted + END_OF_CHUNKED_STREAM
    ensures base <= sent && BreaksOff(sent[|base|..], body)
  {
    CarriedOne(true, log, piece);
    hide Frame, Frames;
    var done := base + Frames(log);
    var p, q := halted[|done|..], sent[|halted|..];
    assert halted == done + p && sent == halted + q;
    assert base + Frames(log + [piece]) == done + Frame(piece);
    assert p < Frame(piece);
    assert sent[|base|..] == Frames(log) + (p + q);
    assert Torn(sent[|base|..], body, log, piece, p, q);
  }

  lemma TornAtEnd(base: string, log: seq<string>, sent: string, body: string)
    requires base + Frames(log) <= sent < base + Encode(log) && Flatten(log) == body
    ensures base <= sent && BreaksOff(sent[|base|..], body)
  {
    hide Frames;
    var done := base + Frames(log);
    var q := sent[|done|..];
    assert sent == done + q && base + Encode(log) == done + END_OF_CHUNKED_STREAM;
    assert sent[|base|..] == Frames(log) + ("" + q);
    assert Flatten(log) + "" == body;
    assert Torn(sent[|base|..], body, log, "", "", q);
  }

  /** The scope of a chunked response: what the handler does, then the destructors of its buffer and
      of its stream, whose errors are swallowed. A handler all of whose bytes went out has sent one
      complete body, and they do if the socket lets it write often enough. Otherwise it has sent
      complete chunks of it, a part of one more, and a part of the terminating chunk. */
  method Respond(session: Output.Session, socketWriteSize: int, ops: seq<Op>) returns (ok: bool)
    modifies session
    ensures old(session.sent) <= session.sent
    ensures var sent := session.sent[|old(session.sent)|..];
            if ok then Carries(sent, Written(ops)) else BreaksOff(sent, Written(ops))
    ensures Output.Grants(old(session.script)) >= 6 * |Written(ops)| + |END_OF_CHUNKED_STREAM| ==> ok
  {
    var stream := new OutStream(session, true);
    var buffer := new OstreamBuffer(stream, socketWriteSize);
    hide Written, Flatten, Carried, Encode, BreaksOff, Carries, Output.Grants;
    var flushed := PerformAndFlush(buffer, ops);
    ghost var halted, log, piece := session.sent, stream.log, "";
    if !flushed {
      piece :| stream.HaltedIn(piece) && Flatten(log) + piece <= Written(ops);
    }
    var ended := stream.End();
    ok := flushed && ended;
    Closed(stream.base, log, piece, halted, session.sent, Written(ops), flushed, ended);
  }

  lemma Closed(base: string, log: seq<string>, piece: string, halted: string, sent: string, body: string,
               flushed: bool, ended: bool)
    requires halted <= sent <= halted + END_OF_CHUNKED_STREAM
    requires ended <==> sent == halted + END_OF_CHUNKED_STREAM
    requires if flushed then halted == base + Frames(log) && Flatten(log) == body
             else base + Frames(log) <= halted < base + Frames(log + [piece]) && Flatten(log) + piece <= body
    ensures base <= sent
    ensures if flushed && ended then Carries(sent[|base|..], body) else BreaksOff(sent[|base|..], body)
  {
    hide Frames, BreaksOff;
    assert base + Frames(log) + END_OF_CHUNKED_STREAM == base + Encode(log);
    if !flushed {
      TornAfter(base, log, piece, halted, sent, body);
    } else if !ended {
      TornAtEnd(base, log, sent, body);
    } else {
      assert sent[|base|..] == Encode(log);
    }
  }

  lemma HelloTorn()
    ensures var sent := "5\r\nhe" + END_OF_CHUNKED_STREAM; BreaksOff(sent, "hello") && !Begins(sent, "hello")
  {
    var p, q := "5\r\nhe", END_OF_CHUNKED_STREAM;
    assert HexText(5) == "5";
    assert Frame("hello") == "5\r\nhello\r\n";
    assert (p + q)[5] == '0' && Frame("hello")[5] == 'l' && !IsHex(p[1]);
    assert Frames([]) + (p + q) == p + q;
    assert Torn(p + q, "hello", [], "hello", p, q);
    BeginsIff(p + q, "hello", [], "hello", p, q);
  }

  lemma HelloSent(socketSize: nat, script: seq<Output.Attempt>)
    requires script == [Output.Took(5), Output.Interrupted, Output.Took(5)]
    ensures Output.Sends(false, socketSize, Parts(["hello"]), script) == Output.Sent(5, [Output.Took(5)], false)
  {
    hide Flatten, Output.Sends, Output.Drop;
    var parts := Parts(["hello"]);
    HelloParts();
    assert parts[..3] == parts;
    assert script[1..] == [Output.Interrupted, Output.Took(5)] && script[1..][1..] == [Output.Took(5)];
    Output.SendsStep(false, socketSize, parts, script);
    Output.DropBytes(parts, 5);
    Output.SendsStep(false, socketSize, Output.Drop(parts, 5), script[1..]);
  }

  lemma HelloParts()
    ensures |Parts(["hello"])| == 3 && |Flatten(Parts(["hello"]))| == 10
  {
    FlattenOne("hello");
    FramedParts(HexText(5) + "\r\n", ["hello"]);
    assert HexText(5) == "5";
  }

  lemma EndSent(socketSize: nat)
    ensures Output.Sends(false, socketSize, [END_OF_CHUNKED_STREAM], [Output.Took(5)]) == Output.Sent(5, [], true)
  {
    Output.SendsOne(false, socketSize, END_OF_CHUNKED_STREAM, [Output.Took(5)]);
    Output.SendsOne(false, socketSize, "", []);
  }

  lemma HelloPart(stream: OutStream)
    requires stream.chunked && stream.base == "" && stream.log == [] && stream.HaltedIn("hello")
    requires |stream.session.sent| == 5
    ensures stream.session.sent == "5\r\nhe"
  {
    assert [] + ["hello"] == ["hello"] && ["hello"][1..] == [];
    assert HexText(5) == "5";
    assert Carried(true, ["hello"]) == "5\r\nhello\r\n";
    assert "" + Carried(true, ["hello"]) == "5\r\nhello\r\n";
    assert stream.session.sent == "5\r\nhello\r\n"[..5];
  }

  /** A peer which shuts down its side while a chunk is sent: the handler gets the error, but the
      socket takes the terminating chunk, which the peer then reads as data. */
  method InterruptedWrite(session: Output.Session) returns (ok: bool)
    requires !session.tls && session.sent == ""
    requires session.script == [Output.Took(5), Output.Interrupted, Output.Took(5)]
    modifies session
    ensures !ok && session.sent == "5\r\nhe" + END_OF_CHUNKED_STREAM
    ensures BreaksOff(session.sent, "hello") && !Begins(session.sent, "hello")
  {
    hide *;
    HelloSent(session.socketSize, session.script);
    EndSent(session.socketSize);
    var stream := new OutStream(session, true);
    ok := stream.Write("hello");
    HelloPart(stream);
    var ended := stream.End();
    HelloTorn();
  }

  lemma {:induction false} PiecesFit(pieces: seq<string>, i: nat)
    requires i < |pieces|
    ensures |pieces[i]| <= |Flatten(pieces)|
  {
    if i > 0 { PiecesFit(pieces[1..], i - 1); }
  }

  /** However the handler cut its body into writes, however the socket took them and however they
      arrive, the receiving side delivers exactly the body, completes the request and leaves the
      bytes which follow unread. */
  lemma BodyArrives(sent: string, ops: seq<Op>, m: Machine, tail: string, pending: string, events: seq<Event>)
    requires Carries(sent, Written(ops)) && |Written(ops)| <= CHUNKED_DATA
    requires Decoding(m) && m.p.chunk.Size? && m.r.state.HeadersCompleted? && Takes(m, |Written(ops)|)
    requires Unbroken(events) && Stream(pending, events) == sent + tail
    ensures var r := Drive(InBody, m, pending, events);
            && r.Accepted?
            && r.m.r == m.r.(state := Completed, delivered := m.r.delivered + Written(ops))
            && Stream(r.pending, r.events) == tail
  {
    var pieces :| sent == Encode(pieces) && Flatten(pieces) == Written(ops);
    forall i | 0 <= i < |pieces| ensures |pieces[i]| <= CHUNKED_DATA { PiecesFit(pieces, i); }
    hide Encode, Drive;
    ChunkedRoundTrip(m, pieces, tail, pending, events);
  }
}
