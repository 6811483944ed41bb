/** io_loop(): requests are served one after the other on a connection, by handlers which
    may read the body, ignore it, or swallow the errors of reading it. */
module Connection {
  import opened Wrappers
  import opened Bytes
  import opened HttpMachine
  import opened Fragmentation
  import opened Driver
  import HeadRoundTrip

  /** What a handler does with its stream and request. */
  datatype Action =
    | Register(max: nat)          // append_body_callback()
    | ReadBody(swallow: bool)     // stream >> req, catching its error or not
    | SetKeepAlive(seconds: nat)
    | Throw

  /** A handler, and whether the session was last resumed without an error when it returns. */
  datatype Handler = Handler(actions: seq<Action>, resumedOk: bool)

  /** `refused` records that some read threw an error response. */
  datatype Turn = Turn(
    m: Machine, pending: string, events: seq<Event>, keepAlive: nat, threw: bool, refused: bool)

  datatype Conn = Conn(p: Parser, pending: string, events: seq<Event>)

  predicate ValidConn(c: Conn) { Valid(Machine(c.p, FRESH_REQUEST)) }

  /** The bytes from the current position of the connection on. */
  function Unread(c: Conn): string { Stream(c.pending, c.events) }

  function Act(t: Turn, a: Action): (t': Turn)
    requires Valid(t.m)
    ensures Valid(t'.m)
  {
    match a
    case Register(max) => t.(m := t.m.(r := t.m.r.(hasCallback := true, maxBody := max)))
    case SetKeepAlive(seconds) => t.(keepAlive := seconds)
    case Throw => t.(threw := true)
    case ReadBody(swallow) =>
      if t.m.r.state.Completed? then t else
      match Drive(InBody, t.m, t.pending, t.events)
      case Accepted(m', pending', events') => t.(m := m', pending := pending', events := events')
      case Refused(m', pending', events') =>
        t.(m := m', pending := pending', events := events', keepAlive := 0, threw := !swallow, refused := true)
      case Failed(m', pending', events') =>
        t.(m := m', pending := pending', events := events', keepAlive := 0, threw := !swallow)
  }

  function Handle(t: Turn, actions: seq<Action>): (t': Turn)
    requires Valid(t.m)
    ensures Valid(t'.m)
    decreases |actions|
  {
    if actions == [] || t.threw then t else Handle(Act(t, actions[0]), actions[1..])
  }

  /** One turn of the loop: the connection at which it starts to parse the next head, if it
      does. `timeout` is the keep-alive the server grants a request which asks for one. */
  function ServeRequest(c: Conn, h: Handler, timeout: nat): (next: Option<Conn>)
    requires ValidConn(c)
    ensures next.Some? ==> ValidConn(next.value)
  {
    match Drive(InHead, Machine(c.p, FRESH_REQUEST), c.pending, c.events)
    case Accepted(m, pending, events) =>
      var t := Handle(Turn(m, pending, events, if m.r.keepAlive then timeout else 0, false, false), h.actions);
      if t.threw || !t.m.r.state.Completed? || t.keepAlive == 0 || !h.resumedOk then None
      else Some(Conn(t.m.p, t.pending, t.events))
    case _ => None
  }

  // ---------------------------------------------------------------- the message grammar

  /** The same machine with a callback and no limit on the body. */
  function Open(m: Machine): Machine { m.(r := m.r.(hasCallback := true, maxBody := 0)) }

  /** What follows the first message of `w`, when `w` starts with a complete message. */
  function MessageEnd(w: string): (rest: Option<string>)
  {
    match ParseHead(Machine(FRESH_PARSER, FRESH_REQUEST), w)
    case Rejected(_, _) => None
    case Stop(m, rest) =>
      if !Finished(InHead, m) then None else
      match ParseBody(Open(m), rest)
      case Rejected(_, _) => None
      case Stop(m', rest') => if m'.r.state.Completed? then Some(rest') else None
  }

  // ---------------------------------------------------------------- limits do not move boundaries

  /** The same step of the machine without a limit. */
  function Opened(s: ChunkStep): ChunkStep {
    match s case Eat(m, n) => Eat(Open(m), n) case _ => s
  }

  lemma OpenDeliver(m: Machine, piece: string)
    requires Deliver(m, piece).Ok?
    ensures Deliver(Open(m), piece) == Ok(Open(Deliver(m, piece).m))
  {
  }

  lemma OpenData(m: Machine, d: string)
    requires Decoding(m) && m.p.chunk.Data? && d != "" && !StepData(m, d).Bad?
    ensures StepData(Open(m), d) == Opened(StepData(m, d))
  {
    hide Deliver;
    OpenDeliver(m, d[..Min(m.p.remaining, |d|)]);
  }

  lemma OpenTrailer(m: Machine, d: string)
    requires Decoding(m) && !StepTrailer(m, d).Bad?
    ensures StepTrailer(Open(m), d) == Opened(StepTrailer(m, d))
  {
    hide Find, LineText, AllValue;
  }

  lemma OpenSize(m: Machine, d: string)
    requires Decoding(m) && !StepSize(m, d).Bad?
    ensures StepSize(Open(m), d) == Opened(StepSize(m, d))
  {
    hide Find, LineText, ChunkSize;
  }

  lemma OpenStep(m: Machine, d: string)
    requires Decoding(m) && d != "" && !StepChunk(m, d).Bad?
    ensures StepChunk(Open(m), d) == Opened(StepChunk(m, d))
  {
    hide StepData, StepTrailer, StepSize, Terminator;
    match m.p.chunk
    case Size => OpenSize(m, d);
    case Data => OpenData(m, d);
    case Trailers => OpenTrailer(m, d);
    case DataEnd =>
  }

  lemma {:induction false} OpenChunked(m: Machine, d: string)
    requires Decoding(m) && RunChunked(m, d).Stop?
    ensures RunChunked(Open(m), d) == Stop(Open(RunChunked(m, d).m), RunChunked(m, d).rest)
    decreases |d|
  {
    hide StepChunk;
    if d != "" && !m.r.state.Completed? {
      OpenStep(m, d);
      var s := StepChunk(m, d);
      if s.Eat? { OpenChunked(s.m, d[s.n..]); }
    }
  }

  lemma OpenAdvance(m: Machine, n: nat)
    requires n <= m.p.remaining && Valid(m) && !m.p.body.Chunked?
    ensures Advance(Open(m), n) == Open(Advance(m, n))
  {
  }

  lemma OpenLength(m: Machine, d: string)
    requires Valid(m) && !m.p.body.Chunked? && RunLength(m, d).Stop?
    ensures RunLength(Open(m), d) == Stop(Open(RunLength(m, d).m), RunLength(m, d).rest)
  {
    assert !TooLong(Open(m));
    hide Deliver, Advance, TooLong;
    var n := Min(m.p.remaining, |d|);
    if n > 0 {
      OpenDeliver(m, d[..n]);
      OpenAdvance(Deliver(m, d[..n]).m, n);
    } else {
      OpenAdvance(m, n);
    }
  }

  lemma OpenBody(m: Machine, d: string)
    requires Valid(m) && ParseBody(m, d).Stop?
    ensures ParseBody(Open(m), d) == Stop(Open(ParseBody(m, d).m), ParseBody(m, d).rest)
  {
    hide RunChunked, RunLength;
    var m1 := m.(r := m.r.(state := ProcessingBody));
    if m.r.state.Completed? || m.p.body.NoBody? {
    } else if m.p.body.Chunked? {
      OpenChunked(m1, d);
    } else {
      OpenLength(m1, d);
    }
  }

  lemma {:induction false} OpenDrive(m: Machine, pending: string, events: seq<Event>)
    requires Valid(m) && !Drive(InBody, m, pending, events).Refused?
    ensures Drive(InBody, Open(m), pending, events) ==
              var r := Drive(InBody, m, pending, events); r.(m := Open(r.m))
    decreases |events|, 1
  {
    hide ParseBody;
    if pending == "" {
      OpenRead(m, pending, events);
    } else {
      OpenBody(m, pending);
      var o := ParseBody(m, pending);
      if !Finished(InBody, o.m) { OpenRead(o.m, o.rest, events); }
    }
  }

  lemma {:induction false} OpenRead(m: Machine, pending: string, events: seq<Event>)
    requires Valid(m) && !ReadSome(InBody, m, pending, events).Refused?
    ensures ReadSome(InBody, Open(m), pending, events) ==
              var r := ReadSome(InBody, m, pending, events); r.(m := Open(r.m))
    decreases |events|, 0
  {
    hide ParseBody;
    if events != [] && events[0].Arrived? {
      var d := events[0].bytes;
      if d == "" {
        OpenDrive(m, pending, events[1..]);
      } else if pending != "" {
        OpenDrive(m, pending + d, events[1..]);
      } else {
        OpenBody(m, d);
        var o := ParseBody(m, d);
        if !Finished(InBody, o.m) { OpenDrive(o.m, o.rest, events[1..]); }
      }
    }
  }

  // ---------------------------------------------------------------- boundaries

  /** Until a read is refused, the rest of the message is where the grammar has it. */
  predicate OnTrack(m0: Machine, w0: string, t: Turn)
    requires Valid(m0)
  {
    Ready(InBody, t.m) &&
    (!t.refused ==> Same(ParseBody(Open(m0), w0), ParseBody(Open(t.m), Stream(t.pending, t.events))))
  }

  lemma ActOnTrack(m0: Machine, w0: string, t: Turn, a: Action)
    requires Valid(m0) && OnTrack(m0, w0, t)
    ensures OnTrack(m0, w0, Act(t, a))
  {
    hide RunChunked, RunLength, Drive;
    if a.ReadBody? && !t.m.r.state.Completed? {
      var r := Drive(InBody, t.m, t.pending, t.events);
      DriveSound(InBody, t.m, t.pending, t.events);
      if !r.Refused? && !t.refused {
        OpenDrive(t.m, t.pending, t.events);
        DriveSound(InBody, Open(t.m), t.pending, t.events);
      }
    } else if a.Register? {
      assert Open(Act(t, a).m) == Open(t.m);
    }
  }

  /** The keep-alive after `actions` when no read fails. */
  function KeepAfter(seconds: nat, actions: seq<Action>): nat
    decreases |actions|
  {
    if actions == [] then seconds
    else KeepAfter(if actions[0].SetKeepAlive? then actions[0].seconds else seconds, actions[1..])
  }

  /** The actions turn the keep-alive on when it was off. */
  predicate Raises(actions: seq<Action>) { KeepAfter(0, actions) > 0 }

  predicate HasRead(actions: seq<Action>) { exists i :: 0 <= i < |actions| && actions[i].ReadBody? }

  /** The handler reads, swallows the error, reads again, turns the keep-alive back on and
      returns normally. */
  predicate Risky(actions: seq<Action>)
    decreases |actions|
  {
    actions != [] && !actions[0].Throw? &&
    if actions[0].ReadBody? then
      actions[0].swallow && HasRead(actions[1..]) && Raises(actions[1..]) && Throw !in actions
    else Risky(actions[1..])
  }

  lemma {:induction false} HandleOnTrack(m0: Machine, w0: string, t: Turn, actions: seq<Action>)
    requires Valid(m0) && OnTrack(m0, w0, t)
    ensures OnTrack(m0, w0, Handle(t, actions))
    decreases |actions|
  {
    if actions != [] && !t.threw {
      ActOnTrack(m0, w0, t, actions[0]);
      HandleOnTrack(m0, w0, Act(t, actions[0]), actions[1..]);
    }
  }

  lemma {:induction false} KeepMonotone(seconds: nat, actions: seq<Action>)
    ensures Raises(actions) ==> KeepAfter(seconds, actions) > 0
    decreases |actions|
  {
    if actions != [] && !actions[0].SetKeepAlive? { KeepMonotone(seconds, actions[1..]); }
  }

  /** What a turn can still reach. */
  lemma {:induction false} Reachable(t: Turn, actions: seq<Action>)
    requires Valid(t.m) && !t.threw
    ensures var t' := Handle(t, actions); !t'.threw ==>
              && Throw !in actions
              && (t'.m.r.state.Completed? ==> t.m.r.state.Completed? || HasRead(actions))
              && (t'.keepAlive > 0 ==> KeepAfter(t.keepAlive, actions) > 0)
    decreases |actions|
  {
    if actions != [] {
      var t1 := Act(t, actions[0]);
      if !t1.threw { Reachable(t1, actions[1..]); }
      KeepMonotone(t.keepAlive, actions[1..]);
      ReadTail(actions);
    }
  }

  lemma ReadTail(actions: seq<Action>)
    requires actions != []
    ensures HasRead(actions) <==> actions[0].ReadBody? || HasRead(actions[1..])
  {
    assert forall i :: 0 < i < |actions| ==> actions[i] == actions[1..][i - 1];
    if HasRead(actions[1..]) {
      var i :| 0 <= i < |actions[1..]| && actions[1..][i].ReadBody?;
      assert actions[i + 1].ReadBody?;
    }
  }

  /** A handler which is not risky only keeps a connection alive on which no read was refused. */
  lemma {:induction false} NotRisky(t: Turn, actions: seq<Action>)
    requires Valid(t.m) && !t.refused && !t.threw && !Risky(actions)
    ensures var t' := Handle(t, actions);
            !t'.threw && t'.m.r.state.Completed? && t'.keepAlive > 0 ==> !t'.refused
    decreases |actions|
  {
    if actions != [] {
      var t1 := Act(t, actions[0]);
      if t1.threw {
      } else if actions[0].ReadBody? && !t.m.r.state.Completed? {
        Reachable(t1, actions[1..]);
        assert actions == [actions[0]] + actions[1..];
        if t1.m.r.state.Completed? { NeverRefused(t1, actions[1..]); }
      } else if t1.m.r.state.Completed? {
        NeverRefused(t1, actions[1..]);
      } else {
        NotRisky(t1, actions[1..]);
      }
    }
  }

  lemma {:induction false} NeverRefused(t: Turn, actions: seq<Action>)
    requires Valid(t.m) && t.m.r.state.Completed?
    ensures Handle(t, actions).refused == t.refused
    decreases |actions|
  {
    if actions != [] && !t.threw { NeverRefused(Act(t, actions[0]), actions[1..]); }
  }

  predicate BoundaryKept(c: Conn, h: Handler, timeout: nat)
    requires ValidConn(c)
  {
    var next := ServeRequest(c, h, timeout);
    next.Some? ==> MessageEnd(Unread(c)) == Some(Unread(next.value))
  }

  /** Whatever such a handler does, the next head is parsed exactly where the message ends. */
  lemma BoundaryExact(c: Conn, h: Handler, timeout: nat)
    requires ValidConn(c) && !Risky(h.actions)
    ensures BoundaryKept(c, h, timeout)
  {
    hide RunHead, RunChunked, RunLength, Drive, Handle, Risky;
    var m0 := Machine(c.p, FRESH_REQUEST);
    DriveSound(InHead, m0, c.pending, c.events);
    match Drive(InHead, m0, c.pending, c.events)
    case Accepted(m, pending, events) =>
      var t := Turn(m, pending, events, if m.r.keepAlive then timeout else 0, false, false);
      assert BeginRequest(m0) == BeginRequest(Machine(FRESH_PARSER, FRESH_REQUEST));
      HandleOnTrack(m, Stream(pending, events), t, h.actions);
      NotRisky(t, h.actions);
    case _ =>
  }

  // ---------------------------------------------------------------- why the condition is needed

  const BAD_LINE := "z\n"
  const LAST_CHUNK := "0\n\n"

  lemma {:induction false} CompletedTurn(t: Turn, actions: seq<Action>)
    requires Valid(t.m) && t.m.r.state.Completed? && !t.threw && Throw !in actions
    ensures Handle(t, actions) == t.(m := Handle(t, actions).m, keepAlive := KeepAfter(t.keepAlive, actions))
    ensures Handle(t, actions).m.r.state.Completed?
    decreases |actions|
  {
    if actions != [] { CompletedTurn(Act(t, actions[0]), actions[1..]); }
  }

  /** A decoder at a chunk-size line, with `events` still to come. */
  predicate AtSize(t: Turn, events: seq<Event>) {
    Decoding(t.m) && t.m.p.chunk.Size? && !t.m.r.state.Completed? && !t.threw && t.pending == "" && t.events == events
  }

  lemma SizeLines(m: Machine)
    requires Decoding(m) && m.p.chunk.Size? && !m.r.state.Completed?
    ensures ParseBody(m, BAD_LINE) == Rejected(m.(r := m.r.(state := ProcessingBody)), 400)
    ensures ParseBody(m, LAST_CHUNK).Stop? && ParseBody(m, LAST_CHUNK).rest == ""
    ensures ParseBody(m, LAST_CHUNK).m.r.state.Completed?
  {
    var m1 := m.(r := m.r.(state := ProcessingBody));
    assert LineText(BAD_LINE, 1) == "z";
    assert ChunkSize("z") == None;
    assert LAST_CHUNK[2..] == "\n" && LineText(LAST_CHUNK, 1) == "0" && LineText("\n", 0) == "";
    assert ChunkSize("0") == Some(0) by { assert "0"[..1] == "0" && "0"[1..] == "" && "0"[..0] == ""; }
    assert StepChunk(m1, BAD_LINE) == Bad(m1, 400);
    var m2 := m1.(p := m1.p.(remaining := 0, chunk := Trailers));
    assert StepChunk(m1, LAST_CHUNK) == Eat(m2, 2);
    assert StepChunk(m2, "\n") == Eat(m2.(r := m2.r.(state := Completed)), 1);
  }

  lemma SecondRead(t: Turn, swallow: bool)
    requires AtSize(t, [Arrived(LAST_CHUNK)])
    ensures var t' := Act(t, ReadBody(swallow));
            t' == t.(m := t'.m, pending := "", events := []) && t'.m.r.state.Completed?
  {
    hide Drive, ParseBody;
    SizeLines(t.m);
    FirstRead(InBody, t.m, t.events);
  }

  lemma FirstReadFails(t: Turn)
    requires AtSize(t, [Arrived(BAD_LINE), Arrived(LAST_CHUNK)])
    ensures AtSize(Act(t, ReadBody(true)), [Arrived(LAST_CHUNK)])
    ensures Act(t, ReadBody(true)).keepAlive == 0
  {
    hide Drive, ParseBody;
    SizeLines(t.m);
    FirstRead(InBody, t.m, t.events);
    assert t.events[1..] == [Arrived(LAST_CHUNK)];
  }

  lemma OtherAction(t: Turn, a: Action, events: seq<Event>)
    requires AtSize(t, events) && !a.ReadBody? && !a.Throw?
    ensures AtSize(Act(t, a), events)
    ensures Act(t, a).keepAlive == if a.SetKeepAlive? then a.seconds else t.keepAlive
  {
    hide Drive;
  }

  /** The second read completes the request in the middle of the message. */
  lemma {:induction false} CompletesEarly(t: Turn, actions: seq<Action>)
    requires AtSize(t, [Arrived(LAST_CHUNK)]) && HasRead(actions) && Throw !in actions
    ensures var t' := Handle(t, actions);
            && !t'.threw && t'.m.r.state.Completed? && Stream(t'.pending, t'.events) == ""
            && t'.keepAlive == KeepAfter(t.keepAlive, actions)
    decreases |actions|
  {
    hide Drive;
    var t1 := Act(t, actions[0]);
    if actions[0].ReadBody? {
      SecondRead(t, actions[0].swallow);
      CompletedTurn(t1, actions[1..]);
    } else {
      OtherAction(t, actions[0], [Arrived(LAST_CHUNK)]);
      ReadTail(actions);
      CompletesEarly(t1, actions[1..]);
    }
  }

  lemma {:induction false} RiskyTurn(t: Turn, actions: seq<Action>)
    requires AtSize(t, [Arrived(BAD_LINE), Arrived(LAST_CHUNK)]) && Risky(actions)
    ensures var t' := Handle(t, actions);
            !t'.threw && t'.m.r.state.Completed? && t'.keepAlive > 0 && Stream(t'.pending, t'.events) == ""
    decreases |actions|
  {
    hide Drive;
    var t1 := Act(t, actions[0]);
    if actions[0].ReadBody? {
      FirstReadFails(t);
      CompletesEarly(t1, actions[1..]);
    } else {
      OtherAction(t, actions[0], [Arrived(BAD_LINE), Arrived(LAST_CHUNK)]);
      RiskyTurn(t1, actions[1..]);
    }
  }

  lemma RiskyBreaksOn(h: Handler, timeout: nat, head: string, m: Machine) returns (c: Conn)
    requires Risky(h.actions) && h.resumedOk && head != ""
    requires ParseHead(Machine(FRESH_PARSER, FRESH_REQUEST), head) == Stop(m, "")
    requires Decoding(m) && m.p.chunk.Size? && m.r.state.HeadersCompleted?
    ensures ValidConn(c) && !BoundaryKept(c, h, timeout)
  {
    hide ParseHead, ParseBody, Drive, Handle, Risky, MessageEnd;
    var body := [Arrived(BAD_LINE), Arrived(LAST_CHUNK)];
    c := Conn(FRESH_PARSER, "", [Arrived(head)] + body);
    var m0 := Machine(FRESH_PARSER, FRESH_REQUEST);
    FirstRead(InHead, m0, c.events);
    assert c.events[1..] == body;
    RiskyTurn(Turn(m, "", body, if m.r.keepAlive then timeout else 0, false, false), h.actions);
    BadMessage(m0, head, m);
    assert body[1..] == [Arrived(LAST_CHUNK)] && Received([Arrived(LAST_CHUNK)]) == LAST_CHUNK + Received([]);
    assert Received(body) == BAD_LINE + LAST_CHUNK;
    assert Unread(c) == head + (BAD_LINE + LAST_CHUNK);
  }

  /** The connection on which a risky handler gets the server to parse a head from the
      middle of a message: the bad line was dropped, the rest taken for the whole body. */
  lemma RiskyBreaks(h: Handler, timeout: nat) returns (c: Conn)
    requires Risky(h.actions) && h.resumedOk
    ensures ValidConn(c) && !BoundaryKept(c, h, timeout)
  {
    hide HeadRoundTrip.RenderHead, ParseHead, Risky, BoundaryKept;
    var m := HeadRoundTrip.ChunkedRequest();
    c := RiskyBreaksOn(h, timeout, HeadRoundTrip.CHUNKED_HEAD, m);
  }

  lemma BadMessage(m0: Machine, head: string, m: Machine)
    requires m0 == Machine(FRESH_PARSER, FRESH_REQUEST) && ParseHead(m0, head) == Stop(m, "")
    requires Decoding(m) && m.p.chunk.Size? && m.r.state.HeadersCompleted?
    ensures MessageEnd(head + (BAD_LINE + LAST_CHUNK)) == None
  {
    var body := BAD_LINE + LAST_CHUNK;
    ParseSplit(InHead, m0, head, body);
    assert "" + body == body;
    SizeLines(Open(m));
    var m1 := Open(m).(r := Open(m).r.(state := ProcessingBody));
    StepAppend(m1, BAD_LINE, LAST_CHUNK);
    assert StepChunk(m1, BAD_LINE).Bad?;
    assert Find(BAD_LINE, '\n') == 1;
    FindAppend(BAD_LINE, LAST_CHUNK, '\n');
    assert StepChunk(m1, body).Bad?;
    hide RunHead, StepChunk;
    assert ParseBody(Open(m), body).Rejected?;
  }

  /** Exactly the handlers which are not risky keep the boundaries on every connection. */
  lemma BoundaryIff(h: Handler, timeout: nat)
    ensures (forall c :: ValidConn(c) ==> BoundaryKept(c, h, timeout)) <==> !(Risky(h.actions) && h.resumedOk)
  {
    if Risky(h.actions) && h.resumedOk {
      var c := RiskyBreaks(h, timeout);
    } else {
      forall c | ValidConn(c) ensures BoundaryKept(c, h, timeout) {
        if !Risky(h.actions) { BoundaryExact(c, h, timeout); }
      }
    }
  }

  // ---------------------------------------------------------------- whole connections

  /** The connection after the handlers have served one request each, if it gets that far. */
  function Serve(c: Conn, handlers: seq<Handler>, timeout: nat): (next: Option<Conn>)
    requires ValidConn(c)
    ensures next.Some? ==> ValidConn(next.value)
    decreases |handlers|
  {
    if handlers == [] then Some(c) else
    match ServeRequest(c, handlers[0], timeout)
    case None => None
    case Some(c') => Serve(c', handlers[1..], timeout)
  }

  /** What follows the first `n` messages of `w`. */
  function MessagesEnd(w: string, n: nat): (rest: Option<string>)
    decreases n
  {
    if n == 0 then Some(w) else
    match MessageEnd(w) case None => None case Some(rest) => MessagesEnd(rest, n - 1)
  }

  /** However many requests a connection has served, and however its bytes arrived, it is
      exactly that many messages into its stream. */
  lemma {:induction false} ConnectionBoundaries(c: Conn, handlers: seq<Handler>, timeout: nat)
    requires ValidConn(c) && forall i :: 0 <= i < |handlers| ==> !Risky(handlers[i].actions)
    ensures var next := Serve(c, handlers, timeout);
            next.Some? ==> MessagesEnd(Unread(c), |handlers|) == Some(Unread(next.value))
    decreases |handlers|
  {
    hide ServeRequest, MessageEnd, Risky;
    if handlers != [] {
      BoundaryExact(c, handlers[0], timeout);
      var next := ServeRequest(c, handlers[0], timeout);
      if next.Some? { ConnectionBoundaries(next.value, handlers[1..], timeout); }
    }
  }
}
