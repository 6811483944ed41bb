/** basic_http_session: the loops which read requests from the socket. */
module HttpSession {
  import opened Wrappers
  import opened HttpMachine
  import opened Driver
  import opened HttpParser
  import opened Connection

  datatype Ending = Complete | Threw(status: nat) | IoError

  class Session {
    const parser: HttpRequestParser
    var pending: string
    var events: seq<Event>
    var keepAlive: nat

    constructor (socket: seq<Event>)
      ensures fresh(parser) && parser.View() == FRESH_PARSER && pending == "" && events == socket && keepAlive == 0
    {
      parser := new HttpRequestParser();
      pending := "";
      events := socket;
      keepAlive := 0;
    }

    /** The socket's next event; without one the connection is dead. */
    method NextEvent() returns (data: Option<string>)
      modifies this`events
      ensures data == if old(events) != [] && old(events)[0].Arrived? then Some(old(events)[0].bytes) else None
      ensures events == if old(events) == [] then [] else old(events)[1..]
    {
      if events == [] {
        return None;
      }
      data := if events[0].Arrived? then Some(events[0].bytes) else None;
      events := events[1..];
    }

    /** One call of the parser; `rest` is what it did not consume. */
    method Feed(ph: Phase, data: string, req: HttpRequest) returns (error: Option<nat>, rest: string)
      requires Valid(parser.Mach(req))
      modifies parser, req
      ensures var o := Parse(ph, old(parser.Mach(req)), data);
              if error.Some? then o.Rejected? && (ph.InBody? ==> o.m == parser.Mach(req))
              else o == Stop(parser.Mach(req), rest)
    {
      hide HttpMachine.ParseHead, HttpMachine.ParseBody;
      var n;
      if ph.InHead? {
        error, n := parser.ParseHead(data, req);
      } else {
        error, n := parser.ParseBody(data, req);
      }
      rest := data[n..];
    }

    /** The first half of the loop: parse what is pending. */
    method FeedPending(ph: Phase, req: HttpRequest) returns (error: Option<nat>)
      requires Valid(parser.Mach(req))
      modifies this`pending, parser, req
      ensures events == old(events)
      ensures var r := Drive(ph, old(parser.Mach(req)), old(pending), events);
              if error.Some? then r == Refused(r.m, pending, events) && (ph.InBody? ==> r.m == parser.Mach(req))
              else if old(pending) != "" && Finished(ph, parser.Mach(req))
              then r == Accepted(parser.Mach(req), pending, events)
              else Valid(parser.Mach(req)) && r == ReadSome(ph, parser.Mach(req), pending, events)
    {
      hide Parse;
      error := None;
      if pending != "" {
        var rest;
        error, rest := Feed(ph, pending, req);
        if error.None? {
          pending := rest;
        }
      }
    }

    /** The second half: parse or keep what the socket has. Without an ending the loop goes on. */
    method FeedSocket(ph: Phase, req: HttpRequest) returns (ending: Option<Ending>)
      requires Valid(parser.Mach(req))
      modifies this`pending, this`events, parser, req
      ensures var r := ReadSome(ph, old(parser.Mach(req)), old(pending), old(events));
              if ending.Some? then Ends(ending.value, ph, parser.Mach(req), pending, events, r)
              else && Valid(parser.Mach(req)) && |events| < |old(events)|
                   && r == Drive(ph, parser.Mach(req), pending, events)
    {
      hide Parse, Drive, Valid;
      var data := NextEvent();
      if data.None? {
        return Some(IoError);
      }
      if data.value != "" {
        if pending == "" {
          var error, rest := Feed(ph, data.value, req);
          if error.Some? {
            return Some(Threw(error.value));
          }
          pending := rest;
          if Finished(ph, parser.Mach(req)) {
            return Some(Complete);
          }
        } else {
          pending := pending + data.value;
        }
      }
      return None;
    }

    /** One round of the loop. */
    method ReadRound(ph: Phase, req: HttpRequest) returns (ending: Option<Ending>)
      requires Valid(parser.Mach(req))
      modifies this`pending, this`events, parser, req
      ensures var r := Drive(ph, old(parser.Mach(req)), old(pending), old(events));
              if ending.Some? then Ends(ending.value, ph, parser.Mach(req), pending, events, r)
              else && Valid(parser.Mach(req)) && |events| < |old(events)|
                   && r == Drive(ph, parser.Mach(req), pending, events)
    {
      hide Parse, Drive, ReadSome, Valid;
      var wasPending := pending != "";
      var error := FeedPending(ph, req);
      if error.Some? {
        return Some(Threw(error.value));
      }
      if wasPending && Finished(ph, parser.Mach(req)) {
        return Some(Complete);
      }
      ending := FeedSocket(ph, req);
    }

    /** The loop of read_headers() and read(): feeds the parser from the pending bytes and the
        socket until it has what it waits for. */
    method ReadLoop(ph: Phase, req: HttpRequest) returns (ending: Ending)
      requires Valid(parser.Mach(req))
      modifies this`pending, this`events, parser, req
      ensures Ends(ending, ph, parser.Mach(req), pending, events,
                   Drive(ph, old(parser.Mach(req)), old(pending), old(events)))
    {
      hide Drive, Valid, Ends;
      ghost var r := Drive(ph, parser.Mach(req), pending, events);
      while true
        invariant Valid(parser.Mach(req)) && Drive(ph, parser.Mach(req), pending, events) == r
        decreases |events|
      {
        var end := ReadRound(ph, req);
        if end.Some? {
          return end.value;
        }
      }
    }

    /** Reads until the head of the next request is complete. */
    method ReadHeaders() returns (req: HttpRequest, ending: Ending)
      requires Valid(Machine(parser.View(), FRESH_REQUEST))
      modifies this`pending, this`events, parser
      ensures fresh(req)
      ensures Ends(ending, InHead, parser.Mach(req), pending, events,
                   Drive(InHead, Machine(old(parser.View()), FRESH_REQUEST), old(pending), old(events)))
    {
      req := new HttpRequest();
      ending := ReadLoop(InHead, req);
    }

    /** Reads the rest of the request. Whatever goes wrong, the connection is not reused. */
    method Read(req: HttpRequest) returns (ending: Ending)
      requires Valid(parser.Mach(req))
      modifies this`pending, this`events, this`keepAlive, parser, req
      ensures old(req.state).Completed? ==>
                ending.Complete? && unchanged(this) && unchanged(parser) && unchanged(req)
      ensures !old(req.state).Completed? ==>
                Ends(ending, InBody, parser.Mach(req), pending, events,
                     Drive(InBody, old(parser.Mach(req)), old(pending), old(events)))
      ensures keepAlive == if ending.Complete? then old(keepAlive) else 0
    {
      if req.state.Completed? {
        return Complete;
      }
      ending := ReadLoop(InBody, req);
      if !ending.Complete? {
        keepAlive := 0;
      }
    }

    /** The session and the request are as in the turn `t`. */
    ghost predicate At(req: HttpRequest, t: Turn)
      reads this, parser, req
    {
      parser.Mach(req) == t.m && pending == t.pending && events == t.events && keepAlive == t.keepAlive
    }

    /** One action of a handler. */
    method Perform(req: HttpRequest, a: Action, ghost t: Turn) returns (threw: bool)
      requires Valid(t.m) && !t.threw && At(req, t)
      modifies this`pending, this`events, this`keepAlive, parser, req
      ensures At(req, Act(t, a)) && threw == Act(t, a).threw
    {
      threw := false;
      match a
      case Register(max) =>
        req.hasCallback, req.maxBody := true, max;
      case SetKeepAlive(seconds) =>
        keepAlive := seconds;
      case Throw =>
        threw := true;
      case ReadBody(swallow) =>
        hide Drive;
        var ending := Read(req);
        threw := !ending.Complete? && !swallow;
    }

    /** A handler, up to its end or to the error which ends it. */
    method RunHandler(req: HttpRequest, actions: seq<Action>, ghost t: Turn) returns (threw: bool)
      requires Valid(t.m) && !t.threw && At(req, t)
      modifies this`pending, this`events, this`keepAlive, parser, req
      ensures At(req, Handle(t, actions)) && threw == Handle(t, actions).threw
    {
      hide Act, Valid;
      ghost var now := t;
      assert actions[0..] == actions;
      for i := 0 to |actions|
        invariant Valid(now.m) && !now.threw && At(req, now) && Handle(now, actions[i..]) == Handle(t, actions)
      {
        threw := Perform(req, actions[i], now);
        now := Act(now, actions[i]);
        assert actions[i..][1..] == actions[i + 1..];
        if threw {
          return;
        }
      }
      return false;
    }

    /** One round of io_loop(): whether it goes on to the next request. */
    method ServeOne(h: Handler, timeout: nat) returns (next: bool)
      requires Valid(Machine(parser.View(), FRESH_REQUEST))
      modifies this`pending, this`events, this`keepAlive, parser
      ensures var c := ServeRequest(Conn(old(parser.View()), old(pending), old(events)), h, timeout);
              next == c.Some? && (next ==> c.value == Conn(parser.View(), pending, events))
    {
      hide Drive, Handle;
      var req, ending := ReadHeaders();
      if !ending.Complete? {
        return false;
      }
      keepAlive := if req.keepAlive then timeout else 0;
      ghost var t := Turn(parser.Mach(req), pending, events, keepAlive, false, false);
      var threw := RunHandler(req, h.actions, t);
      if threw {
        return false;
      }
      if !req.state.Completed? {
        keepAlive := 0;
      }
      next := h.resumedOk && keepAlive != 0;
    }

    /** io_loop(), with a handler for each request: whether it gets through all of them. */
    method IoLoop(handlers: seq<Handler>, timeout: nat) returns (all: bool)
      requires Valid(Machine(parser.View(), FRESH_REQUEST))
      modifies this`pending, this`events, this`keepAlive, parser
      ensures var c := Serve(Conn(old(parser.View()), old(pending), old(events)), handlers, timeout);
              all == c.Some? && (all ==> c.value == Conn(parser.View(), pending, events))
    {
      hide ServeRequest, Valid;
      ghost var end := Serve(Conn(parser.View(), pending, events), handlers, timeout);
      assert handlers[0..] == handlers;
      for i := 0 to |handlers|
        invariant Valid(Machine(parser.View(), FRESH_REQUEST))
        invariant Serve(Conn(parser.View(), pending, events), handlers[i..], timeout) == end
      {
        assert handlers[i..][1..] == handlers[i + 1..];
        var next := ServeOne(handlers[i], timeout);
        if !next {
          return false;
        }
      }
      return true;
    }
  }

  /** How a loop which gives the result `r` ends, and what it leaves. */
  predicate Ends(ending: Ending, ph: Phase, m: Machine, pending: string, events: seq<Event>, r: Result) {
    && pending == r.pending && events == r.events
    && ((ending.Threw? && ph.InHead?) || m == r.m)
    && match ending
       case Complete => r.Accepted?
       case IoError => r.Failed?
       case Threw(_) => r.Refused?
  }
}
