/** The requests a connection serves, as a function of nothing but its bytes.

    `Served` is the driver with its pending buffer, fast path, re-parsing and yields;
    `ServedWhole` parses one complete byte string with a single call per phase. */
module Requests {
  import opened Wrappers
  import opened Bytes
  import opened HttpMachine
  import opened Fragmentation
  import opened Driver

  /** How the handler of a request reads its body: not at all, or with a limit (0: none). */
  type Policy = Request -> Option<nat>

  datatype Turnout =
    | Answered(r: Request)  // with everything that was read of it
    | Refusal               // an error response was thrown
    | Waiting               // the bytes ran out

  function WithLimit(m: Machine, limit: Option<nat>): (m': Machine)
    requires Valid(m)
    ensures Valid(m')
  {
    match limit
    case None => m
    case Some(max) => m.(r := m.r.(hasCallback := true, maxBody := max))
  }

  predicate Unread(m: Machine, limit: Option<nat>) { limit.None? || m.r.state.Completed? }

  /** The first `n` turns of the connection. */
  function Served(policy: Policy, n: nat, p: Parser, pending: string, events: seq<Event>): (ts: seq<Turnout>)
    requires Valid(Machine(p, FRESH_REQUEST))
    decreases n, 2
  {
    if n == 0 then [] else
    match Drive(InHead, Machine(p, FRESH_REQUEST), pending, events)
    case Refused(_, _, _) => [Refusal]
    case Failed(_, _, _) => [Waiting]
    case Accepted(m, pending', events') =>
      ServedBody(policy, n, WithLimit(m, policy(m.r)), policy(m.r), pending', events')
  }

  function ServedBody(policy: Policy, n: nat, m: Machine, limit: Option<nat>, pending: string, events: seq<Event>)
    : (ts: seq<Turnout>)
    requires Valid(m) && n > 0
    decreases n, 1
  {
    if Unread(m, limit) then ServedNext(policy, n, m, pending, events) else
    match Drive(InBody, m, pending, events)
    case Refused(_, _, _) => [Refusal]
    case Failed(_, _, _) => [Waiting]
    case Accepted(m', pending', events') => ServedNext(policy, n, m', pending', events')
  }

  function ServedNext(policy: Policy, n: nat, m: Machine, pending: string, events: seq<Event>): (ts: seq<Turnout>)
    requires Valid(m) && n > 0
    decreases n, 0
  {
    [Answered(m.r)] +
    if m.r.state.Completed? && m.r.keepAlive then Served(policy, n - 1, m.p, pending, events) else []
  }

  function ServedWhole(policy: Policy, n: nat, w: string): (ts: seq<Turnout>)
    decreases n, 2
  {
    if n == 0 then [] else
    match Parse(InHead, Machine(FRESH_PARSER, FRESH_REQUEST), w)
    case Rejected(_, _) => [Refusal]
    case Stop(m, rest) =>
      if !Finished(InHead, m) then [Waiting]
      else WholeBody(policy, n, WithLimit(m, policy(m.r)), policy(m.r), rest)
  }

  function WholeBody(policy: Policy, n: nat, m: Machine, limit: Option<nat>, w: string): (ts: seq<Turnout>)
    requires Valid(m) && n > 0
    decreases n, 1
  {
    if Unread(m, limit) then WholeNext(policy, n, m, w)
    else if w == "" then [Waiting]
    else match Parse(InBody, m, w)
      case Rejected(_, _) => [Refusal]
      case Stop(m', rest) => if !Finished(InBody, m') then [Waiting] else WholeNext(policy, n, m', rest)
  }

  function WholeNext(policy: Policy, n: nat, m: Machine, w: string): (ts: seq<Turnout>)
    requires Valid(m) && n > 0
    decreases n, 0
  {
    [Answered(m.r)] + if m.r.state.Completed? && m.r.keepAlive then ServedWhole(policy, n - 1, w) else []
  }

  /** Every body which is read and not rejected has short chunk-size and trailer lines. */
  predicate ShortBodies(policy: Policy, n: nat, w: string)
    decreases n, 2
  {
    n == 0 ||
    match Parse(InHead, Machine(FRESH_PARSER, FRESH_REQUEST), w)
    case Rejected(_, _) => true
    case Stop(m, rest) =>
      Finished(InHead, m) ==> ShortFrom(policy, n, WithLimit(m, policy(m.r)), policy(m.r), rest)
  }

  predicate ShortFrom(policy: Policy, n: nat, m: Machine, limit: Option<nat>, w: string)
    requires Valid(m) && n > 0
    decreases n, 1
  {
    if Unread(m, limit) then ShortNext(policy, n, m, w) else
    match Parse(InBody, m, w)
    case Rejected(_, _) => true
    case Stop(m', rest) => Short(InBody, m, w) && (Finished(InBody, m') ==> ShortNext(policy, n, m', rest))
  }

  predicate ShortNext(policy: Policy, n: nat, m: Machine, w: string)
    requires Valid(m) && n > 0
    decreases n, 0
  {
    m.r.state.Completed? && m.r.keepAlive ==> ShortBodies(policy, n - 1, w)
  }

  /** What the loop does is what one parser call does with all the bytes. */
  lemma DriveIsParse(ph: Phase, m: Machine, pending: string, events: seq<Event>)
    requires Ready(ph, m) && !Finished(ph, m) && Unbroken(events)
    requires Short(ph, m, Stream(pending, events)) || Parse(ph, m, Stream(pending, events)).Rejected?
    ensures var w, r := Stream(pending, events), Drive(ph, m, pending, events);
            && Unbroken(r.events)
            && (w == "" ==> r.Failed?)
            && (w != "" ==> match Parse(ph, m, w)
                  case Rejected(_, _) => r.Refused?
                  case Stop(m', rest) =>
                    if Finished(ph, m') then r.Accepted? && r.m == m' && Stream(r.pending, r.events) == rest
                    else r.Failed?)
  {
    hide Parse, ShortBody, Drive;
    var w, r := Stream(pending, events), Drive(ph, m, pending, events);
    DriveUnbroken(ph, m, pending, events);
    DriveSound(ph, m, pending, events);
    DriveComplete(ph, m, pending, events);
    if w == "" { NothingArrives(ph, m, pending, events); }
    if r.Failed? { assert Stream(r.pending, r.events) == r.pending; }
  }

  lemma AnyParser(p: Parser, w: string)
    requires Valid(Machine(p, FRESH_REQUEST))
    ensures Parse(InHead, Machine(p, FRESH_REQUEST), w) == Parse(InHead, Machine(FRESH_PARSER, FRESH_REQUEST), w)
  {
    hide RunHead;
  }

  lemma EmptyHead(m: Machine)
    requires Valid(m) && m.r == FRESH_REQUEST
    ensures Parse(InHead, m, "").Stop? && !Finished(InHead, Parse(InHead, m, "").m)
  {
  }

  lemma HeadIsParse(p: Parser, pending: string, events: seq<Event>)
    requires Valid(Machine(p, FRESH_REQUEST)) && Unbroken(events)
    ensures var r := Drive(InHead, Machine(p, FRESH_REQUEST), pending, events);
            && Unbroken(r.events)
            && match Parse(InHead, Machine(FRESH_PARSER, FRESH_REQUEST), Stream(pending, events))
               case Rejected(_, _) => r.Refused?
               case Stop(m, rest) =>
                 if Finished(InHead, m)
                 then r.Accepted? && r.m == m && Stream(r.pending, r.events) == rest && !m.r.state.Uninitialized?
                 else r.Failed?
  {
    var m0, w := Machine(p, FRESH_REQUEST), Stream(pending, events);
    AnyParser(p, w);
    EmptyHead(m0);
    HeadResult(m0, w);
    hide Parse, Drive, ShortBody;
    DriveIsParse(InHead, m0, pending, events);
  }

  /** The driver answers the same requests, with the same bodies, and refuses or waits at the
      same place, as a parser which is handed all bytes of the connection at once. */
  lemma {:induction false} ServedIsWhole(policy: Policy, n: nat, p: Parser, pending: string, events: seq<Event>)
    requires Valid(Machine(p, FRESH_REQUEST)) && Unbroken(events)
    requires ShortBodies(policy, n, Stream(pending, events))
    ensures Served(policy, n, p, pending, events) == ServedWhole(policy, n, Stream(pending, events))
    decreases n, 2
  {
    hide Parse, Drive, ServedBody, WholeBody, ShortFrom, Stream, Unbroken;
    if n > 0 {
      HeadIsParse(p, pending, events);
      var r := Drive(InHead, Machine(p, FRESH_REQUEST), pending, events);
      if r.Accepted? {
        BodyIsWhole(policy, n, WithLimit(r.m, policy(r.m.r)), policy(r.m.r), r.pending, r.events);
      }
    }
  }

  lemma {:induction false} BodyIsWhole(policy: Policy, n: nat, m: Machine, limit: Option<nat>,
                                       pending: string, events: seq<Event>)
    requires Ready(InBody, m) && Unbroken(events) && n > 0
    requires ShortFrom(policy, n, m, limit, Stream(pending, events))
    ensures ServedBody(policy, n, m, limit, pending, events) == WholeBody(policy, n, m, limit, Stream(pending, events))
    decreases n, 1
  {
    hide Parse, Drive, ShortBody, ServedNext, WholeNext, ShortNext;
    if Unread(m, limit) {
      NextIsWhole(policy, n, m, pending, events);
    } else {
      DriveIsParse(InBody, m, pending, events);
      var r := Drive(InBody, m, pending, events);
      if r.Accepted? { NextIsWhole(policy, n, r.m, r.pending, r.events); }
    }
  }

  lemma {:induction false} NextIsWhole(policy: Policy, n: nat, m: Machine, pending: string, events: seq<Event>)
    requires Valid(m) && Unbroken(events) && n > 0 && ShortNext(policy, n, m, Stream(pending, events))
    ensures ServedNext(policy, n, m, pending, events) == WholeNext(policy, n, m, Stream(pending, events))
    decreases n, 0
  {
    if m.r.state.Completed? && m.r.keepAlive {
      hide Served, ServedWhole, ShortBodies;
      ServedIsWhole(policy, n - 1, m.p, pending, events);
    }
  }

  lemma HeadResult(m: Machine, w: string)
    requires Ready(InHead, m)
    ensures Parse(InHead, m, w).Stop? ==> !Parse(InHead, m, w).m.r.state.Uninitialized?
  {
    hide HeadLine, Find, LineText;
    RunHeadState(if m.r.state.Uninitialized? then BeginRequest(m) else m, w);
  }

  /** Two connections with the same bytes serve the same requests, however the bytes were cut
      into reads on either of them. */
  lemma SameRequests(policy: Policy, n: nat, p: Parser, a: seq<Event>, b: seq<Event>)
    requires Valid(Machine(p, FRESH_REQUEST)) && Unbroken(a) && Unbroken(b)
    requires Received(a) == Received(b) && ShortBodies(policy, n, Received(a))
    ensures Served(policy, n, p, "", a) == Served(policy, n, p, "", b)
  {
    assert Stream("", a) == Received(a) && Stream("", b) == Received(b);
    ServedIsWhole(policy, n, p, "", a);
    ServedIsWhole(policy, n, p, "", b);
  }
}
