/** The requests of a connection, as its handlers make them. */
module IoLoop {
  import opened Wrappers
  import opened HttpMachine
  import opened Driver
  import C = Connection
  import R = Requests
  import BodyAccount
  import opened Bytes

  /** What a handler does which reads a body under a limit, or does not read it. */
  function ActionsOf(limit: Option<nat>): seq<C.Action> {
    if limit.Some? then [C.Register(limit.value), C.ReadBody(false)] else []
  }

  lemma ReadingHandler(t: C.Turn, limit: Option<nat>)
    requires Valid(t.m) && !t.threw
    ensures var m := R.WithLimit(t.m, limit);
            var t' := C.Handle(t, ActionsOf(limit));
            var r := Drive(InBody, m, t.pending, t.events);
            if R.Unread(m, limit) then t' == t.(m := m)
            else if r.Accepted? then t' == t.(m := r.m, pending := r.pending, events := r.events)
            else t'.threw
  {
    hide Drive;
    if limit.Some? {
      var actions := ActionsOf(limit);
      assert actions[1..] == [C.ReadBody(false)] && actions[1..][1..] == [];
      var t1 := C.Act(t, actions[0]);
      assert C.Handle(t, actions) == C.Handle(t1, actions[1..]) == C.Act(t1, C.ReadBody(false)) by { hide C.Act; }
    }
  }

  // ---------------------------------------------------------------- reading keeps the keep-alive

  lemma StepKeeps(m: Machine, d: string)
    requires Decoding(m) && d != ""
    ensures !StepChunk(m, d).Wait? ==> StepChunk(m, d).m.r.keepAlive == m.r.keepAlive
  {
    hide Find, LineText, ChunkSize, AllValue, Terminator;
  }

  lemma {:induction false} ChunkedKeeps(m: Machine, d: string)
    requires Decoding(m)
    ensures RunChunked(m, d).m.r.keepAlive == m.r.keepAlive
    decreases |d|
  {
    hide StepChunk;
    if d != "" && !m.r.state.Completed? {
      StepKeeps(m, d);
      var s := StepChunk(m, d);
      if s.Eat? { ChunkedKeeps(s.m, d[s.n..]); }
    }
  }

  lemma {:induction false} ParsesKeep(m: Machine, ds: seq<string>)
    requires Valid(m)
    ensures BodyAccount.Parses(m, ds).r.keepAlive == m.r.keepAlive
    decreases |ds|
  {
    hide RunChunked;
    if ds != [] {
      if m.p.body.Chunked? { ChunkedKeeps(m.(r := m.r.(state := ProcessingBody)), ds[0]); }
      ParsesKeep(ParseBody(m, ds[0]).m, ds[1..]);
    }
  }

  lemma DriveKeeps(m: Machine, pending: string, events: seq<Event>)
    requires Valid(m)
    ensures Drive(InBody, m, pending, events).m.r.keepAlive == m.r.keepAlive
  {
    var ds := BodyAccount.Calls(m, pending, events);
    BodyAccount.DriveParses(m, pending, events);
    ParsesKeep(m, ds);
  }

  // ---------------------------------------------------------------- policies

  lemma ServedOnce(policy: R.Policy, n: nat, m: Machine, limit: Option<nat>, pending: string, events: seq<Event>)
    requires Valid(m) && n > 0
    ensures var ts := R.ServedBody(policy, n, m, limit, pending, events);
            var r := Drive(InBody, m, pending, events);
            if R.Unread(m, limit) then ts == R.ServedNext(policy, n, m, pending, events)
            else if r.Accepted? then ts == R.ServedNext(policy, n, r.m, r.pending, r.events)
            else |ts| == 1
  {
    hide Drive, R.ServedNext;
  }

  lemma ServedThen(policy: R.Policy, n: nat, m: Machine, pending: string, events: seq<Event>)
    requires Valid(m) && n > 0
    ensures var ts := R.ServedNext(policy, n, m, pending, events);
            && |ts| > 0 && ts[0] == R.Answered(m.r)
            && ts[1..] == if m.r.state.Completed? && m.r.keepAlive
                          then R.Served(policy, n - 1, m.p, pending, events) else []
  {
    hide R.Served;
  }

  lemma ServedStart(policy: R.Policy, n: nat, c: C.Conn)
    requires C.ValidConn(c) && n > 0
    ensures var ts := R.Served(policy, n, c.p, c.pending, c.events);
            var r := Drive(InHead, Machine(c.p, FRESH_REQUEST), c.pending, c.events);
            if r.Accepted?
            then ts == R.ServedBody(policy, n, R.WithLimit(r.m, policy(r.m.r)), policy(r.m.r), r.pending, r.events)
            else |ts| == 1 && !ts[0].Answered?
  {
    hide Drive, R.ServedBody;
  }

  /** The requests a policy serves are those of handlers which follow it: one round of io_loop() with
      such a handler answers the next request, and if it goes on, what it goes on with is served. */
  lemma PolicyIsHandler(policy: R.Policy, n: nat, c: C.Conn, timeout: nat)
    requires C.ValidConn(c) && n > 0 && timeout > 0
    ensures var ts := R.Served(policy, n, c.p, c.pending, c.events);
            var r := Drive(InHead, Machine(c.p, FRESH_REQUEST), c.pending, c.events);
            if !r.Accepted? then |ts| == 1 && !ts[0].Answered?
            else
              var next := C.ServeRequest(c, C.Handler(ActionsOf(policy(r.m.r)), true), timeout);
              if next.None? then |ts| == 1
              else && |ts| > 0 && ts[0].Answered?
                   && ts[1..] == R.Served(policy, n - 1, next.value.p, next.value.pending, next.value.events)
  {
    hide Drive, C.Handle, R.Served, R.ServedBody, R.ServedNext, ActionsOf;
    ServedStart(policy, n, c);
    var head := Drive(InHead, Machine(c.p, FRESH_REQUEST), c.pending, c.events);
    if head.Accepted? {
      var m, pending, events, limit := head.m, head.pending, head.events, policy(head.m.r);
      var m1 := R.WithLimit(m, limit);
      ReadingHandler(C.Turn(m, pending, events, if m.r.keepAlive then timeout else 0, false, false), limit);
      ServedOnce(policy, n, m1, limit, pending, events);
      if R.Unread(m1, limit) {
        ServedThen(policy, n, m1, pending, events);
      } else {
        var r := Drive(InBody, m1, pending, events);
        DriveKeeps(m1, pending, events);
        if r.Accepted? { ServedThen(policy, n, r.m, r.pending, r.events); }
      }
    }
  }
}
