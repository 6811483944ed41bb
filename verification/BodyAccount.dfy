/** How much of a body is received and delivered over a whole request, whatever its handler does:
    reads which are refused or break off, errors which are swallowed, limits which change. */
module BodyAccount {
  import opened Wrappers
  import opened Bytes
  import opened HttpMachine
  import opened Fragmentation
  import opened Driver
  import opened Connection
  import opened Limits
  import opened ChunkGrammar
  import opened ChunkedCodec
  import HeadRoundTrip

  // ---------------------------------------------------------------- reads as calls of the parser

  /** The machine after calls of the parser, one after the other. */
  function Parses(m: Machine, ds: seq<string>): (m': Machine)
    requires Valid(m)
    ensures Valid(m')
    decreases |ds|
  {
    if ds == [] then m else Parses(ParseBody(m, ds[0]).m, ds[1..])
  }

  /** What a read calls the parser with, one call after the other. */
  function Calls(m: Machine, pending: string, events: seq<Event>): seq<string>
    requires Valid(m)
    decreases |events|, 1
  {
    if pending == "" then CallsOnRead(m, "", events) else
    var o := ParseBody(m, pending);
    [pending] + if o.Stop? && !Finished(InBody, o.m) then CallsOnRead(o.m, o.rest, events) else []
  }

  /** The same from the point where the loop reads from the socket. */
  function CallsOnRead(m: Machine, pending: string, events: seq<Event>): seq<string>
    requires Valid(m)
    decreases |events|, 0
  {
    if events == [] || events[0].Broke? then []
    else if events[0].bytes == "" then Calls(m, pending, events[1..])
    else if pending != "" then Calls(m, pending + events[0].bytes, events[1..])
    else
      var o := ParseBody(m, events[0].bytes);
      [events[0].bytes] + if o.Stop? && !Finished(InBody, o.m) then Calls(o.m, o.rest, events[1..]) else []
  }

  /** However a read ends, it is a list of calls of the parser. */
  lemma {:induction false} DriveParses(m: Machine, pending: string, events: seq<Event>)
    requires Valid(m)
    ensures Drive(InBody, m, pending, events).m == Parses(m, Calls(m, pending, events))
    decreases |events|, 1
  {
    hide ParseBody, ReadSome, CallsOnRead;
    if pending == "" {
      ReadParses(m, "", events);
    } else {
      var o := ParseBody(m, pending);
      ParsesFirst(m, pending, Calls(m, pending, events));
      if o.Stop? && !Finished(InBody, o.m) { ReadParses(o.m, o.rest, events); }
    }
  }

  lemma {:induction false} ReadParses(m: Machine, pending: string, events: seq<Event>)
    requires Valid(m)
    ensures ReadSome(InBody, m, pending, events).m == Parses(m, CallsOnRead(m, pending, events))
    decreases |events|, 0
  {
    hide ParseBody, Drive, Calls;
    if events != [] && events[0].Arrived? {
      var d := events[0].bytes;
      if d == "" {
        DriveParses(m, pending, events[1..]);
      } else if pending != "" {
        DriveParses(m, pending + d, events[1..]);
      } else {
        var o := ParseBody(m, d);
        ParsesFirst(m, d, CallsOnRead(m, pending, events));
        if o.Stop? && !Finished(InBody, o.m) { DriveParses(o.m, o.rest, events[1..]); }
      }
    }
  }

  lemma ParsesFirst(m: Machine, d: string, ds: seq<string>)
    requires Valid(m) && ds != [] && ds[0] == d
    ensures Parses(m, ds) == Parses(ParseBody(m, d).m, ds[1..])
  {
  }

  // ---------------------------------------------------------------- every run

  /** From `m` to `m'` only received bytes were delivered, in order, and none beyond the limit. */
  predicate Extends(m: Machine, m': Machine) {
    && m.r.delivered <= m'.r.delivered
    && |m'.r.delivered| - |m.r.delivered| <= m'.p.received - m.p.received
    && m'.r.maxBody == m.r.maxBody && m'.r.hasCallback == m.r.hasCallback
    && (m'.r.delivered == m.r.delivered || m.r.maxBody == 0 || |m'.r.delivered| <= m.r.maxBody)
  }

  predicate Delivers(m: Machine) { |m.r.delivered| <= m.p.received }

  lemma DeliverExtends(m: Machine, piece: string)
    requires Delivers(m)
    ensures Extends(m, Deliver(m, piece).m)
  {
  }

  lemma StepExtends(m: Machine, d: string)
    requires Decoding(m) && d != "" && Delivers(m)
    ensures !StepChunk(m, d).Wait? ==> Extends(m, StepChunk(m, d).m)
  {
    hide Find, LineText, ChunkSize, AllValue, Terminator, Deliver;
    if m.p.chunk.Data? { DeliverExtends(m, d[..Min(m.p.remaining, |d|)]); }
  }

  lemma {:induction false} ChunkedExtends(m: Machine, d: string)
    requires Decoding(m) && Delivers(m)
    ensures Extends(m, RunChunked(m, d).m)
    decreases |d|
  {
    hide StepChunk;
    if d != "" && !m.r.state.Completed? {
      StepExtends(m, d);
      var s := StepChunk(m, d);
      if s.Eat? { ChunkedExtends(s.m, d[s.n..]); }
    }
  }

  lemma LengthExtends(m: Machine, d: string)
    requires Valid(m) && !m.p.body.Chunked? && Delivers(m)
    ensures Extends(m, RunLength(m, d).m)
  {
    var n := Min(m.p.remaining, |d|);
    var s := if n > 0 then Deliver(m, d[..n]) else Ok(m);
    DeliverExtends(m, d[..n]);
    hide Deliver, TooLong, Advance, Extends;
    if !TooLong(m) && s.Ok? { AdvanceExtends(m, s.m, n); }
  }

  lemma AdvanceExtends(m: Machine, m1: Machine, n: nat)
    requires Valid(m1) && !m1.p.body.Chunked? && n <= m1.p.remaining
    ensures Extends(m, Advance(m1, n)) == Extends(m, m1)
  {
  }

  lemma ParseExtends(m: Machine, d: string)
    requires Valid(m) && Delivers(m)
    ensures Extends(m, ParseBody(m, d).m)
  {
    hide RunChunked, RunLength;
    var m1 := m.(r := m.r.(state := ProcessingBody));
    if m.p.body.Chunked? { ChunkedExtends(m1, d); } else { LengthExtends(m1, d); }
  }

  lemma {:induction false} ParsesExtend(m: Machine, ds: seq<string>)
    requires Valid(m) && Delivers(m)
    ensures Extends(m, Parses(m, ds))
    decreases |ds|
  {
    hide ParseBody;
    if ds != [] {
      ParseExtends(m, ds[0]);
      ParsesExtend(ParseBody(m, ds[0]).m, ds[1..]);
    }
  }

  /** What one action of a handler does to the account. */
  lemma ActExtends(t: Turn, a: Action)
    requires Valid(t.m) && Delivers(t.m)
    ensures Delivers(Act(t, a).m)
    ensures if a.Register? then Act(t, a).m.r.delivered == t.m.r.delivered else Extends(t.m, Act(t, a).m)
  {
    hide Drive;
    if a.ReadBody? {
      var ds := Calls(t.m, t.pending, t.events);
      DriveParses(t.m, t.pending, t.events);
      ParsesExtend(t.m, ds);
    }
  }

  lemma {:induction false} HandleReceived(t: Turn, actions: seq<Action>)
    requires Valid(t.m) && Delivers(t.m)
    ensures Delivers(Handle(t, actions).m)
    decreases |actions|
  {
    hide Act, Delivers;
    if actions != [] && !t.threw {
      ActExtends(t, actions[0]);
      HandleReceived(Act(t, actions[0]), actions[1..]);
    }
  }

  lemma {:induction false} HandleNext(t: Turn, actions: seq<Action>, k: nat)
    requires Valid(t.m) && k < |actions|
    ensures var t' := Handle(t, actions[..k]);
            Handle(t, actions[..k + 1]) == if t'.threw then t' else Act(t', actions[k])
    decreases k
  {
    hide Act;
    if k == 0 {
      assert actions[..1][1..] == [];
    } else if !t.threw {
      HandleNext(Act(t, actions[0]), actions[1..], k - 1);
      assert actions[..k][1..] == actions[1..][..k - 1] && actions[..k + 1][1..] == actions[1..][..k];
    }
  }

  /** In every run, refused and swallowed reads included, no more is delivered than was received, and
      no action delivers anything beyond the limit in force when it does. */
  lemma NeverOverLimit(t: Turn, actions: seq<Action>, k: nat)
    requires Valid(t.m) && Delivers(t.m) && k < |actions|
    ensures var m, m' := Handle(t, actions[..k]).m, Handle(t, actions[..k + 1]).m;
            && Delivers(m') && m.r.delivered <= m'.r.delivered
            && (m'.r.delivered == m.r.delivered || m.r.maxBody == 0 || |m'.r.delivered| <= m.r.maxBody)
  {
    HandleReceived(t, actions[..k]);
    HandleNext(t, actions, k);
    hide Handle, Act;
    ActExtends(Handle(t, actions[..k]), actions[k]);
  }

  // ---------------------------------------------------------------- the limit check

  /** The handler is called: the head is parsed and nothing of the body is read. */
  predicate AtBody(t: Turn) { Valid(t.m) && BodyStart(t.m) && !t.threw }

  /** The limit check of the next call of the parser subtracts more than there is. */
  predicate Wraps(m: Machine) {
    m.p.body.ContentLength? && !m.r.state.Completed? && m.r.maxBody != 0 && m.p.received > m.r.maxBody
  }

  /** The k-th action is a read which is reached. */
  predicate Reads(t: Turn, actions: seq<Action>, k: nat)
    requires Valid(t.m)
  {
    k < |actions| && actions[k].ReadBody? && !Handle(t, actions[..k]).threw
  }

  /** One of these calls is made in such a state: its check does subtract. */
  predicate SomeWraps(m: Machine, ds: seq<string>)
    requires Valid(m)
    decreases |ds|
  {
    ds != [] && (Wraps(m) || SomeWraps(ParseBody(m, ds[0]).m, ds[1..]))
  }

  /** So is one of the calls of a read. */
  predicate ReadWraps(t: Turn)
    requires Valid(t.m)
  {
    !t.m.r.state.Completed? && SomeWraps(t.m, Calls(t.m, t.pending, t.events))
  }

  /** The check of some call of the parser wraps around. */
  ghost predicate WrapsSomewhere(t: Turn, actions: seq<Action>)
    requires Valid(t.m)
  {
    exists k: nat :: Reads(t, actions, k) && ReadWraps(Handle(t, actions[..k]))
  }

  /** The limit the handler has registered before its k-th action. */
  function LimitAt(actions: seq<Action>, k: nat): Option<nat>
    requires k <= |actions|
  {
    if k == 0 then None
    else if actions[k - 1].Register? then Some(actions[k - 1].max)
    else LimitAt(actions, k - 1)
  }

  function LimitOf(m: Machine): Option<nat> { if m.r.hasCallback then Some(m.r.maxBody) else None }

  /** The handler can get to its k-th action without having read the whole body: it does not throw
      before, and swallows the errors of the reads before. */
  predicate Live(actions: seq<Action>, k: nat) {
    k <= |actions| && forall i :: 0 <= i < k ==> !actions[i].Throw? && (actions[i].ReadBody? ==> actions[i].swallow)
  }

  /** A read under this limit can receive `n` bytes of a body which has more. */
  predicate Admits(limit: Option<nat>, n: nat) { limit.None? || limit.value == 0 || n < limit.value }

  /** A handler which reads, swallows the error, registers a smaller limit and reads again. */
  predicate PronePair(actions: seq<Action>, i: nat, k: nat) {
    && i < k < |actions| && Live(actions, k) && actions[i].ReadBody? && actions[k].ReadBody?
    && LimitAt(actions, k).Some? && LimitAt(actions, k).value > 0
    && Admits(LimitAt(actions, i), LimitAt(actions, k).value + 1)
  }

  ghost predicate Prone(actions: seq<Action>) { exists i: nat, k: nat :: PronePair(actions, i, k) }

  // ---------------------------------------------------------------- handlers which do not wrap

  /** More of a body of known length is to come. */
  predicate MoreToCome(m: Machine) {
    m.p.body.ContentLength? && !m.r.state.Completed? && m.p.remaining > 0 && !m.p.chunk.Data?
  }

  /** What was read of it together with what is to come fits under the limit. */
  predicate Bounded(m: Machine, m': Machine) {
    && m'.r.hasCallback == m.r.hasCallback && m'.r.maxBody == m.r.maxBody
    && (!m'.r.state.Completed? ==>
          && MoreToCome(m')
          && ((m'.p.received == m.p.received && m'.p.remaining == m.p.remaining) ||
              m'.p.received + m'.p.remaining <= m.r.maxBody))
  }

  /** The limit is not exceeded yet, so its check is exact. */
  predicate Exact(m: Machine) { MoreToCome(m) && m.r.hasCallback && 0 < m.r.maxBody && m.p.received <= m.r.maxBody }

  lemma ParseBounded(m: Machine, d: string)
    requires Exact(m)
    ensures Bounded(m, ParseBody(m, d).m) && (ParseBody(m, d).m.r.state.Completed? || Exact(ParseBody(m, d).m))
  {
    hide RunLength, ParseBody;
    ParseIsLength(m, d);
    LengthStep(m.(r := m.r.(state := ProcessingBody)), d);
  }

  lemma ParseIsLength(m: Machine, d: string)
    requires MoreToCome(m)
    ensures ParseBody(m, d) == RunLength(m.(r := m.r.(state := ProcessingBody)), d)
  {
    hide RunLength;
  }

  /** Under an exact limit a call takes nothing or all it can. */
  lemma LengthStep(m: Machine, d: string)
    requires Exact(m)
    ensures var m', n := RunLength(m, d).m, Min(m.p.remaining, |d|);
            if m.p.received + m.p.remaining > m.r.maxBody then m' == m
            else
              && m'.p == m.p.(received := m.p.received + n, remaining := m.p.remaining - n)
              && m'.r.state == (if n == m.p.remaining then Completed else m.r.state)
              && m'.r.hasCallback && m'.r.maxBody == m.r.maxBody
  {
    hide Deliver, TooLong, RunChunked;
    ExactCheck(m);
    if m.p.received + m.p.remaining <= m.r.maxBody { Fitting(m, d[..Min(m.p.remaining, |d|)]); }
  }

  lemma ExactCheck(m: Machine)
    requires Exact(m)
    ensures TooLong(m) <==> m.p.received + m.p.remaining > m.r.maxBody
  {
  }

  lemma Fitting(m: Machine, piece: string)
    requires m.r.hasCallback && m.p.received + |piece| <= m.r.maxBody
    ensures Deliver(m, piece).Ok?
  {
  }

  lemma {:induction false} ParsesBounded(m: Machine, ds: seq<string>)
    requires Exact(m)
    ensures Bounded(m, Parses(m, ds))
    decreases |ds|
  {
    hide ParseBody;
    if ds != [] {
      ParseBounded(m, ds[0]);
      var m1 := ParseBody(m, ds[0]).m;
      if m1.r.state.Completed? { ParsesDone(m1, ds[1..]); } else { ParsesBounded(m1, ds[1..]); }
    }
  }

  lemma {:induction false} ParsesDone(m: Machine, ds: seq<string>)
    requires Valid(m) && m.r.state.Completed?
    ensures Parses(m, ds) == m
    decreases |ds|
  {
    if ds != [] { ParsesDone(m, ds[1..]); }
  }

  lemma ParseOpen(m: Machine, d: string)
    requires MoreToCome(m)
    ensures var m' := ParseBody(m, d).m;
            && m'.r.hasCallback == m.r.hasCallback && m'.r.maxBody == m.r.maxBody
            && (m'.r.state.Completed? || MoreToCome(m'))
  {
    hide Deliver, TooLong, ParseBody, RunChunked;
    ParseIsLength(m, d);
  }

  /** Whatever a read does, the limits stay, and more is to come or the request is complete. */
  lemma {:induction false} ParsesOpen(m: Machine, ds: seq<string>)
    requires MoreToCome(m)
    ensures var m' := Parses(m, ds);
            && m'.r.hasCallback == m.r.hasCallback && m'.r.maxBody == m.r.maxBody
            && (m'.r.state.Completed? || MoreToCome(m'))
    decreases |ds|
  {
    hide ParseBody;
    if ds != [] {
      ParseOpen(m, ds[0]);
      var m1 := ParseBody(m, ds[0]).m;
      if m1.r.state.Completed? { ParsesDone(m1, ds[1..]); } else { ParsesOpen(m1, ds[1..]); }
    }
  }

  /** How the bytes received so far came about. */
  ghost predicate Explained(m: Machine, actions: seq<Action>, k: nat) {
    && Live(actions, k) && MoreToCome(m) && LimitOf(m) == LimitAt(actions, k) && (m.r.hasCallback || m.r.maxBody == 0)
    && (m.p.received == 0 || exists i: nat :: Source(actions, i, k, m.p.received))
  }

  /** The i-th action is a read which may have left `n` bytes received. */
  predicate Source(actions: seq<Action>, i: nat, k: nat, n: nat) {
    i < k <= |actions| && actions[i].ReadBody? && Admits(LimitAt(actions, i), n)
  }

  lemma NotYet(m: Machine, actions: seq<Action>, k: nat)
    requires k < |actions| && actions[k].ReadBody? && Explained(m, actions, k) && !Prone(actions)
    ensures m.r.maxBody == 0 || m.p.received <= m.r.maxBody
  {
    if m.r.maxBody != 0 && m.p.received > m.r.maxBody {
      var i: nat :| Source(actions, i, k, m.p.received);
      assert PronePair(actions, i, k);
    }
  }

  lemma ReadExplained(t: Turn, actions: seq<Action>, k: nat)
    requires Valid(t.m) && k < |actions| && actions[k].ReadBody? && Explained(t.m, actions, k) && !Prone(actions)
    ensures var t' := Act(t, actions[k]); t'.threw || t'.m.r.state.Completed? || Explained(t'.m, actions, k + 1)
  {
    hide Drive, Parses;
    var ds := Calls(t.m, t.pending, t.events);
    DriveParses(t.m, t.pending, t.events);
    NotYet(t.m, actions, k);
    ParsesOpen(t.m, ds);
    if t.m.r.maxBody != 0 { ParsesBounded(t.m, ds); }
    var m' := Parses(t.m, ds);
    if m'.p.received != 0 && !m'.r.state.Completed? {
      if m'.p.received == t.m.p.received {
        var i: nat :| Source(actions, i, k, m'.p.received);
        assert Source(actions, i, k + 1, m'.p.received);
      } else {
        assert Source(actions, k, k + 1, m'.p.received);
      }
    }
  }

  lemma OtherExplained(t: Turn, actions: seq<Action>, k: nat)
    requires Valid(t.m) && k < |actions| && !actions[k].ReadBody? && Explained(t.m, actions, k)
    ensures var t' := Act(t, actions[k]); t'.threw || Explained(t'.m, actions, k + 1)
  {
    if t.m.p.received != 0 {
      var i: nat :| Source(actions, i, k, t.m.p.received);
      assert Source(actions, i, k + 1, t.m.p.received);
    }
  }

  lemma {:induction false} HandleExplained(t: Turn, actions: seq<Action>, k: nat)
    requires AtBody(t) && t.m.p.body.ContentLength? && k <= |actions| && !Prone(actions)
    ensures var t' := Handle(t, actions[..k]);
            t'.threw || t'.m.r.state.Completed? || Explained(t'.m, actions, k)
    decreases k
  {
    if k > 0 {
      HandleExplained(t, actions, k - 1);
      HandleNext(t, actions, k - 1);
      var t' := Handle(t, actions[..k - 1]);
      hide Handle, Explained, Drive, Prone;
      if !t'.threw {
        if t'.m.r.state.Completed? {
        } else if actions[k - 1].ReadBody? {
          ReadExplained(t', actions, k - 1);
        } else {
          OtherExplained(t', actions, k - 1);
        }
      }
    }
  }

  lemma {:induction false} DoneNeverWraps(m: Machine, ds: seq<string>)
    requires Valid(m) && m.r.state.Completed?
    ensures !SomeWraps(m, ds)
    decreases |ds|
  {
    if ds != [] { DoneNeverWraps(m, ds[1..]); }
  }

  /** An exact check stays exact, call after call. */
  lemma {:induction false} ExactNeverWraps(m: Machine, ds: seq<string>)
    requires Exact(m)
    ensures !SomeWraps(m, ds)
    decreases |ds|
  {
    hide ParseBody;
    if ds != [] {
      ParseBounded(m, ds[0]);
      var m1 := ParseBody(m, ds[0]).m;
      if m1.r.state.Completed? { DoneNeverWraps(m1, ds[1..]); } else { ExactNeverWraps(m1, ds[1..]); }
    }
  }

  /** Nor does a call without a limit, or one for another kind of body. */
  lemma {:induction false} UncheckedNeverWraps(m: Machine, ds: seq<string>)
    requires Valid(m) && (m.r.maxBody == 0 || !m.p.body.ContentLength?)
    ensures !SomeWraps(m, ds)
    decreases |ds|
  {
    hide ParseBody;
    if ds != [] {
      ParseKeepsBody(m, ds[0]);
      ParseLimit(m, ds[0]);
      UncheckedNeverWraps(ParseBody(m, ds[0]).m, ds[1..]);
    }
  }

  /** The other handlers never see the subtraction wrap, in any call on any connection. */
  lemma NeverWraps(t: Turn, actions: seq<Action>)
    requires AtBody(t) && !Prone(actions)
    ensures !WrapsSomewhere(t, actions)
  {
    hide Handle, SomeWraps, Prone;
    forall k: nat | Reads(t, actions, k) ensures !ReadWraps(Handle(t, actions[..k])) {
      var t' := Handle(t, actions[..k]);
      var ds := Calls(t'.m, t'.pending, t'.events);
      HandleBody(t, actions[..k]);
      if !t'.m.r.state.Completed? {
        if t.m.p.body.ContentLength? { HandleExplained(t, actions, k); NotYet(t'.m, actions, k); }
        if t'.m.r.maxBody == 0 || !t.m.p.body.ContentLength? {
          UncheckedNeverWraps(t'.m, ds);
        } else {
          ExactNeverWraps(t'.m, ds);
        }
      }
    }
  }

  lemma {:induction false} HandleBody(t: Turn, actions: seq<Action>)
    requires Valid(t.m)
    ensures Handle(t, actions).m.p.body == t.m.p.body
    decreases |actions|
  {
    hide Drive;
    if actions != [] && !t.threw {
      var ds := Calls(t.m, t.pending, t.events);
      DriveParses(t.m, t.pending, t.events);
      ParsesBody(t.m, ds);
      HandleBody(Act(t, actions[0]), actions[1..]);
    }
  }

  lemma {:induction false} ParsesBody(m: Machine, ds: seq<string>)
    requires Valid(m)
    ensures Parses(m, ds).p.body == m.p.body
    decreases |ds|
  {
    hide ParseBody;
    if ds != [] {
      ParseKeepsBody(m, ds[0]);
      ParsesBody(ParseBody(m, ds[0]).m, ds[1..]);
    }
  }

  // ---------------------------------------------------------------- handlers which do

  /** The connection breaks at every read from the j-th action on, before the i-th. */
  function Breaks(actions: seq<Action>, j: nat, i: nat): seq<Event>
    requires j <= i <= |actions|
    decreases i - j
  {
    if j == i then [] else (if actions[j].ReadBody? then [Broke] else []) + Breaks(actions, j + 1, i)
  }

  /** The same machine under another limit. */
  function Limited(m: Machine, limit: Option<nat>): Machine {
    m.(r := m.r.(hasCallback := limit.Some?, maxBody := if limit.Some? then limit.value else 0))
  }

  /** A read of a broken or dead connection changes nothing. */
  lemma NothingRead(m: Machine, events: seq<Event>)
    requires Valid(m) && (events == [] || events[0].Broke?)
    ensures Drive(InBody, m, "", events) == Failed(m, "", if events == [] then [] else events[1..])
  {
  }

  predicate Waiting(t: Turn) { Valid(t.m) && !t.m.r.state.Completed? && !t.threw && t.pending == "" }

  lemma QuietStep(t: Turn, a: Action)
    requires Waiting(t) && !a.Throw? && (a.ReadBody? ==> a.swallow && (t.events == [] || t.events[0].Broke?))
    ensures var t' := Act(t, a);
            && Waiting(t')
            && t'.events == (if a.ReadBody? && t.events != [] then t.events[1..] else t.events)
            && t'.m == if a.Register? then Limited(t.m, Some(a.max)) else t.m
  {
    hide Drive;
    if a.ReadBody? { NothingRead(t.m, t.events); }
  }

  /** From its j-th to its i-th action the handler only changes the limit. */
  lemma {:induction false} Quiet(t: Turn, actions: seq<Action>, j: nat, i: nat, rest: seq<Event>)
    requires Valid(t.m) && j <= i <= |actions| && Live(actions, i)
    requires var t1 := Handle(t, actions[..j]);
             && Waiting(t1) && t1.events == Breaks(actions, j, i) + rest
             && t1.m == Limited(t1.m, LimitAt(actions, j))
    ensures var t' := Handle(t, actions[..i]);
            Waiting(t') && t'.events == rest && t'.m == Limited(Handle(t, actions[..j]).m, LimitAt(actions, i))
    decreases i - j
  {
    hide Handle, Act;
    if j < i {
      HandleNext(t, actions, j);
      var t1, a := Handle(t, actions[..j]), actions[j];
      var more := Breaks(actions, j + 1, i) + rest;
      assert t1.events == (if a.ReadBody? then [Broke] else []) + more;
      hide Breaks;
      QuietStep(t1, a);
      Quiet(t, actions, j + 1, i, rest);
    } else {
      assert Breaks(actions, j, i) + rest == rest;
    }
  }

  /** As it does once the connection is dead. */
  lemma {:induction false} DeadQuiet(t: Turn, actions: seq<Action>, i: nat, k: nat)
    requires Valid(t.m) && i < k <= |actions| && Live(actions, k)
    requires var t1 := Handle(t, actions[..i + 1]);
             Waiting(t1) && t1.events == [] && t1.m == Limited(t1.m, LimitAt(actions, i + 1))
    ensures var t' := Handle(t, actions[..k]);
            Waiting(t') && t'.events == [] && t'.m == Limited(Handle(t, actions[..i + 1]).m, LimitAt(actions, k))
    decreases k
  {
    hide Handle, Act;
    if k > i + 1 {
      DeadQuiet(t, actions, i, k - 1);
      HandleNext(t, actions, k - 1);
      QuietStep(Handle(t, actions[..k - 1]), actions[k - 1]);
    }
  }

  /** A read of some bytes of a body which has more. Without a callback it is refused, with one it
      waits for more until the connection breaks. */
  lemma PartRead(m: Machine, data: string, rest: seq<Event>)
    requires MoreToCome(m) && m.p.received == 0 && 0 < |data| < m.p.remaining
    requires LimitOf(m).None? ==> m.r.maxBody == 0
    requires LimitOf(m).Some? && m.r.maxBody != 0 ==> m.p.remaining <= m.r.maxBody
    requires m.r.hasCallback && rest != [] ==> rest[0].Broke?
    ensures var r := Drive(InBody, m, "", [Arrived(data)] + rest);
            && !r.Accepted? && r.pending == ""
            && r.events == (if m.r.hasCallback && rest != [] then rest[1..] else rest)
            && MoreToCome(r.m) && r.m.p.received == |data| && r.m == Limited(r.m, LimitOf(m))
            && r.m.r.delivered == m.r.delivered + (if m.r.hasCallback then data else "")
  {
    var o := ParseBody(m, data);
    assert ([Arrived(data)] + rest)[1..] == rest;
    assert data[..|data|] == data && data[|data|..] == "";
    assert m.r.hasCallback ==> o.Stop? && o.rest == "";
    assert o.m.p.received == |data| && MoreToCome(o.m) && o.m == Limited(o.m, LimitOf(m));
    hide ParseBody, Drive, ReadSome;
    FirstRead(InBody, m, [Arrived(data)] + rest);
    if o.Stop? { NothingRead(o.m, rest); }
  }

  /** The i-th action reads all but one byte of a body of two bytes more than the later limit, all
      other reads before the k-th break off, and the k-th gets the last byte. */
  function WrappingEvents(actions: seq<Action>, i: nat, k: nat): seq<Event>
    requires PronePair(actions, i, k)
  {
    Breaks(actions, 0, i) + ([Arrived(seq(LimitAt(actions, k).value + 1, _ => 'x'))] + AfterRead(actions, i, k))
  }

  function AfterRead(actions: seq<Action>, i: nat, k: nat): seq<Event>
    requires i < k <= |actions|
  {
    (if LimitAt(actions, i).Some? then [Broke] else []) + LastByte(actions, i, k)
  }

  function LastByte(actions: seq<Action>, i: nat, k: nat): seq<Event>
    requires i < k <= |actions|
  {
    Breaks(actions, i + 1, k) + [Arrived("x")]
  }

  /** The i-th read leaves a body of which one byte more than the later limit is read. */
  lemma FirstPart(t: Turn, actions: seq<Action>, i: nat, k: nat)
    requires AtBody(t) && PronePair(actions, i, k) && t.m.p.body.ContentLength?
    requires t.m.p.remaining == LimitAt(actions, k).value + 2 && t.pending == ""
    requires t.events == WrappingEvents(actions, i, k)
    ensures var t1 := Handle(t, actions[..i + 1]);
            && Waiting(t1) && t1.events == LastByte(actions, i, k)
            && MoreToCome(t1.m) && t1.m.p.received == LimitAt(actions, k).value + 1
            && t1.m == Limited(t1.m, LimitAt(actions, i + 1))
  {
    var data := seq(LimitAt(actions, k).value + 1, _ => 'x');
    var rest := AfterRead(actions, i, k);
    Quiet(t, actions, 0, i, [Arrived(data)] + rest);
    HandleNext(t, actions, i);
    hide Handle, Drive, Breaks;
    PartRead(Handle(t, actions[..i]).m, data, rest);
  }

  /** For the other handlers there is a body on which it does. */
  lemma WrapsFor(t: Turn, actions: seq<Action>, i: nat, k: nat)
    requires AtBody(t) && PronePair(actions, i, k) && t.m.p.body.ContentLength?
    requires t.m.p.remaining == LimitAt(actions, k).value + 2 && t.pending == ""
    requires t.events == WrappingEvents(actions, i, k)
    ensures WrapsSomewhere(t, actions)
  {
    FirstPart(t, actions, i, k);
    hide Handle, WrappingEvents, Breaks;
    Quiet(t, actions, i + 1, k, [Arrived("x")]);
    assert Calls(Handle(t, actions[..k]).m, "", [Arrived("x")])[0] == "x";
    assert Reads(t, actions, k) && ReadWraps(Handle(t, actions[..k]));
  }

  /** Every handler is called with such a turn. */
  lemma HandlerStarts(c: Conn, m: Machine, pending: string, events: seq<Event>, keepAlive: nat)
    requires ValidConn(c)
    requires Drive(InHead, Machine(c.p, FRESH_REQUEST), c.pending, c.events) == Accepted(m, pending, events)
    ensures AtBody(Turn(m, pending, events, keepAlive, false, false))
  {
    var m0 := Machine(c.p, FRESH_REQUEST);
    var w := Stream(c.pending, c.events);
    hide Drive, RunHead;
    DriveSound(InHead, m0, c.pending, c.events);
    RunHeadState(BeginRequest(m0), w);
    HeadStart(BeginRequest(m0), w);
  }

  /** A body of `n` bytes whose head has just been parsed. */
  function LengthTurn(n: nat, events: seq<Event>): Turn {
    Turn(Machine(FRESH_PARSER.(head := Done, body := ContentLength, remaining := n, contentLength := n),
                 FRESH_REQUEST.(state := HeadersCompleted)), "", events, 0, false, false)
  }

  /** The subtraction of the limit check wraps around on some connection exactly for the handlers
      which read, swallow the error, and read again under a non-zero limit which is smaller than what
      the first read may have received. */
  lemma WrapIff(actions: seq<Action>)
    ensures (exists t :: AtBody(t) && WrapsSomewhere(t, actions)) <==> Prone(actions)
  {
    if Prone(actions) {
      var i: nat, k: nat :| PronePair(actions, i, k);
      var max := LimitAt(actions, k).value;
      var t := LengthTurn(max + 2, WrappingEvents(actions, i, k));
      WrapsFor(t, actions, i, k);
    } else {
      forall t | AtBody(t) ensures !WrapsSomewhere(t, actions) { NeverWraps(t, actions); }
    }
  }

  /** The connection on which it does: a request with a body of two bytes more than the later limit. */
  lemma WrapsOnConnection(actions: seq<Action>, i: nat, k: nat) returns (c: Conn, t: Turn)
    requires PronePair(actions, i, k) && LimitAt(actions, k).value + 2 < CHUNKED_DATA
    ensures ValidConn(c)
    ensures Drive(InHead, Machine(c.p, FRESH_REQUEST), c.pending, c.events) == Accepted(t.m, t.pending, t.events)
    ensures AtBody(t) && WrapsSomewhere(t, actions)
  {
    var max := LimitAt(actions, k).value;
    var data := WrappingEvents(actions, i, k);
    var head := HeadRoundTrip.LengthHead(max + 2);
    var m := HeadRoundTrip.LengthRequest(FRESH_PARSER, max + 2);
    c := Conn(FRESH_PARSER, "", [Arrived(head)] + data);
    t := Turn(m, "", data, 0, false, false);
    assert c.events[1..] == data;
    hide HeadRoundTrip.LengthHead, ParseHead, Drive, WrappingEvents, PronePair, WrapsSomewhere, LimitAt;
    FirstRead(InHead, Machine(FRESH_PARSER, FRESH_REQUEST), c.events);
    HandlerStarts(c, m, "", data, 0);
    WrapsFor(t, actions, i, k);
  }

  /** Two such handlers: one reads before it registers a callback, the other lowers its limit. */
  lemma ShortestProne()
    ensures PronePair([ReadBody(true), Register(3), ReadBody(true)], 0, 2)
    ensures PronePair([Register(100), ReadBody(true), Register(3), ReadBody(true)], 1, 3)
  {
    var late := [ReadBody(true), Register(3), ReadBody(true)];
    var lower := [Register(100), ReadBody(true), Register(3), ReadBody(true)];
    assert LimitAt(late, 2) == Some(3) && LimitAt(late, 0) == None;
    assert LimitAt(lower, 3) == Some(3) && LimitAt(lower, 1) == Some(100);
  }

  /** A check which wraps lets a body through which is over the limit. */
  lemma WrappedCheckPasses(m: Machine)
    requires Wraps(m) && m.p.received + m.p.remaining <= CHUNKED_DATA
    ensures !TooLong(m) && m.p.received + m.p.remaining > m.r.maxBody
  {
  }

  // ---------------------------------------------------------------- the account

  /** Every read which is reached finds the account balanced. */
  ghost predicate AccountKept(t: Turn, actions: seq<Action>)
    requires Valid(t.m)
  {
    forall k: nat :: Reads(t, actions, k) && !Handle(t, actions[..k]).m.r.state.Completed? ==>
      Accounted(Handle(t, actions[..k]).m)
  }

  /** A handler which reads, swallows the error and reads again, one of the two without a callback or
      under a limit. */
  predicate UnbalancedPair(actions: seq<Action>, i: nat, k: nat) {
    && i < k < |actions| && Live(actions, k) && actions[i].ReadBody? && actions[k].ReadBody?
    && !(LimitAt(actions, i) == Some(0) && LimitAt(actions, k) == Some(0))
  }

  ghost predicate Unbalanced(actions: seq<Action>) { exists i: nat, k: nat :: UnbalancedPair(actions, i, k) }

  /** What was received was delivered, and is missing from what is to come. */
  predicate Sums(m: Machine) {
    && m.p.received == |m.r.delivered|
    && (m.p.body.ContentLength? ==> m.p.received + m.p.remaining == m.p.contentLength)
  }

  predicate Unlimited(m: Machine) { m.r.hasCallback && m.r.maxBody == 0 }

  lemma StepSums(m: Machine, d: string)
    requires Decoding(m) && d != "" && Unlimited(m) && Sums(m)
    ensures !StepChunk(m, d).Wait? ==> Unlimited(StepChunk(m, d).m) && Sums(StepChunk(m, d).m)
  {
    hide Find, LineText, ChunkSize, AllValue, Terminator;
  }

  lemma {:induction false} ChunkedSums(m: Machine, d: string)
    requires Decoding(m) && Unlimited(m) && Sums(m)
    ensures Unlimited(RunChunked(m, d).m) && Sums(RunChunked(m, d).m)
    decreases |d|
  {
    hide StepChunk;
    if d != "" && !m.r.state.Completed? {
      StepSums(m, d);
      var s := StepChunk(m, d);
      if s.Eat? { ChunkedSums(s.m, d[s.n..]); }
    }
  }

  lemma ParseSums(m: Machine, d: string)
    requires Valid(m) && Unlimited(m) && Sums(m)
    ensures Unlimited(ParseBody(m, d).m) && Sums(ParseBody(m, d).m)
  {
    hide RunChunked, RunLength;
    var m1 := m.(r := m.r.(state := ProcessingBody));
    if m.p.body.Chunked? { ChunkedSums(m1, d); } else { LengthSums(m1, d); }
  }

  lemma LengthSums(m: Machine, d: string)
    requires Valid(m) && !m.p.body.Chunked? && Unlimited(m) && Sums(m)
    ensures Unlimited(RunLength(m, d).m) && Sums(RunLength(m, d).m)
  {
    var n := Min(m.p.remaining, |d|);
    assert !TooLong(m);
    if n > 0 { assert Deliver(m, d[..n]).Ok? && |Deliver(m, d[..n]).m.r.delivered| == |m.r.delivered| + n; }
    hide Deliver, TooLong;
  }

  lemma {:induction false} ParsesSum(m: Machine, ds: seq<string>)
    requires Valid(m) && Unlimited(m) && Sums(m)
    ensures Unlimited(Parses(m, ds)) && Sums(Parses(m, ds))
    decreases |ds|
  {
    hide ParseBody;
    if ds != [] {
      ParseSums(m, ds[0]);
      ParsesSum(ParseBody(m, ds[0]).m, ds[1..]);
    }
  }

  predicate ReadBefore(actions: seq<Action>, k: nat)
    requires k <= |actions|
  {
    exists i :: 0 <= i < k && actions[i].ReadBody?
  }

  predicate OddRead(actions: seq<Action>, i: nat, k: nat) {
    i < k <= |actions| && actions[i].ReadBody? && LimitAt(actions, i) != Some(0)
  }

  /** The sums hold, as long as all reads had a callback and no limit. */
  ghost predicate Summed(m: Machine, actions: seq<Action>, k: nat) {
    && Live(actions, k) && LimitOf(m) == LimitAt(actions, k) && (m.r.hasCallback || m.r.maxBody == 0)
    && (!ReadBefore(actions, k) ==> m.p.received == 0)
    && (Sums(m) || exists i: nat :: OddRead(actions, i, k))
  }

  lemma ActSummed(t: Turn, actions: seq<Action>, k: nat)
    requires Valid(t.m) && !t.m.r.state.Completed? && k < |actions| && Summed(t.m, actions, k)
    ensures var t' := Act(t, actions[k]); t'.threw || t'.m.r.state.Completed? || Summed(t'.m, actions, k + 1)
  {
    hide Drive, Parses;
    if actions[k].ReadBody? {
      var ds := Calls(t.m, t.pending, t.events);
      DriveParses(t.m, t.pending, t.events);
      ParsesLimit(t.m, ds);
      assert ReadBefore(actions, k + 1);
      if LimitAt(actions, k) != Some(0) {
        assert OddRead(actions, k, k + 1);
      } else if Sums(t.m) {
        ParsesSum(t.m, ds);
      } else {
        var i: nat :| OddRead(actions, i, k);
        assert OddRead(actions, i, k + 1);
      }
    } else {
      if !Sums(t.m) {
        var i: nat :| OddRead(actions, i, k);
        assert OddRead(actions, i, k + 1);
      }
      if ReadBefore(actions, k) {
        var i :| 0 <= i < k && actions[i].ReadBody?;
        assert ReadBefore(actions, k + 1);
      }
    }
  }

  lemma {:induction false} ParsesLimit(m: Machine, ds: seq<string>)
    requires Valid(m)
    ensures LimitOf(Parses(m, ds)) == LimitOf(m) && Parses(m, ds).r.maxBody == m.r.maxBody
    decreases |ds|
  {
    hide ParseBody;
    if ds != [] {
      ParseLimit(m, ds[0]);
      ParsesLimit(ParseBody(m, ds[0]).m, ds[1..]);
    }
  }

  lemma ParseLimit(m: Machine, d: string)
    requires Valid(m)
    ensures LimitOf(ParseBody(m, d).m) == LimitOf(m) && ParseBody(m, d).m.r.maxBody == m.r.maxBody
  {
    hide RunChunked;
    if m.p.body.Chunked? { ChunkedLimit(m.(r := m.r.(state := ProcessingBody)), d); }
  }

  lemma {:induction false} ChunkedLimit(m: Machine, d: string)
    requires Decoding(m)
    ensures LimitOf(RunChunked(m, d).m) == LimitOf(m) && RunChunked(m, d).m.r.maxBody == m.r.maxBody
    decreases |d|
  {
    if d != "" && !m.r.state.Completed? {
      StepLimit(m, d);
      hide StepChunk;
      var s := StepChunk(m, d);
      if s.Eat? { ChunkedLimit(s.m, d[s.n..]); }
    }
  }

  lemma StepLimit(m: Machine, d: string)
    requires Decoding(m) && d != ""
    ensures !StepChunk(m, d).Wait? ==>
              LimitOf(StepChunk(m, d).m) == LimitOf(m) && StepChunk(m, d).m.r.maxBody == m.r.maxBody
  {
    hide Find, LineText, ChunkSize, AllValue, Terminator;
  }

  lemma {:induction false} HandleSummed(t: Turn, actions: seq<Action>, k: nat)
    requires AtBody(t) && k <= |actions|
    ensures var t' := Handle(t, actions[..k]);
            t'.threw || t'.m.r.state.Completed? || Summed(t'.m, actions, k)
    decreases k
  {
    if k > 0 {
      HandleSummed(t, actions, k - 1);
      HandleNext(t, actions, k - 1);
      var t' := Handle(t, actions[..k - 1]);
      hide Handle, Summed, Drive;
      if !t'.threw && !t'.m.r.state.Completed? { ActSummed(t', actions, k - 1); }
    }
  }

  lemma SummedIsAccounted(m: Machine, actions: seq<Action>, k: nat)
    requires k < |actions| && actions[k].ReadBody? && Summed(m, actions, k) && !m.r.state.Completed?
    ensures Accounted(m) || Unbalanced(actions)
  {
    if !Sums(m) {
      var i: nat :| OddRead(actions, i, k);
      assert UnbalancedPair(actions, i, k);
    } else if m.r.maxBody != 0 && ReadBefore(actions, k) {
      var i: nat :| 0 <= i < k && actions[i].ReadBody?;
      assert UnbalancedPair(actions, i, k);
    }
  }

  lemma Balanced(t: Turn, actions: seq<Action>)
    requires AtBody(t) && !Unbalanced(actions)
    ensures AccountKept(t, actions)
  {
    forall k: nat | Reads(t, actions, k) && !Handle(t, actions[..k]).m.r.state.Completed?
      ensures Accounted(Handle(t, actions[..k]).m)
    {
      HandleSummed(t, actions, k);
      hide Handle, Summed, Unbalanced;
      SummedIsAccounted(Handle(t, actions[..k]).m, actions, k);
    }
  }

  // ---------------------------------------------------------------- handlers which lose it

  /** `n` chunks of one byte. */
  function Bytewise(n: nat): seq<string> { seq(n, _ => "x") }

  lemma {:induction false} BytewiseLength(n: nat)
    ensures |Flatten(Bytewise(n))| == n
  {
    if n > 0 {
      assert Bytewise(n)[1..] == Bytewise(n - 1);
      BytewiseLength(n - 1);
    }
  }

  /** One byte more than the limit: it is counted, but not delivered. */
  lemma OverLimit(m: Machine)
    requires Idle(m) && m.r.hasCallback && m.r.maxBody != 0 && m.p.received == |m.r.delivered| == m.r.maxBody
    ensures var o := RunChunked(m, Frame("x"));
            && o.Rejected? && o.m.p.received == |o.m.r.delivered| + 1 && LimitOf(o.m) == LimitOf(m)
            && o.m.r.state.ProcessingBody?
  {
    var data := "x" + "\r\n";
    GoodSizeLine(1);
    assert Frame("x") == SizeText(SizeLineOf(1)) + ("\r\n" + data);
    SizeStep(m, SizeLineOf(1), 1, data);
    var m1 := WithSize(m, 1);
    assert data[..1] == "x";
    assert StepChunk(m1, data).Bad? && StepChunk(m1, data).m == m1.(p := m1.p.(received := m1.p.received + 1));
    hide StepChunk, LongLine, SizeText, Frame, GoodSize;
    OneStep(m, SizeText(SizeLineOf(1)) + ("\r\n" + data), m1, |SizeText(SizeLineOf(1))| + 2);
  }

  lemma OverLimitRead(m: Machine)
    requires Decoding(m) && m.p.chunk.Size? && m.r.state.HeadersCompleted? && m.p.received == 0 && m.r.delivered == ""
    requires m.r.hasCallback && m.r.maxBody != 0
    ensures var r := Drive(InBody, m, "", [Arrived(Frames(Bytewise(m.r.maxBody)) + Frame("x"))]);
            && r.Refused? && r.pending == "" && r.events == []
            && r.m.p.received == |r.m.r.delivered| + 1 && LimitOf(r.m) == LimitOf(m)
            && r.m.r.state.ProcessingBody?
  {
    var m1 := m.(r := m.r.(state := ProcessingBody));
    var pieces := Bytewise(m.r.maxBody);
    var data := Frames(pieces) + Frame("x");
    BytewiseLength(m.r.maxBody);
    assert Sized(pieces);
    assert Frame("x") != "";
    assert [Arrived(data)][1..] == [];
    hide RunChunked, Frames, Frame, Drive, Parse, ShortLines, Short, GoodChunks, ShortChunks, ChunksOf,
         ChunksBytes, Bytewise;
    ParsesChunks(m, data);
    FramesAreChunks(pieces, Frame("x"));
    ChunksDecode(m1, ChunksOf(pieces), Frame("x"));
    OverLimit(AfterAll(m1, ChunksOf(pieces)));
    FirstRead(InBody, m, [Arrived(data)]);
  }

  /** A chunked body whose head has just been parsed. */
  function ChunkedTurn(events: seq<Event>): Turn {
    Turn(Machine(FRESH_PARSER.(head := Done, body := Chunked, chunked := true),
                 FRESH_REQUEST.(state := HeadersCompleted)), "", events, 0, false, false)
  }

  lemma LosesCount(t: Turn, actions: seq<Action>, i: nat, k: nat)
    requires Valid(t.m) && i < k < |actions| && Live(actions, k) && actions[k].ReadBody?
    requires var t1 := Handle(t, actions[..i + 1]);
             && Waiting(t1) && t1.events == [] && t1.m == Limited(t1.m, LimitAt(actions, i + 1))
             && !Accounted(Limited(t1.m, LimitAt(actions, k)))
    ensures !AccountKept(t, actions)
  {
    hide Handle;
    DeadQuiet(t, actions, i, k);
    assert Reads(t, actions, k);
  }

  lemma LosesLength(actions: seq<Action>, i: nat, k: nat, n: nat)
    requires UnbalancedPair(actions, i, k) && n > 0
    requires LimitAt(actions, i).Some? ==> LimitAt(actions, i).value == 0 && LimitAt(actions, k) == Some(n - 1)
    ensures var t := LengthTurn(n + 1, Breaks(actions, 0, i) + [Arrived(seq(n, _ => 'x'))]);
            AtBody(t) && !AccountKept(t, actions)
  {
    var data := seq(n, _ => 'x');
    var t := LengthTurn(n + 1, Breaks(actions, 0, i) + [Arrived(data)]);
    Quiet(t, actions, 0, i, [Arrived(data)]);
    HandleNext(t, actions, i);
    assert [Arrived(data)] + [] == [Arrived(data)];
    PartRead(Handle(t, actions[..i]).m, data, []);
    hide Handle, Drive;
    LosesCount(t, actions, i, k);
  }

  lemma LosesChunks(actions: seq<Action>, i: nat, k: nat)
    requires UnbalancedPair(actions, i, k) && LimitAt(actions, i).Some? && LimitAt(actions, i).value > 0
    ensures var max := LimitAt(actions, i).value;
            var t := ChunkedTurn(Breaks(actions, 0, i) + [Arrived(Frames(Bytewise(max)) + Frame("x"))]);
            AtBody(t) && !AccountKept(t, actions)
  {
    var data := Frames(Bytewise(LimitAt(actions, i).value)) + Frame("x");
    var t := ChunkedTurn(Breaks(actions, 0, i) + [Arrived(data)]);
    Quiet(t, actions, 0, i, [Arrived(data)]);
    HandleNext(t, actions, i);
    OverLimitRead(Handle(t, actions[..i]).m);
    hide Handle, Drive, Frames, Frame;
    LosesCount(t, actions, i, k);
  }

  /** Exactly the handlers which read once, or always with a callback and without a limit, find the
      account balanced at every read, on every connection: what was received was delivered, within
      the limit, and is missing from the announced length. */
  lemma BalanceIff(actions: seq<Action>)
    ensures (forall t :: AtBody(t) ==> AccountKept(t, actions)) <==> !Unbalanced(actions)
  {
    if Unbalanced(actions) {
      var i: nat, k: nat :| UnbalancedPair(actions, i, k);
      var limit := LimitAt(actions, i);
      if limit.None? {
        LosesLength(actions, i, k, 1);
      } else if limit.value == 0 {
        KeepsCallback(actions, i, k);
        LosesLength(actions, i, k, LimitAt(actions, k).value + 1);
      } else {
        LosesChunks(actions, i, k);
      }
    } else {
      forall t | AtBody(t) ensures AccountKept(t, actions) { Balanced(t, actions); }
    }
  }

  /** A callback which is registered stays. */
  lemma {:induction false} KeepsCallback(actions: seq<Action>, i: nat, k: nat)
    requires i <= k <= |actions| && LimitAt(actions, i).Some?
    ensures LimitAt(actions, k).Some?
    decreases k
  {
    if i < k { KeepsCallback(actions, i, k - 1); }
  }
}
