/** Bounds and conservation laws of every parser call: what it may leave unconsumed, what it
    may accept, and how the body arithmetic adds up over a whole run of the driver. */
module Limits {
  import opened Bytes
  import opened HttpMachine
  import opened Driver
  import Fragmentation

  /** `rest` is the end of `data`. */
  predicate Suffix(rest: string, data: string) { |rest| <= |data| && rest == data[|data| - |rest|..] }

  lemma SuffixStep(rest: string, data: string, n: nat)
    requires n <= |data| && Suffix(rest, data[n..])
    ensures Suffix(rest, data)
  {
  }

  // ---------------------------------------------------------------- head

  /** Every consumed byte of the head is counted, a head which is waiting for more has at
      most 8192 bytes with what it has not consumed, and so has an accepted one. */
  lemma {:induction false} HeadBounds(m: Machine, d: string)
    requires RunHead(m, d).Stop? && m.p.headers <= MAX_HEADERS_COUNT
    requires m.p.head.Done? ==> m.p.headSeen <= MAX_HEAD_SIZE
    ensures var m', rest := RunHead(m, d).m, RunHead(m, d).rest;
            && Suffix(rest, d)
            && m'.p.headSeen + |rest| == m.p.headSeen + |d|
            && m'.p.headers <= MAX_HEADERS_COUNT
            && (if m'.p.head.Done? then m'.p.headSeen <= MAX_HEAD_SIZE
                else m'.p.headSeen + |rest| <= MAX_HEAD_SIZE && '\n' !in rest)
    decreases |d|
  {
    hide Find, LineText, HeadLine;
    var lf := Find(d, '\n');
    if !m.p.head.Done? && lf < |d| {
      var text := LineText(d, lf);
      LineBounds(m, text, lf + 1);
      var s := HeadLine(m, text, lf + 1);
      HeadBounds(s.m, d[lf + 1..]);
      SuffixStep(RunHead(m, d).rest, d, lf + 1);
    }
  }

  lemma LineBounds(m: Machine, text: string, n: nat)
    requires !m.p.head.Done? && m.p.headers <= MAX_HEADERS_COUNT
    ensures var s := HeadLine(m, text, n);
            s.Ok? ==> s.m.p.headers <= MAX_HEADERS_COUNT && (s.m.p.head.Done? ==> s.m.p.headSeen <= MAX_HEAD_SIZE)
  {
    hide ParseRequestLine, SplitField, Canonical, ApplyField;
  }

  // ---------------------------------------------------------------- body

  /** The most a call may leave behind while the message is incomplete. */
  function Backlog(m: Machine): nat {
    match m.p.chunk
    case Size => MAX_CHUNK_LINE_SIZE
    case Trailers => MAX_HEAD_SIZE
    case DataEnd => 1
    case Data => 0
  }

  lemma StepBounds(m: Machine, d: string)
    requires Decoding(m) && d != "" && m.p.headers <= MAX_HEADERS_COUNT
    ensures StepChunk(m, d).Wait? ==> |d| <= Backlog(m)
    ensures StepChunk(m, d).Eat? ==> StepChunk(m, d).m.p.headers <= MAX_HEADERS_COUNT
  {
    hide Find, LineText, ChunkSize, AllValue;
  }

  lemma {:induction false} ChunkedBounds(m: Machine, d: string)
    requires Decoding(m) && RunChunked(m, d).Stop? && m.p.headers <= MAX_HEADERS_COUNT
    ensures var m', rest := RunChunked(m, d).m, RunChunked(m, d).rest;
            && Suffix(rest, d)
            && m'.p.headers <= MAX_HEADERS_COUNT
            && (!m'.r.state.Completed? ==> |rest| <= Backlog(m'))
    decreases |d|
  {
    hide StepChunk, Backlog;
    if d != "" && !m.r.state.Completed? {
      StepBounds(m, d);
      var s := StepChunk(m, d);
      if s.Eat? {
        ChunkedBounds(s.m, d[s.n..]);
        SuffixStep(RunChunked(m, d).rest, d, s.n);
      }
    }
  }

  /** After a call which leaves the request incomplete, at most 1024 bytes of a chunk-size
      line, 8192 of a trailer line, half a CRLF, or nothing of a body are left. */
  lemma BodyBounds(m: Machine, d: string)
    requires Valid(m) && ParseBody(m, d).Stop? && m.p.headers <= MAX_HEADERS_COUNT
    ensures var m', rest := ParseBody(m, d).m, ParseBody(m, d).rest;
            && Suffix(rest, d)
            && m'.p.headers <= MAX_HEADERS_COUNT
            && (!m'.r.state.Completed? && !m'.p.body.NoBody? ==>
                  |rest| <= if m'.p.body.Chunked? then Backlog(m') else 0)
  {
    hide RunChunked, Deliver, TooLong;
    if !m.r.state.Completed? && m.p.body.Chunked? { ChunkedBounds(m.(r := m.r.(state := ProcessingBody)), d); }
  }

  lemma ParseKeepsBody(m: Machine, d: string)
    requires Valid(m)
    ensures ParseBody(m, d).m.p.body == m.p.body
  {
    hide RunChunked;
  }

  // ---------------------------------------------------------------- the driver

  /** A loop which has not finished: its fields are counted, and in the body there is one. */
  predicate Looping(ph: Phase, m: Machine) {
    && Ready(ph, m) && !Finished(ph, m)
    && (if ph.InHead? then m.r.state.Uninitialized? || m.p.headers <= MAX_HEADERS_COUNT
        else !m.p.body.NoBody? && m.p.headers <= MAX_HEADERS_COUNT)
  }

  /** What the loop may keep while it waits for more. */
  predicate Within(ph: Phase, m: Machine, pending: string) {
    pending == "" ||
    if ph.InHead? then m.p.headSeen + |pending| <= MAX_HEAD_SIZE && '\n' !in pending
    else |pending| <= if m.p.body.Chunked? then Backlog(m) else 0
  }

  lemma HeadBacklog(m: Machine, d: string)
    requires Looping(InHead, m) && ParseHead(m, d).Stop?
    ensures var o := ParseHead(m, d);
            && o.m.p.headers <= MAX_HEADERS_COUNT
            && (!Finished(InHead, o.m) ==> Looping(InHead, o.m) && Within(InHead, o.m, o.rest))
  {
    var m1 := if m.r.state.Uninitialized? then BeginRequest(m) else m;
    assert HeadState(m1) && !m1.r.state.Uninitialized? && !m1.p.head.Done?;
    hide RunHead;
    HeadBounds(m1, d);
    RunHeadState(m1, d);
  }

  lemma BodyBacklog(m: Machine, d: string)
    requires Looping(InBody, m) && ParseBody(m, d).Stop?
    ensures var o := ParseBody(m, d);
            && o.m.p.headers <= MAX_HEADERS_COUNT
            && (!Finished(InBody, o.m) ==> Looping(InBody, o.m) && Within(InBody, o.m, o.rest))
  {
    hide ParseBody, Backlog;
    BodyBounds(m, d);
    ParseKeepsBody(m, d);
  }

  lemma CallBacklog(ph: Phase, m: Machine, d: string)
    requires Looping(ph, m) && Parse(ph, m, d).Stop?
    ensures var o := Parse(ph, m, d);
            && o.m.p.headers <= MAX_HEADERS_COUNT
            && (!Finished(ph, o.m) ==> Looping(ph, o.m) && Within(ph, o.m, o.rest))
  {
    hide ParseHead, ParseBody, Within;
    if ph.InHead? { HeadBacklog(m, d); } else { BodyBacklog(m, d); }
  }

  /** Whatever arrives, in whatever portions, and whenever the connection breaks: what is left over
      at that moment is within the bound of the state. Every moment at which the loop waits is the
      end of such a run. */
  lemma {:induction false} DriveBacklog(ph: Phase, m: Machine, pending: string, events: seq<Event>)
    requires Looping(ph, m)
    ensures var r := Drive(ph, m, pending, events);
            && (r.Failed? ==> Within(ph, r.m, r.pending))
            && (r.Failed? || r.Accepted? ==> r.m.r.state.Uninitialized? || r.m.p.headers <= MAX_HEADERS_COUNT)
    decreases |events|, 1
  {
    hide Parse, HeadState, Backlog;
    if pending == "" {
      ReadBacklog(ph, m, "", events);
    } else {
      var o := Parse(ph, m, pending);
      if o.Stop? {
        CallBacklog(ph, m, pending);
        if !Finished(ph, o.m) { ReadBacklog(ph, o.m, o.rest, events); }
      }
    }
  }

  lemma {:induction false} ReadBacklog(ph: Phase, m: Machine, pending: string, events: seq<Event>)
    requires Looping(ph, m) && Within(ph, m, pending)
    ensures var r := ReadSome(ph, m, pending, events);
            && (r.Failed? ==> Within(ph, r.m, r.pending))
            && (r.Failed? || r.Accepted? ==> r.m.r.state.Uninitialized? || r.m.p.headers <= MAX_HEADERS_COUNT)
    decreases |events|, 0
  {
    hide Parse, Within, HeadState;
    if events != [] && events[0].Arrived? {
      var d := events[0].bytes;
      if d == "" {
        DriveBacklog(ph, m, pending, events[1..]);
      } else if pending != "" {
        DriveBacklog(ph, m, pending + d, events[1..]);
      } else {
        var o := Parse(ph, m, d);
        if o.Stop? {
          CallBacklog(ph, m, d);
          if !Finished(ph, o.m) { DriveBacklog(ph, o.m, o.rest, events[1..]); }
        }
      }
    }
  }

  // ---------------------------------------------------------------- no byte is lost

  lemma {:induction false} HeadSuffix(m: Machine, d: string)
    requires RunHead(m, d).Stop?
    ensures Suffix(RunHead(m, d).rest, d)
    decreases |d|
  {
    hide Find, LineText, HeadLine, RunHead, Suffix;
    var lf := Find(d, '\n');
    if !m.p.head.Done? && lf < |d| {
      Fragmentation.HeadStep(m, d);
      HeadSuffix(HeadLine(m, LineText(d, lf), lf + 1).m, d[lf + 1..]);
      SuffixStep(RunHead(m, d).rest, d, lf + 1);
    } else {
      NoLine(m, d);
    }
  }

  lemma NoLine(m: Machine, d: string)
    requires (m.p.head.Done? || Find(d, '\n') == |d|) && RunHead(m, d).Stop?
    ensures RunHead(m, d).rest == d && Suffix(d, d)
  {
    hide Find, LineText, HeadLine;
  }

  lemma {:induction false} ChunkedSuffix(m: Machine, d: string)
    requires Decoding(m) && RunChunked(m, d).Stop?
    ensures Suffix(RunChunked(m, d).rest, d)
    decreases |d|
  {
    hide StepChunk;
    if d != "" && !m.r.state.Completed? {
      var s := StepChunk(m, d);
      if s.Eat? {
        ChunkedSuffix(s.m, d[s.n..]);
        SuffixStep(RunChunked(m, d).rest, d, s.n);
      }
    }
  }

  lemma ParseSuffix(ph: Phase, m: Machine, d: string)
    requires Valid(m) && Parse(ph, m, d).Stop?
    ensures Suffix(Parse(ph, m, d).rest, d)
  {
    hide RunHead, RunChunked, Deliver, TooLong;
    if ph.InHead? {
      HeadSuffix(if m.r.state.Uninitialized? then BeginRequest(m) else m, d);
    } else if !m.r.state.Completed? && m.p.body.Chunked? {
      ChunkedSuffix(m.(r := m.r.(state := ProcessingBody)), d);
    }
  }

  /** What is left of a stream: it ends with what the driver still has. What is missing in front was
      consumed, or is a read which was rejected with nothing pending. */
  predicate Conserves(pending: string, events: seq<Event>, consumed: string, lost: string, r: Result) {
    && Stream(pending, events) == consumed + (lost + Stream(r.pending, r.events))
    && (lost == "" || (r.Refused? && r.pending == "" && ReadAt(events, lost, r.events)))
    && (r.Refused? && lost == "" ==> r.pending != "")
  }

  /** `bytes` were read right before `rest`. */
  predicate ReadAt(events: seq<Event>, bytes: string, rest: seq<Event>) {
    |rest| < |events| && rest == events[|events| - |rest|..] && events[|events| - |rest| - 1] == Arrived(bytes)
  }

  lemma ReadLater(events: seq<Event>, bytes: string, rest: seq<Event>)
    requires events != [] && ReadAt(events[1..], bytes, rest)
    ensures ReadAt(events, bytes, rest)
  {
  }

  lemma Untaken(pending: string, events: seq<Event>, r: Result)
    requires r.pending == pending && (r.Refused? ==> pending != "")
    requires r.events == events || (events != [] && events[0].Broke? && r.events == events[1..])
    ensures Conserves(pending, events, "", "", r)
  {
    assert "" + ("" + Stream(r.pending, r.events)) == Stream(r.pending, r.events);
  }

  /** A call which consumes the beginning of what is pending comes first. */
  lemma Eaten(pending: string, rest: string, events: seq<Event>, consumed: string, lost: string, r: Result)
    returns (all: string)
    requires Suffix(rest, pending) && Conserves(rest, events, consumed, lost, r)
    ensures Conserves(pending, events, all, lost, r)
  {
    var eaten := pending[..|pending| - |rest|];
    all := eaten + consumed;
    hide Received;
    assert pending == eaten + rest;
    assert Stream(pending, events) == eaten + Stream(rest, events);
    assert Stream(rest, events) == consumed + (lost + Stream(r.pending, r.events));
  }

  /** A read comes first. */
  lemma Arrives(pending: string, events: seq<Event>, consumed: string, lost: string, r: Result)
    requires events != [] && events[0].Arrived? && Conserves(pending + events[0].bytes, events[1..], consumed, lost, r)
    ensures Conserves(pending, events, consumed, lost, r)
  {
    assert Stream(pending, events) == Stream(pending + events[0].bytes, events[1..]);
    if lost != "" { ReadLater(events, lost, r.events); }
  }

  lemma ReadLost(events: seq<Event>, r: Result)
    requires events != [] && events[0].Arrived? && events[0].bytes != ""
    requires r.Refused? && r.pending == "" && r.events == events[1..]
    ensures Conserves("", events, "", events[0].bytes, r)
  {
    var d := events[0].bytes;
    assert Stream("", events) == d + Received(events[1..]);
    assert "" + (d + Stream("", r.events)) == d + Received(events[1..]);
  }

  /** However a loop ends, no byte is lost but those of a read which was rejected. */
  lemma {:induction false} DriveConserves(ph: Phase, m: Machine, pending: string, events: seq<Event>)
    returns (consumed: string, lost: string)
    requires Valid(m)
    ensures Conserves(pending, events, consumed, lost, Drive(ph, m, pending, events))
    decreases |events|, 1, 0
  {
    hide Parse, Conserves, ReadSome, Suffix;
    consumed, lost := "", "";
    if pending == "" {
      consumed, lost := ReadConserves(ph, m, "", events);
    } else {
      var o, r := Parse(ph, m, pending), Drive(ph, m, pending, events);
      if o.Rejected? {
        Untaken(pending, events, r);
      } else {
        ParseSuffix(ph, m, pending);
        if Finished(ph, o.m) {
          Untaken(o.rest, events, r);
        } else {
          consumed, lost := ReadConserves(ph, o.m, o.rest, events);
        }
        consumed := Eaten(pending, o.rest, events, consumed, lost, r);
      }
    }
  }

  lemma {:induction false} ReadConserves(ph: Phase, m: Machine, pending: string, events: seq<Event>)
    returns (consumed: string, lost: string)
    requires Valid(m)
    ensures Conserves(pending, events, consumed, lost, ReadSome(ph, m, pending, events))
    decreases |events|, 0, 1
  {
    hide Parse, Conserves, Drive, Suffix;
    consumed, lost := "", "";
    var r := ReadSome(ph, m, pending, events);
    if events == [] || events[0].Broke? {
      Untaken(pending, events, r);
    } else {
      var d := events[0].bytes;
      if d == "" || pending != "" {
        assert d == "" ==> pending + d == pending;
        consumed, lost := DriveConserves(ph, m, pending + d, events[1..]);
        Arrives(pending, events, consumed, lost, r);
      } else {
        assert pending + d == d;
        consumed, lost := FreshConserves(ph, m, events, r);
      }
    }
  }

  /** The read is handed to the parser as it is. */
  lemma {:induction false} FreshConserves(ph: Phase, m: Machine, events: seq<Event>, r: Result)
    returns (consumed: string, lost: string)
    requires Valid(m) && events != [] && events[0].Arrived? && events[0].bytes != ""
    requires r == ReadSome(ph, m, "", events)
    ensures Conserves("", events, consumed, lost, r)
    decreases |events|, 0, 0
  {
    hide Parse, Conserves, Drive, Suffix;
    consumed, lost := "", "";
    var d, later := events[0].bytes, events[1..];
    var o := Parse(ph, m, d);
    if o.Rejected? {
      lost := d;
      ReadLost(events, r);
    } else {
      ParseSuffix(ph, m, d);
      if Finished(ph, o.m) {
        Untaken(o.rest, later, r);
      } else {
        consumed, lost := DriveConserves(ph, o.m, o.rest, later);
      }
      consumed := Eaten(d, o.rest, later, consumed, lost, r);
      assert "" + d == d;
      Arrives("", events, consumed, lost, r);
    }
  }

  // ---------------------------------------------------------------- arithmetic

  lemma {:induction false} HexBound(s: string)
    requires forall i :: 0 <= i < |s| ==> IsHex(s[i])
    ensures Hex(s) < Pow16(|s|)
  {
    if s != "" { HexBound(s[..|s| - 1]); }
  }

  lemma {:induction false} Pow16Monotone(a: nat, b: nat)
    requires a <= b
    ensures Pow16(a) <= Pow16(b)
    decreases b
  {
    if a < b { Pow16Monotone(a, b - 1); }
  }

  /** Sixteen hexadecimal digits fit into 64 bits, so no chunk size wraps around. */
  lemma ChunkSizeFits(text: string)
    ensures ChunkSize(text).Some? ==> ChunkSize(text).value <= CHUNKED_DATA
  {
    var digits := HexPrefix(text);
    if ChunkSize(text).Some? {
      HexBound(text[..digits]);
      Pow16Monotone(digits, 16);
      assert Pow16(4) == 0x1_0000;
      assert Pow16(8) == 0x1_0000 * Pow16(4);
      assert Pow16(12) == 0x1_0000 * Pow16(8);
      assert Pow16(16) == 0x1_0000 * Pow16(12);
    }
  }

  /** The body arithmetic: what was received was delivered, none of it over the limit, and
      together with what is still to come it is the announced length. */
  predicate Accounted(m: Machine) {
    && m.p.received == |m.r.delivered|
    && (m.r.maxBody != 0 ==> m.p.received <= m.r.maxBody)
    && (m.p.body.ContentLength? ==> m.p.received + m.p.remaining == m.p.contentLength)
    && (m.p.body.ContentLength? && m.r.state.Completed? ==> m.p.remaining == 0)
  }

  lemma StepAccounted(m: Machine, d: string)
    requires Decoding(m) && d != "" && Accounted(m) && StepChunk(m, d).Eat?
    ensures Accounted(StepChunk(m, d).m)
  {
    hide StepSize, StepData, StepDataEnd, StepTrailer, Accounted;
    match m.p.chunk
    case Data => DataAccounted(m, d);
    case _ => LineAccounted(m, d);
  }

  lemma DataAccounted(m: Machine, d: string)
    requires Decoding(m) && m.p.chunk.Data? && d != "" && Accounted(m) && StepData(m, d).Eat?
    ensures Accounted(StepData(m, d).m)
  {
  }

  lemma LineAccounted(m: Machine, d: string)
    requires Decoding(m) && !m.p.chunk.Data? && d != "" && Accounted(m) && StepChunk(m, d).Eat?
    ensures Accounted(StepChunk(m, d).m)
  {
    hide Find, LineText, ChunkSize, AllValue, Terminator, StepData;
  }

  lemma {:induction false} ChunkedAccounted(m: Machine, d: string)
    requires Decoding(m) && Accounted(m) && RunChunked(m, d).Stop?
    ensures Accounted(RunChunked(m, d).m)
    decreases |d|
  {
    hide StepChunk, Accounted;
    if d != "" && !m.r.state.Completed? {
      var s := StepChunk(m, d);
      if s.Eat? {
        StepAccounted(m, d);
        ChunkedAccounted(s.m, d[s.n..]);
      }
    }
  }

  lemma BodyAccounted(m: Machine, d: string)
    requires Valid(m) && Accounted(m) && ParseBody(m, d).Stop?
    ensures Accounted(ParseBody(m, d).m)
  {
    hide RunChunked;
    var m1 := m.(r := m.r.(state := ProcessingBody));
    if !m.r.state.Completed? && m.p.body.Chunked? { ChunkedAccounted(m1, d); }
  }

  /** The subtraction of the limit check never wraps around. */
  lemma LimitNeverWraps(m: Machine)
    requires Accounted(m) && m.r.maxBody != 0
    ensures Minus(m.r.maxBody, m.p.received) == m.r.maxBody - m.p.received
    ensures TooLong(m) <==> m.p.received + m.p.remaining > m.r.maxBody
  {
  }

  /** The arithmetic holds at the end of any run of the driver which is not refused. */
  lemma {:induction false} DriveAccounted(m: Machine, pending: string, events: seq<Event>)
    requires Valid(m) && Accounted(m)
    ensures var r := Drive(InBody, m, pending, events); !r.Refused? ==> Accounted(r.m)
    decreases |events|, 1
  {
    hide ParseBody, Accounted;
    if pending == "" {
      ReadAccounted(m, "", events);
    } else {
      var o := ParseBody(m, pending);
      if o.Stop? {
        BodyAccounted(m, pending);
        if !Finished(InBody, o.m) { ReadAccounted(o.m, o.rest, events); }
      }
    }
  }

  lemma {:induction false} ReadAccounted(m: Machine, pending: string, events: seq<Event>)
    requires Valid(m) && Accounted(m)
    ensures var r := ReadSome(InBody, m, pending, events); !r.Refused? ==> Accounted(r.m)
    decreases |events|, 0
  {
    hide ParseBody, Accounted;
    if events != [] && events[0].Arrived? {
      var d := events[0].bytes;
      if d == "" {
        DriveAccounted(m, pending, events[1..]);
      } else if pending != "" {
        DriveAccounted(m, pending + d, events[1..]);
      } else {
        var o := ParseBody(m, d);
        if o.Stop? {
          BodyAccounted(m, d);
          if !Finished(InBody, o.m) { DriveAccounted(o.m, o.rest, events[1..]); }
        }
      }
    }
  }

  /** Nothing is read and no handler was called. */
  predicate Untouched(m: Machine) {
    m.p.received == 0 && m.r.delivered == "" && !m.r.hasCallback && m.r.maxBody == 0
  }

  /** The head is parsed, and the body is to come. */
  predicate BodyStart(m: Machine) {
    && Untouched(m) && m.p.chunk.Size? && (m.r.state.Completed? <==> m.p.body.NoBody?)
    && (m.p.body.ContentLength? ==> m.p.remaining == m.p.contentLength > 0)
    && (m.p.body.Chunked? ==> m.r.state.HeadersCompleted?)
  }

  lemma LineStart(m: Machine, text: string, n: nat)
    requires !m.p.head.Done? && Untouched(m)
    ensures var s := HeadLine(m, text, n);
            s.Ok? ==> if s.m.p.head.Done? then BodyStart(s.m) else Untouched(s.m)
  {
    hide ParseRequestLine, ParseHeaderField;
  }

  lemma {:induction false} HeadStart(m: Machine, d: string)
    requires Untouched(m) && !m.p.head.Done?
    requires RunHead(m, d).Stop? && RunHead(m, d).m.p.head.Done?
    ensures BodyStart(RunHead(m, d).m)
    decreases |d|
  {
    hide Find, LineText, HeadLine, BodyStart, Untouched;
    var lf := Find(d, '\n');
    assert lf < |d|;
    LineStart(m, LineText(d, lf), lf + 1);
    var s := HeadLine(m, LineText(d, lf), lf + 1);
    if !s.m.p.head.Done? { HeadStart(s.m, d[lf + 1..]); }
  }

  /** An accepted head starts the account, whatever limit the handler then registers. */
  lemma HeadAccounted(p: Parser, d: string, m: Machine, rest: string, callback: bool, max: nat)
    requires ParseHead(Machine(p, FRESH_REQUEST), d) == Stop(m, rest) && m.p.head.Done?
    ensures Accounted(m.(r := m.r.(hasCallback := callback, maxBody := max)))
  {
    hide RunHead;
    HeadStart(BeginRequest(Machine(p, FRESH_REQUEST)), d);
  }
}
