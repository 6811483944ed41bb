/** The connection driver: the loops of read_headers() and read(), which feed the parser
    from the socket and keep what it did not consume, as functions of the socket events. */
module Driver {
  import opened Bytes
  import opened HttpMachine
  import opened Fragmentation

  /** What the socket gives next: bytes (none of them: the session yields and is resumed),
      or an error, of the read itself or of the wait for it. */
  datatype Event = Arrived(bytes: string) | Broke

  /** The bytes of all events. */
  function Received(events: seq<Event>): (s: string)
  {
    if events == [] then "" else
    (if events[0].Arrived? then events[0].bytes else "") + Received(events[1..])
  }

  /** The two loops differ in the parser call they make and in the state they wait for. */
  datatype Phase = InHead | InBody

  function Parse(ph: Phase, m: Machine, data: string): (o: Outcome)
    requires Valid(m)
    ensures Valid(o.m)
  {
    if ph.InHead? then ParseHead(m, data) else ParseBody(m, data)
  }

  predicate Finished(ph: Phase, m: Machine) {
    m.r.state.Completed? || (ph.InHead? && m.r.state.HeadersCompleted?)
  }

  datatype Result =
    | Accepted(m: Machine, pending: string, events: seq<Event>)
    | Refused(m: Machine, pending: string, events: seq<Event>)  // an error response was thrown
    | Failed(m: Machine, pending: string, events: seq<Event>)   // the connection broke

  function Drive(ph: Phase, m: Machine, pending: string, events: seq<Event>): (r: Result)
    requires Valid(m)
    ensures Valid(r.m)
    ensures r.Accepted? ==> Finished(ph, r.m)
    ensures ph.InBody? && r.Refused? ==> r.m.r.state.ProcessingBody?
    decreases |events|, 1
  {
    if pending == "" then ReadSome(ph, m, "", events) else
    match Parse(ph, m, pending)
    case Rejected(m', _) => Refused(m', pending, events)
    case Stop(m', rest) =>
      if Finished(ph, m') then Accepted(m', rest, events) else ReadSome(ph, m', rest, events)
  }

  /** The second half of the loop body. With nothing pending the parser runs straight on
      the read buffer, and a rejected read is dropped with it. */
  function ReadSome(ph: Phase, m: Machine, pending: string, events: seq<Event>): (r: Result)
    requires Valid(m)
    ensures Valid(r.m)
    ensures r.Accepted? ==> Finished(ph, r.m)
    ensures ph.InBody? && r.Refused? ==> r.m.r.state.ProcessingBody?
    decreases |events|, 0
  {
    if events == [] then Failed(m, pending, [])
    else if events[0].Broke? then Failed(m, pending, events[1..])
    else if events[0].bytes == "" then Drive(ph, m, pending, events[1..])
    else if pending != "" then Drive(ph, m, pending + events[0].bytes, events[1..])
    else match Parse(ph, m, events[0].bytes)
      case Rejected(m', _) => Refused(m', "", events[1..])
      case Stop(m', rest) =>
        if Finished(ph, m') then Accepted(m', rest, events[1..]) else Drive(ph, m', rest, events[1..])
  }

  // ---------------------------------------------------------------- the parser calls

  /** A head line leaves the head unfinished or reaches one of the two final states. */
  predicate HeadState(m: Machine) {
    && (m.r.state.Uninitialized? || (m.p.head.Done? <==> Finished(InHead, m)))
    && !m.r.state.ProcessingBody?
  }

  /** What a loop may start from. */
  predicate Ready(ph: Phase, m: Machine) {
    Valid(m) && (ph.InHead? ==> HeadState(m)) && (ph.InBody? ==> !m.r.state.Uninitialized?)
  }

  predicate Short(ph: Phase, m: Machine, data: string)
    requires Valid(m)
  {
    ph.InHead? || ShortBody(m, data)
  }

  lemma {:induction false} RunHeadState(m: Machine, data: string)
    requires Valid(m) && HeadState(m) && !m.r.state.Uninitialized?
    ensures RunHead(m, data).Stop? ==> HeadState(RunHead(m, data).m) && !RunHead(m, data).m.r.state.Uninitialized?
    decreases |data|
  {
    hide Find, LineText, FirstLine, FieldLine;
    var lf := Find(data, '\n');
    if !m.p.head.Done? && lf < |data| {
      var s := HeadLine(m, LineText(data, lf), lf + 1);
      if s.Ok? { RunHeadState(s.m, data[lf + 1..]); }
    }
  }

  /** One call on `d + e` is a call on `d` and a call on what it left followed by `e`. */
  lemma ParseSplit(ph: Phase, m: Machine, d: string, e: string)
    requires Ready(ph, m)
    ensures Parse(ph, m, d).Rejected? && Short(ph, m, d + e) ==> Parse(ph, m, d + e).Rejected?
    ensures var o := Parse(ph, m, d);
            o.Stop? ==> Ready(ph, o.m) && Same(Parse(ph, m, d + e), Parse(ph, o.m, o.rest + e)) &&
                        (Short(ph, m, d + e) ==> Short(ph, o.m, o.rest + e)) &&
                        (Finished(ph, o.m) ==> Parse(ph, o.m, o.rest + e) == Stop(o.m, o.rest + e))
  {
    if ph.InHead? {
      var m1 := if m.r.state.Uninitialized? then BeginRequest(m) else m;
      HeadSplit(m1, d, e);
      RunHeadState(m1, d);
      hide HeadLine, Find, LineText;
    } else {
      BodySplit(m, d, e);
      hide RunChunked, RunLength, ShortLines;
    }
  }

  // ---------------------------------------------------------------- the loop

  /** All bytes which are there or will arrive. */
  function Stream(pending: string, events: seq<Event>): string { pending + Received(events) }

  predicate Unbroken(events: seq<Event>) { forall i :: 0 <= i < |events| ==> events[i].Arrived? }

  /** What the driver accepted is what one call on the whole stream accepts, and a broken
      connection leaves a state from which the same stream goes on. */
  predicate Sound(ph: Phase, o: Outcome, r: Result)
    requires Valid(r.m)
  {
    match r
    case Accepted(m', pending', events') => o == Stop(m', Stream(pending', events')) && Finished(ph, m')
    case Failed(m', pending', events') => Ready(ph, m') && Same(o, Parse(ph, m', Stream(pending', events')))
    case Refused(_, _, _) => true
  }

  lemma {:induction false} DriveSound(ph: Phase, m: Machine, pending: string, events: seq<Event>)
    requires Ready(ph, m)
    ensures Sound(ph, Parse(ph, m, Stream(pending, events)), Drive(ph, m, pending, events))
    decreases |events|, 1
  {
    hide Parse, ShortBody;
    var e := Received(events);
    if pending == "" {
      ReadSound(ph, m, "", events);
    } else {
      ParseSplit(ph, m, pending, e);
      var o := Parse(ph, m, pending);
      if o.Stop? && !Finished(ph, o.m) { ReadSound(ph, o.m, o.rest, events); }
    }
  }

  lemma {:induction false} ReadSound(ph: Phase, m: Machine, pending: string, events: seq<Event>)
    requires Ready(ph, m)
    ensures Sound(ph, Parse(ph, m, Stream(pending, events)), ReadSome(ph, m, pending, events))
    decreases |events|, 0
  {
    hide Parse, ShortBody;
    if events != [] && events[0].Arrived? {
      var d, e := events[0].bytes, Received(events[1..]);
      assert Stream(pending, events) == Stream(pending + d, events[1..]);
      if d == "" {
        assert pending + d == pending;
        DriveSound(ph, m, pending, events[1..]);
      } else if pending != "" {
        DriveSound(ph, m, pending + d, events[1..]);
      } else {
        ParseSplit(ph, m, d, e);
        var o := Parse(ph, m, d);
        assert pending + d + e == d + e;
        if o.Stop? && !Finished(ph, o.m) { DriveSound(ph, o.m, o.rest, events[1..]); }
      }
    } else if events != [] {
      assert pending + ("" + Received(events[1..])) == pending + Received(events[1..]);
    }
  }

  predicate Settled(ph: Phase, m: Machine, pending: string)
    requires Valid(m)
  {
    Parse(ph, m, pending) == Stop(m, pending)
  }

  /** With short lines the driver refuses only what one call on the whole stream rejects,
      and when the bytes run out it has nothing left it could still do. */
  predicate Complete(ph: Phase, m: Machine, stream: string, r: Result)
    requires Valid(m) && Valid(r.m)
  {
    match r
    case Accepted(_, _, _) => true
    case Refused(_, _, _) => Short(ph, m, stream) ==> Parse(ph, m, stream).Rejected?
    case Failed(m', pending', events') =>
      events' == [] && !Finished(ph, m') &&
      (if stream == "" then r == Failed(m, "", []) else Settled(ph, m', pending'))
  }

  /** The parser call on `d` comes first, then whatever is done with the rest. */
  lemma CompleteStep(ph: Phase, m: Machine, d: string, e: string)
    requires Ready(ph, m) && d != ""
    ensures Parse(ph, m, d).Rejected? && Short(ph, m, d + e) ==> Parse(ph, m, d + e).Rejected?
    ensures var o := Parse(ph, m, d); o.Stop? ==>
              Ready(ph, o.m) && Settled(ph, o.m, o.rest) &&
              forall r: Result :: Valid(r.m) && Complete(ph, o.m, o.rest + e, r) ==> Complete(ph, m, d + e, r)
  {
    ParseSplit(ph, m, d, e);
    ParseSplit(ph, m, d, "");
    hide Parse, ShortBody;
    assert d + "" == d;
    var o := Parse(ph, m, d);
    if o.Stop? { assert o.rest + "" == o.rest; }
  }

  lemma {:induction false} DriveComplete(ph: Phase, m: Machine, pending: string, events: seq<Event>)
    requires Ready(ph, m) && !Finished(ph, m) && Unbroken(events)
    ensures Complete(ph, m, Stream(pending, events), Drive(ph, m, pending, events))
    decreases |events|, 1
  {
    hide Parse, ShortBody;
    if pending == "" {
      ReadComplete(ph, m, "", events);
    } else {
      CompleteStep(ph, m, pending, Received(events));
      var o := Parse(ph, m, pending);
      if o.Stop? && !Finished(ph, o.m) { ReadComplete(ph, o.m, o.rest, events); }
    }
  }

  lemma {:induction false} ReadComplete(ph: Phase, m: Machine, pending: string, events: seq<Event>)
    requires Ready(ph, m) && !Finished(ph, m) && Unbroken(events)
    requires pending != "" ==> Settled(ph, m, pending)
    ensures Complete(ph, m, Stream(pending, events), ReadSome(ph, m, pending, events))
    decreases |events|, 0
  {
    hide Parse, ShortBody;
    if events != [] {
      var d, e := events[0].bytes, Received(events[1..]);
      assert Stream(pending, events) == Stream(pending + d, events[1..]);
      if d == "" {
        assert pending + d == pending;
        DriveComplete(ph, m, pending, events[1..]);
      } else if pending != "" {
        DriveComplete(ph, m, pending + d, events[1..]);
      } else {
        assert pending + d == d;
        CompleteStep(ph, m, d, e);
        var o := Parse(ph, m, d);
        if o.Stop? && !Finished(ph, o.m) { DriveComplete(ph, o.m, o.rest, events[1..]); }
      }
    }
  }

  // ---------------------------------------------------------------- fragmentation

  /** The same request with the same unread bytes, or both refused, or both still waiting. */
  predicate Agree(a: Result, b: Result) {
    match (a, b)
    case (Accepted(m1, p1, e1), Accepted(m2, p2, e2)) => m1 == m2 && Stream(p1, e1) == Stream(p2, e2)
    case (Refused(_, _, _), Refused(_, _, _)) => true
    case (Failed(m1, p1, e1), Failed(m2, p2, e2)) => m1 == m2 && p1 == p2 && e1 == e2
    case _ => false
  }

  lemma Determined(ph: Phase, m: Machine, w: string, a: Result, b: Result)
    requires Valid(m) && Valid(a.m) && Valid(b.m)
    requires Sound(ph, Parse(ph, m, w), a) && Complete(ph, m, w, a)
    requires Sound(ph, Parse(ph, m, w), b) && Complete(ph, m, w, b)
    requires w != "" && (Short(ph, m, w) || Parse(ph, m, w).Rejected?)
    ensures Agree(a, b)
  {
    hide Parse, ShortBody;
    if a.Failed? { assert Stream(a.pending, a.events) == a.pending; }
    if b.Failed? { assert Stream(b.pending, b.events) == b.pending; }
  }

  /** How a stream is cut into reads, and how often the session yields between them, is
      invisible: the driver does what it does when everything arrives in a single read. */
  lemma FragmentationIndependence(ph: Phase, m: Machine, pending: string, events: seq<Event>)
    requires Ready(ph, m) && !Finished(ph, m) && Unbroken(events)
    requires Short(ph, m, Stream(pending, events)) || Parse(ph, m, Stream(pending, events)).Rejected?
    ensures Agree(Drive(ph, m, pending, events), Drive(ph, m, "", [Arrived(Stream(pending, events))]))
  {
    hide Parse, ShortBody, Drive, Sound, Complete;
    var w := Stream(pending, events);
    var whole := [Arrived(w)];
    assert Received(whole) == w + Received([]) == w;
    assert Stream("", whole) == w;
    if w == "" {
      NothingArrives(ph, m, pending, events);
      NothingArrives(ph, m, "", whole);
    } else {
      DriveSound(ph, m, pending, events);
      DriveComplete(ph, m, pending, events);
      DriveSound(ph, m, "", whole);
      DriveComplete(ph, m, "", whole);
      Determined(ph, m, w, Drive(ph, m, pending, events), Drive(ph, m, "", whole));
    }
  }

  /** Every way to read the bytes `w` agrees with a single read of them. */
  ghost predicate CutsInvisible(m: Machine, w: string)
    requires Valid(m)
  {
    forall events :: Unbroken(events) && Received(events) == w ==>
      Agree(Drive(InBody, m, "", events), Drive(InBody, m, "", [Arrived(w)]))
  }

  /** What the first read does to a driver which has nothing pending. */
  lemma FirstRead(ph: Phase, m: Machine, events: seq<Event>)
    requires Valid(m) && events != [] && events[0].Arrived? && events[0].bytes != ""
    ensures var o := Parse(ph, m, events[0].bytes);
            && (o.Rejected? ==> Drive(ph, m, "", events) == Refused(o.m, "", events[1..]))
            && (o.Stop? && Finished(ph, o.m) ==> Drive(ph, m, "", events) == Accepted(o.m, o.rest, events[1..]))
            && (o.Stop? && !Finished(ph, o.m) ==> Drive(ph, m, "", events) == Drive(ph, o.m, o.rest, events[1..]))
  {
    hide Parse;
  }

  /** Without data the loop goes on with what is pending, without events it ends. */
  lemma EmptyRead(ph: Phase, m: Machine, pending: string, events: seq<Event>)
    requires Valid(m) && (events != [] ==> events[0] == Arrived(""))
    ensures ReadSome(ph, m, pending, events) ==
            if events == [] then Failed(m, pending, []) else Drive(ph, m, pending, events[1..])
  {
    hide Parse, Drive;
  }

  lemma RejectedPrefix(m: Machine, w: string) returns (k: nat)
    requires Ready(InBody, m) && !Finished(InBody, m) && !ShortBody(m, w)
    ensures 0 < k <= |w| && Parse(InBody, m, w[..k]).Rejected?
  {
    hide StepChunk, LongLine;
    k := CutIsVisible(m.(r := m.r.(state := ProcessingBody)), w);
  }

  lemma VisibleCut(m: Machine, w: string)
    requires Ready(InBody, m) && !Finished(InBody, m) && !ShortBody(m, w)
    ensures exists events :: Unbroken(events) && Received(events) == w && Drive(InBody, m, "", events).Refused?
  {
    var k := RejectedPrefix(m, w);
    hide Parse, ShortBody, Drive;
    var cut := [Arrived(w[..k]), Arrived(w[k..])];
    assert Received(cut[1..]) == w[k..] + Received([]) == w[k..];
    assert Received(cut) == w[..k] + w[k..] == w;
    assert Unbroken(cut);
    FirstRead(InBody, m, cut);
  }

  /** Exactly when reading a body is independent of the cuts: when it is rejected as a whole
      anyway, or has no chunk-size line of more than 1024 and no trailer line of more than
      8192 bytes before its LF. */
  lemma FragmentationExact(m: Machine, w: string)
    requires Ready(InBody, m) && !Finished(InBody, m)
    ensures CutsInvisible(m, w) <==> Short(InBody, m, w) || Parse(InBody, m, w).Rejected?
  {
    hide Parse, ShortBody, Drive;
    if Short(InBody, m, w) || Parse(InBody, m, w).Rejected? {
      forall events | Unbroken(events) && Received(events) == w
        ensures Agree(Drive(InBody, m, "", events), Drive(InBody, m, "", [Arrived(w)]))
      {
        assert Stream("", events) == w;
        FragmentationIndependence(InBody, m, "", events);
      }
    } else {
      VisibleCut(m, w);
      WholeReadNotRefused(InBody, m, w);
    }
  }

  /** What is left of an unbroken connection is unbroken. */
  lemma {:induction false} DriveUnbroken(ph: Phase, m: Machine, pending: string, events: seq<Event>)
    requires Valid(m) && Unbroken(events)
    ensures Unbroken(Drive(ph, m, pending, events).events)
    decreases |events|, 1
  {
    hide Parse, ReadSome;
    if pending == "" {
      ReadUnbroken(ph, m, "", events);
    } else {
      var o := Parse(ph, m, pending);
      if o.Stop? && !Finished(ph, o.m) { ReadUnbroken(ph, o.m, o.rest, events); }
    }
  }

  lemma {:induction false} ReadUnbroken(ph: Phase, m: Machine, pending: string, events: seq<Event>)
    requires Valid(m) && Unbroken(events)
    ensures Unbroken(ReadSome(ph, m, pending, events).events)
    decreases |events|, 0
  {
    hide Parse, Drive;
    if events != [] && events[0].Arrived? {
      var d := events[0].bytes;
      if d == "" || pending != "" {
        DriveUnbroken(ph, m, pending + d, events[1..]);
        assert d == "" ==> pending + d == pending;
      } else {
        var o := Parse(ph, m, d);
        if o.Stop? && !Finished(ph, o.m) { DriveUnbroken(ph, o.m, o.rest, events[1..]); }
      }
    }
  }

  lemma NoMoreEvents(ph: Phase, m: Machine, pending: string)
    requires Valid(m) && (pending == "" || Settled(ph, m, pending))
    ensures !Drive(ph, m, pending, []).Refused?
  {
    hide Parse, ShortBody, ReadSome;
    EmptyRead(ph, m, pending, []);
    if pending != "" {
      var o := Parse(ph, m, pending);
      EmptyRead(ph, o.m, o.rest, []);
    }
  }

  lemma WholeReadNotRefused(ph: Phase, m: Machine, w: string)
    requires Ready(ph, m) && Parse(ph, m, w).Stop?
    ensures !Drive(ph, m, "", [Arrived(w)]).Refused?
  {
    hide Parse, ReadSome;
    var o := Parse(ph, m, w);
    assert [Arrived(w)][1..] == [];
    if w == "" {
      NoMoreEvents(ph, m, "");
      EmptyRead(ph, m, "", [Arrived(w)]);
    } else {
      ParseSplit(ph, m, w, "");
      assert w + "" == w && o.rest + "" == o.rest;
      NoMoreEvents(ph, o.m, o.rest);
      hide Drive;
      FirstRead(ph, m, [Arrived(w)]);
    }
  }

  lemma {:induction false} NothingArrives(ph: Phase, m: Machine, pending: string, events: seq<Event>)
    requires Valid(m) && Unbroken(events) && Stream(pending, events) == ""
    ensures Drive(ph, m, pending, events) == Failed(m, "", [])
    decreases |events|
  {
    hide Parse, ShortBody;
    if events != [] {
      assert Received(events) == "";
      NothingArrives(ph, m, pending, events[1..]);
    }
  }
}
