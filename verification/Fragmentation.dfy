/** What a parse call gives when its data arrives in two pieces.

    For the head the answer never depends on the cut. For the body it does not depend on
    it either, as long as no chunk-size or trailer line is longer than the limit which is
    only enforced on lines whose end has not arrived yet; `CutIsVisible` shows that this
    exception is real and exact. */
module Fragmentation {
  import opened Bytes
  import opened HttpMachine

  /** Equal but for the details of a rejection. */
  predicate Same(a: Outcome, b: Outcome) {
    a.Rejected? == b.Rejected? && (a.Stop? ==> a == b)
  }

  lemma LineAppend(d: string, e: string)
    requires Find(d, '\n') < |d|
    ensures Find(d + e, '\n') == Find(d, '\n')
    ensures LineText(d + e, Find(d, '\n')) == LineText(d, Find(d, '\n'))
    ensures (d + e)[Find(d, '\n') + 1..] == d[Find(d, '\n') + 1..] + e
  {
    FindAppend(d, e, '\n');
  }

  // ---------------------------------------------------------------- head

  /** One line of a head. */
  lemma HeadStep(m: Machine, data: string)
    requires !m.p.head.Done? && Find(data, '\n') < |data|
    ensures var lf := Find(data, '\n');
            var s := HeadLine(m, LineText(data, lf), lf + 1);
            RunHead(m, data) == if s.Fail? then Rejected(s.m, s.status) else RunHead(s.m, data[lf + 1..])
  {
    hide HeadLine, LineText, Find;
  }

  /** A parsed head takes nothing more. */
  lemma HeadDone(m: Machine, data: string)
    requires m.p.head.Done?
    ensures RunHead(m, data) == Stop(m, data)
  {
  }

  /** A head which is already over the limit is rejected whatever follows. */
  lemma {:induction false} OverlongHead(m: Machine, data: string)
    requires !m.p.head.Done? && m.p.headSeen > MAX_HEAD_SIZE
    ensures RunHead(m, data).Rejected?
    decreases |data|
  {
    hide Find, LineText, FirstLine, FieldLine;
    var lf := Find(data, '\n');
    if lf < |data| {
      var s := HeadLine(m, LineText(data, lf), lf + 1);
      if s.Ok? { OverlongHead(s.m, data[lf + 1..]); }
    }
  }

  /** A line which is too long already is not saved by its end. */
  lemma OverlongLine(m: Machine, d: string, e: string)
    requires !m.p.head.Done? && Find(d, '\n') == |d| && m.p.headSeen + |d| > MAX_HEAD_SIZE
    ensures RunHead(m, d + e).Rejected?
  {
    hide Find, LineText, HeadLine;
    FindAppend(d, e, '\n');
    var k := Find(d + e, '\n');
    if k < |d + e| {
      var s := HeadLine(m, LineText(d + e, k), k + 1);
      OverlongStep(m, LineText(d + e, k), k + 1);
      if s.Ok? { OverlongHead(s.m, (d + e)[k + 1..]); }
    }
  }

  lemma OverlongStep(m: Machine, text: string, n: nat)
    requires !m.p.head.Done? && m.p.headSeen + n > MAX_HEAD_SIZE
    ensures var s := HeadLine(m, text, n); s.Ok? ==> !s.m.p.head.Done? && s.m.p.headSeen > MAX_HEAD_SIZE
  {
    hide ParseRequestLine, ParseHeaderField;
  }

  lemma {:induction false} HeadSplit(m: Machine, d: string, e: string)
    ensures RunHead(m, d).Rejected? ==> RunHead(m, d + e).Rejected?
    ensures RunHead(m, d).Stop? ==> RunHead(m, d + e) == RunHead(RunHead(m, d).m, RunHead(m, d).rest + e)
    decreases |d|
  {
    hide Find, LineText, HeadLine;
    var lf := Find(d, '\n');
    if m.p.head.Done? {
    } else if lf < |d| {
      LineAppend(d, e);
      var s := HeadLine(m, LineText(d, lf), lf + 1);
      if s.Ok? { HeadSplit(s.m, d[lf + 1..], e); }
    } else if m.p.headSeen + |d| > MAX_HEAD_SIZE {
      OverlongLine(m, d, e);
    }
  }

  // ---------------------------------------------------------------- body

  /** How many bytes may wait for the end of the current line. */
  function LineLimit(m: Machine): nat {
    match m.p.chunk
    case Size => MAX_CHUNK_LINE_SIZE
    case Trailers => MAX_HEAD_SIZE
    case _ => 0
  }

  /** The decoder is at a complete line which is longer than an incomplete one may get. */
  predicate LongLine(m: Machine, data: string) {
    (m.p.chunk.Size? || m.p.chunk.Trailers?) && LineLimit(m) < Find(data, '\n') < |data|
  }

  /** No chunk-size line of `data` has more than 1024, no trailer line more than 8192 bytes
      before its LF. */
  predicate ShortLines(m: Machine, data: string)
    requires Decoding(m)
    decreases |data|
  {
    data == "" || m.r.state.Completed? ||
    (!LongLine(m, data) &&
     match StepChunk(m, data)
     case Eat(m', n) => ShortLines(m', data[n..])
     case _ => true)
  }

  lemma Slices(d: string, e: string, n: nat)
    requires n <= |d + e|
    ensures n <= |d| ==> (d + e)[..n] == d[..n] && (d + e)[n..] == d[n..] + e
    ensures n >= |d| ==> (d + e)[..n] == d + e[..n - |d|] && (d + e)[n..] == e[n - |d|..]
  {
  }

  lemma DeliverSplit(m: Machine, d: string, e: string)
    requires Deliver(m, d).Ok?
    ensures Deliver(m, d + e).Ok? == Deliver(Deliver(m, d).m, e).Ok?
    ensures Deliver(m, d + e).Ok? ==> Deliver(m, d + e).m == Deliver(Deliver(m, d).m, e).m
  {
    assert m.r.delivered + (d + e) == (m.r.delivered + d) + e;
  }

  lemma SizeAppend(m: Machine, d: string, e: string)
    requires Decoding(m) && m.p.chunk.Size? && !StepSize(m, d).Wait?
    ensures StepSize(m, d).Eat? ==> StepSize(m, d + e) == StepSize(m, d)
    ensures StepSize(m, d).Bad? && !LongLine(m, d + e) ==> StepSize(m, d + e).Bad?
  {
    FindAppend(d, e, '\n');
    if Find(d, '\n') < |d| { LineAppend(d, e); }
    hide Find, LineText, ChunkSize;
  }

  lemma TrailerAppend(m: Machine, d: string, e: string)
    requires Decoding(m) && m.p.chunk.Trailers? && !StepTrailer(m, d).Wait?
    ensures StepTrailer(m, d).Eat? ==> StepTrailer(m, d + e) == StepTrailer(m, d)
    ensures StepTrailer(m, d).Bad? && !LongLine(m, d + e) ==> StepTrailer(m, d + e).Bad?
  {
    FindAppend(d, e, '\n');
    if Find(d, '\n') < |d| { LineAppend(d, e); }
    hide Find, LineText, AllValue;
  }

  lemma DataEndAppend(m: Machine, d: string, e: string)
    requires Decoding(m) && d != ""
    ensures !StepDataEnd(m, d).Wait? ==> StepDataEnd(m, d + e) == StepDataEnd(m, d)
  {
    assert (d + e)[0] == d[0] && (|d| > 1 ==> (d + e)[1] == d[1]);
  }

  lemma WholeDataAppend(m: Machine, d: string, e: string)
    requires Decoding(m) && m.p.chunk.Data? && d != ""
    ensures m.p.remaining <= |d| ==> StepData(m, d + e) == StepData(m, d)
    ensures StepData(m, d).Bad? ==> StepData(m, d + e).Bad?
  {
    if m.p.remaining <= |d| { Slices(d, e, m.p.remaining); }
  }

  lemma StepAppend(m: Machine, d: string, e: string)
    requires Decoding(m) && d != ""
    ensures StepChunk(m, d).Eat? && !(m.p.chunk.Data? && m.p.remaining > |d|) ==>
              StepChunk(m, d + e) == StepChunk(m, d) && (d + e)[StepChunk(m, d).n..] == d[StepChunk(m, d).n..] + e
    ensures StepChunk(m, d).Bad? && !LongLine(m, d + e) ==> StepChunk(m, d + e).Bad?
  {
    hide StepSize, StepData, StepDataEnd, StepTrailer;
    match m.p.chunk
    case Size => if !StepSize(m, d).Wait? { SizeAppend(m, d, e); }
    case Trailers => if !StepTrailer(m, d).Wait? { TrailerAppend(m, d, e); }
    case DataEnd => DataEndAppend(m, d, e);
    case Data => WholeDataAppend(m, d, e);
  }

  /** The bytes `d` do not finish the chunk. */
  predicate Partial(m: Machine, d: string) {
    Decoding(m) && m.p.chunk.Data? && 0 < |d| < m.p.remaining && StepChunk(m, d).Eat?
  }

  /** Chunk data may be delivered in any pieces. */
  lemma DataDelivered(m: Machine, d: string, tail: string)
    requires Decoding(m) && |d| + |tail| <= m.p.remaining && Deliver(m, d).Ok?
    ensures var m1 := AfterData(Deliver(m, d).m, |d|);
            && Deliver(m, d + tail).Ok? == Deliver(m1, tail).Ok?
            && (Deliver(m, d + tail).Ok? ==>
                  AfterData(Deliver(m, d + tail).m, |d| + |tail|) == AfterData(Deliver(m1, tail).m, |tail|))
  {
    assert m.r.delivered + (d + tail) == (m.r.delivered + d) + tail;
  }

  lemma DataAppend(m: Machine, d: string, e: string)
    requires Partial(m, d) && e != ""
    ensures var m1, whole := StepData(m, d).m, StepData(m, d + e);
            Decoding(m1) && m1.p.chunk.Data? && whole.Bad? == StepData(m1, e).Bad? &&
            (whole.Eat? ==> StepData(m1, e) == Eat(whole.m, whole.n - |d|) && whole.n > |d|)
  {
    var n := Min(m.p.remaining, |d + e|);
    assert d[..|d|] == d;
    Slices(d, e, n);
    var m1 := AfterData(Deliver(m, d).m, |d|);
    assert m1.p.chunk.Data? && n - |d| == Min(m1.p.remaining, |e|);
    DataDelivered(m, d, e[..n - |d|]);
    hide Deliver, AfterData;
  }

  lemma DataSplit(m: Machine, d: string, e: string)
    requires Partial(m, d) && !m.r.state.Completed?
    ensures RunChunked(m, d) == Stop(StepChunk(m, d).m, "")
    ensures Same(RunChunked(m, d + e), RunChunked(StepChunk(m, d).m, e))
    ensures ShortLines(m, d + e) ==> ShortLines(StepChunk(m, d).m, e)
  {
    var s := StepChunk(m, d);
    assert d[s.n..] == "";
    hide StepData;
    if e == "" {
      assert d + e == d;
    } else {
      DataAppend(m, d, e);
      var whole := StepChunk(m, d + e);
      if whole.Eat? { assert (d + e)[whole.n..] == e[whole.n - |d|..]; }
    }
  }

  lemma {:induction false} ChunkedSplit(m: Machine, d: string, e: string)
    requires Decoding(m)
    ensures RunChunked(m, d).Rejected? && ShortLines(m, d + e) ==> RunChunked(m, d + e).Rejected?
    ensures RunChunked(m, d).Stop? ==>
              Same(RunChunked(m, d + e), RunChunked(RunChunked(m, d).m, RunChunked(m, d).rest + e))
    ensures RunChunked(m, d).Stop? && ShortLines(m, d + e) ==>
              ShortLines(RunChunked(m, d).m, RunChunked(m, d).rest + e)
    decreases |d|
  {
    hide StepChunk, LongLine;
    if d == "" || m.r.state.Completed? {
      assert d == "" ==> d + e == e;
    } else {
      StepAppend(m, d, e);
      var s := StepChunk(m, d);
      if s.Eat? {
        if m.p.chunk.Data? && m.p.remaining > |d| {
          DataSplit(m, d, e);
          assert "" + e == e;
        } else {
          ChunkedSplit(s.m, d[s.n..], e);
        }
      }
    }
  }

  predicate ShortBody(m: Machine, data: string)
    requires Valid(m)
  {
    !m.p.body.Chunked? || m.r.state.Completed? || ShortLines(m.(r := m.r.(state := ProcessingBody)), data)
  }

  lemma LimitSplit(m: Machine, d: string)
    requires Valid(m) && !m.p.body.Chunked? && 0 < |d| < m.p.remaining && Deliver(m, d).Ok?
    ensures TooLong(Advance(Deliver(m, d).m, |d|)) == TooLong(m)
  {
  }

  lemma LengthPartial(m: Machine, d: string, e: string)
    requires Valid(m) && !m.p.body.Chunked? && 0 < |d| < m.p.remaining && RunLength(m, d).Stop? && e != ""
    ensures RunLength(m, d) == Stop(Advance(Deliver(m, d).m, |d|), "")
    ensures Same(RunLength(m, d + e), RunLength(Advance(Deliver(m, d).m, |d|), e))
  {
    assert d[..|d|] == d;
    LimitSplit(m, d);
    var m1 := Advance(Deliver(m, d).m, |d|);
    var n := Min(m.p.remaining, |d + e|);
    Slices(d, e, n);
    DeliverSplit(m, d, e[..n - |d|]);
    assert n - |d| == Min(m1.p.remaining, |e|);
  }

  lemma LengthRejected(m: Machine, d: string, e: string)
    requires Valid(m) && !m.p.body.Chunked? && RunLength(m, d).Rejected?
    ensures RunLength(m, d + e).Rejected?
  {
    var n, k := Min(m.p.remaining, |d|), Min(m.p.remaining, |d + e|);
    if !TooLong(m) {
      assert Deliver(m, d[..n]).Fail? && |(d + e)[..k]| >= |d[..n]|;
    }
  }

  lemma LengthFinished(m: Machine, d: string, e: string)
    requires Valid(m) && !m.p.body.Chunked? && RunLength(m, d).Stop? && m.p.remaining <= |d|
    ensures RunLength(m, d + e) == Stop(RunLength(m, d).m, RunLength(m, d).rest + e)
    ensures RunLength(m, d).m.r.state.Completed?
  {
    Slices(d, e, m.p.remaining);
  }

  lemma LengthSplit(m: Machine, d: string, e: string)
    requires Valid(m) && !m.p.body.Chunked? && !m.r.state.Completed? && RunLength(m, d).Stop?
    ensures var o := RunLength(m, d);
              if o.m.r.state.Completed? then RunLength(m, d + e) == Stop(o.m, o.rest + e)
              else Same(RunLength(m, d + e), RunLength(o.m, o.rest + e))
  {
    if m.p.remaining <= |d| {
      LengthFinished(m, d, e);
    } else if d == "" {
      assert d + e == e && d[0..] + e == e;
      assert Advance(m, 0) == m;
    } else if e == "" {
      assert d + e == d && d[|d|..] + e == "" && d[..|d|] == d;
      LimitSplit(m, d);
      var m1 := Advance(Deliver(m, d).m, |d|);
      assert Advance(m1, 0) == m1;
    } else {
      LengthPartial(m, d, e);
      assert "" + e == e;
    }
  }

  /** A parse call on `d + e` is one on `d` followed by one on what it left and `e`. */
  lemma BodySplit(m: Machine, d: string, e: string)
    requires Valid(m)
    ensures ParseBody(m, d).Rejected? && ShortBody(m, d + e) ==> ParseBody(m, d + e).Rejected?
    ensures ParseBody(m, d).Stop? ==>
              Same(ParseBody(m, d + e), ParseBody(ParseBody(m, d).m, ParseBody(m, d).rest + e))
    ensures ParseBody(m, d).Stop? && ShortBody(m, d + e) ==> ShortBody(ParseBody(m, d).m, ParseBody(m, d).rest + e)
  {
    hide StepChunk, RunLength, ShortLines;
    if !m.r.state.Completed? {
      if m.p.body.Chunked? {
        ChunkedSplit(m.(r := m.r.(state := ProcessingBody)), d, e);
      } else if m.p.body.ContentLength? {
        var m1 := m.(r := m.r.(state := ProcessingBody));
        if RunLength(m1, d).Stop? { LengthSplit(m1, d, e); } else { LengthRejected(m1, d, e); }
      }
    }
  }

  lemma StepPrefix(m: Machine, data: string, k: nat)
    requires Decoding(m) && data != "" && k <= |data|
    requires StepChunk(m, data).Eat? && StepChunk(m, data).n <= k
    requires m.p.chunk.Data? ==> StepChunk(m, data).n < |data|
    ensures StepChunk(m, data[..k]) == StepChunk(m, data)
  {
    var lf := Find(data, '\n');
    var prefix := data[..k];
    if m.p.chunk.Data? {
      assert prefix[..m.p.remaining] == data[..m.p.remaining];
    } else if !m.p.chunk.DataEnd? {
      assert lf < k && prefix[lf] == '\n';
      assert Find(prefix, '\n') == lf;
      assert LineText(prefix, lf) == LineText(data, lf);
    }
  }

  /** When a complete line is longer than an incomplete one may get, cutting inside it
      gets the request rejected. */
  lemma {:induction false} CutIsVisible(m: Machine, data: string) returns (k: nat)
    requires Decoding(m) && !ShortLines(m, data)
    ensures k < |data| && RunChunked(m, data[..k]).Rejected?
    decreases |data|
  {
    if LongLine(m, data) {
      k := LineLimit(m) + 1;
      assert Find(data[..k], '\n') == k;
    } else {
      hide StepChunk, LongLine;
      var s := StepChunk(m, data);
      var j := CutIsVisible(s.m, data[s.n..]);
      k := s.n + j;
      StepPrefix(m, data, k);
      assert data[..k][s.n..] == data[s.n..][..j];
    }
  }
}
