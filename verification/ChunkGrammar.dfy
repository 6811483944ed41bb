/** Chunked bodies as they are written (section 4.1 of RFC 7230, with the liberties the decoder takes):
    which byte strings the decoder takes for one, and what it makes of them. */
module ChunkGrammar {
  import opened Wrappers
  import opened Bytes
  import opened Scanning
  import opened HttpMachine
  import opened Fragmentation

  /** A chunk-size line: the size in hexadecimal digits of either case, whitespace and an extension. */
  datatype SizeLine = SizeLine(digits: string, pad: string, ext: string, eol: string)

  datatype ChunkText = ChunkText(line: SizeLine, data: string, eol: string)

  datatype TrailerLine = TrailerLine(text: string, eol: string)

  /** The chunks, the last chunk, the trailer lines, and the empty line which ends the body. */
  datatype ChunkedText = ChunkedText(
    chunks: seq<ChunkText>, last: SizeLine, trailers: seq<TrailerLine>, end: string)

  predicate GoodSize(l: SizeLine, n: nat) {
    && 0 < |l.digits| <= 16 && AllHex(l.digits) && Hex(l.digits) == n
    && AllOws(l.pad) && (l.ext == "" || (l.ext[0] == ';' && AllValue(l.ext))) && IsEol(l.eol)
  }

  predicate GoodChunk(c: ChunkText) { c.data != "" && GoodSize(c.line, |c.data|) && IsEol(c.eol) }

  predicate GoodChunks(cs: seq<ChunkText>) { forall i :: 0 <= i < |cs| ==> GoodChunk(cs[i]) }

  predicate GoodTrailer(t: TrailerLine) { t.text != "" && AllValue(t.text) && IsEol(t.eol) }

  predicate GoodTrailers(ts: seq<TrailerLine>) { forall i :: 0 <= i < |ts| ==> GoodTrailer(ts[i]) }

  predicate GoodBody(b: ChunkedText) {
    GoodChunks(b.chunks) && GoodSize(b.last, 0) && GoodTrailers(b.trailers) && IsEol(b.end)
  }

  function SizeText(l: SizeLine): string { l.digits + (l.pad + l.ext) }

  function ChunkBytes(c: ChunkText, after: string): string {
    SizeText(c.line) + (c.line.eol + (c.data + (c.eol + after)))
  }

  function ChunksBytes(cs: seq<ChunkText>, after: string): string
  {
    if cs == [] then after else ChunkBytes(cs[0], ChunksBytes(cs[1..], after))
  }

  function TrailersBytes(ts: seq<TrailerLine>, after: string): string
  {
    if ts == [] then after else ts[0].text + (ts[0].eol + TrailersBytes(ts[1..], after))
  }

  /** What follows the chunks. */
  function EndBytes(b: ChunkedText, after: string): string {
    SizeText(b.last) + (b.last.eol + TrailersBytes(b.trailers, b.end + after))
  }

  /** The body as it is written, followed by `after`. */
  function BodyBytes(b: ChunkedText, after: string): string { ChunksBytes(b.chunks, EndBytes(b, after)) }

  lemma {:induction false} TrailersAfter(ts: seq<TrailerLine>, a: string, b: string)
    ensures TrailersBytes(ts, a) + b == TrailersBytes(ts, a + b)
  {
    if ts != [] { TrailersAfter(ts[1..], a, b); }
  }

  lemma {:induction false} ChunksAfter(cs: seq<ChunkText>, a: string, b: string)
    ensures ChunksBytes(cs, a) + b == ChunksBytes(cs, a + b)
  {
    hide SizeText;
    if cs != [] {
      ChunksAfter(cs[1..], a, b);
      var c, rest := cs[0], ChunksBytes(cs[1..], a);
      assert ChunkBytes(c, rest) + b == ChunkBytes(c, rest + b);
    }
  }

  lemma BodyAfter(b: ChunkedText, after: string)
    ensures BodyBytes(b, "") + after == BodyBytes(b, after)
  {
    hide SizeText;
    assert b.end + "" + after == b.end + after;
    TrailersAfter(b.trailers, b.end + "", after);
    assert EndBytes(b, "") + after == EndBytes(b, after);
    ChunksAfter(b.chunks, EndBytes(b, ""), after);
  }

  function Payload(cs: seq<ChunkText>): string
  {
    if cs == [] then "" else cs[0].data + Payload(cs[1..])
  }

  // ---------------------------------------------------------------- lines which are too long

  /** As long as a line may be which is not complete yet. */
  predicate ShortLine(text: string, eol: string, limit: nat) { |text| + |eol| - 1 <= limit }

  predicate ShortSize(l: SizeLine) { ShortLine(SizeText(l), l.eol, MAX_CHUNK_LINE_SIZE) }

  predicate ShortChunks(cs: seq<ChunkText>) { forall i :: 0 <= i < |cs| ==> ShortSize(cs[i].line) }

  predicate ShortTrailers(ts: seq<TrailerLine>) {
    forall i :: 0 <= i < |ts| ==> ShortLine(ts[i].text, ts[i].eol, MAX_HEAD_SIZE)
  }

  /** No line of the body is too long to arrive in pieces. */
  predicate ShortText(b: ChunkedText) { ShortChunks(b.chunks) && ShortSize(b.last) && ShortTrailers(b.trailers) }

  // ---------------------------------------------------------------- chunk-size lines

  lemma NoneBefore(before: string, text: string, after: string)
    requires AllOws(before) && AllOws(after)
    requires var s := before + (text + after); s != "" && !IsOws(s[0])
    ensures before == "" && text != ""
  {
  }

  lemma ExtensionTrims(pad: string, ext: string)
    requires AllOws(pad) && (ext == "" || (ext[0] == ';' && AllValue(ext)))
    ensures var t := TrimOws(pad + ext); if ext == "" then t == "" else t != "" && t[0] == ';' && AllValue(t)
  {
    hide TrimOws;
    if ext == "" {
      assert pad + ext == pad + ("" + "");
      TrimOf(pad, "", "");
    } else {
      var before, after := TrimSplit(ext);
      var t := TrimOws(ext);
      NoneBefore(before, t, after);
      assert ext == t + after;
      TrimOf(pad, t, after);
      assert t[0] == ext[0] && forall i :: 0 <= i < |t| ==> t[i] == ext[i];
    }
  }

  lemma DigitsFound(digits: string, more: string)
    requires AllHex(digits) && (more == "" || !IsHex(more[0]))
    ensures var text := digits + more;
            HexPrefix(text) == |digits| && text[..|digits|] == digits && text[|digits|..] == more
  {
    var text := digits + more;
    hide HexFrom;
    assert more != "" ==> text[|digits|] == more[0];
    assert forall i :: 0 <= i < |digits| ==> text[i] == digits[i];
  }

  lemma SizeRead(l: SizeLine, n: nat)
    requires GoodSize(l, n)
    ensures ChunkSize(SizeText(l)) == Some(n) && OneLine(SizeText(l))
  {
    var more, s := l.pad + l.ext, SizeText(l);
    ExtensionTrims(l.pad, l.ext);
    OneLines(l.ext);
    forall i | 0 <= i < |s| ensures s[i] != '\r' && s[i] != '\n' {
      var k := i - |l.digits|;
      if k < 0 {
        assert IsHex(s[i]);
      } else if k < |l.pad| {
        assert IsOws(s[i]);
      } else {
        assert s[i] == l.ext[k - |l.pad|];
      }
    }
    assert more == "" || !IsHex(more[0]) by {
      if l.pad != "" { assert IsOws(more[0]); } else { assert more == l.ext; }
    }
    hide TrimOws, Hex, HexPrefix, AllValue;
    DigitsFound(l.digits, more);
  }

  /** A line which is read as a size was written as one. */
  lemma SizeWritten(text: string, eol: string) returns (l: SizeLine)
    requires ChunkSize(text).Some? && IsEol(eol)
    ensures GoodSize(l, ChunkSize(text).value) && SizeText(l) == text && l.eol == eol
  {
    var digits := HexPrefix(text);
    var more := text[digits..];
    var before, after := TrimSplit(more);
    var ext := TrimOws(more);
    hide TrimOws, Hex, HexFrom;
    if ext == "" {
      assert before + ("" + after) == before + after;
      l := SizeLine(text[..digits], before + after, "", eol);
      assert (before + after) + "" == more;
    } else {
      l := SizeLine(text[..digits], before, ext + after, eol);
      WithBlanks(ext, after);
      assert (ext + after)[0] == ext[0];
    }
  }

  lemma WithBlanks(ext: string, after: string)
    requires AllValue(ext) && AllOws(after)
    ensures AllValue(ext + after)
  {
  }

  // ---------------------------------------------------------------- steps of the decoder

  /** The decoder is at a chunk-size line. */
  predicate Idle(m: Machine) { Decoding(m) && m.p.chunk.Size? && m.r.state.ProcessingBody? }

  /** The callback and the limit take `n` more bytes. */
  predicate Takes(m: Machine, n: nat) {
    m.r.hasCallback && (m.r.maxBody == 0 || m.p.received + n <= m.r.maxBody)
  }

  function After(m: Machine, piece: string): Machine {
    Machine(m.p.(received := m.p.received + |piece|, remaining := 0), m.r.(delivered := m.r.delivered + piece))
  }

  /** Behind a chunk-size line. */
  function WithSize(m: Machine, n: nat): Machine {
    m.(p := m.p.(remaining := n, chunk := if n > 0 then Data else Trailers))
  }

  lemma SizeStep(m: Machine, l: SizeLine, n: nat, after: string)
    requires Idle(m) && GoodSize(l, n)
    ensures var data := SizeText(l) + (l.eol + after);
            && data != "" && StepChunk(m, data) == Eat(WithSize(m, n), |SizeText(l)| + |l.eol|)
            && data[|SizeText(l)| + |l.eol|..] == after && LongLine(m, data) == !ShortSize(l)
  {
    hide Find, LineText, ChunkSize, SizeText, OneLine, Hex, AllHex, AllOws, AllValue, StepTrailer, StepData,
         StepDataEnd;
    SizeRead(l, n);
    LineOf(SizeText(l), l.eol, after);
    Full(SizeText(l), l.eol, after);
  }

  lemma DataStep(m: Machine, piece: string, after: string)
    requires Idle(m) && piece != "" && Takes(m, |piece|)
    ensures var m1 := WithSize(m, |piece|);
            && StepChunk(m1, piece + after) == Eat(After(m, piece).(p := After(m, piece).p.(chunk := DataEnd)), |piece|)
            && (piece + after)[|piece|..] == after
            && !LongLine(m1, piece + after)
  {
    assert (piece + after)[..|piece|] == piece;
  }

  lemma EndStep(m: Machine, eol: string, after: string)
    requires Decoding(m) && m.p.chunk.DataEnd? && IsEol(eol)
    ensures StepChunk(m, eol + after) == Eat(m.(p := m.p.(chunk := Size)), |eol|)
    ensures (eol + after)[|eol|..] == after && !LongLine(m, eol + after)
  {
    assert (eol + after)[0] == eol[0] && (|eol| == 2 ==> (eol + after)[1] == eol[1]);
  }

  lemma OneStep(m: Machine, data: string, m1: Machine, n: nat)
    requires Decoding(m) && data != "" && !m.r.state.Completed? && StepChunk(m, data) == Eat(m1, n)
    ensures n <= |data| && Decoding(m1)
    ensures RunChunked(m, data) == RunChunked(m1, data[n..])
    ensures ShortLines(m, data) == (!LongLine(m, data) && ShortLines(m1, data[n..]))
  {
    hide StepChunk, LongLine;
  }

  lemma ChunkDecodes(m: Machine, c: ChunkText, after: string)
    requires Idle(m) && GoodChunk(c) && Takes(m, |c.data|)
    ensures Idle(After(m, c.data))
    ensures RunChunked(m, ChunkBytes(c, after)) == RunChunked(After(m, c.data), after)
    ensures ShortLines(m, ChunkBytes(c, after)) == (ShortSize(c.line) && ShortLines(After(m, c.data), after))
  {
    hide StepChunk, LongLine, SizeText, RunChunked, ShortLines, ShortSize, GoodSize;
    var data1 := c.data + (c.eol + after);
    var m1, m2 := WithSize(m, |c.data|), After(m, c.data).(p := After(m, c.data).p.(chunk := DataEnd));
    SizeStep(m, c.line, |c.data|, data1);
    OneStep(m, ChunkBytes(c, after), m1, |SizeText(c.line)| + |c.line.eol|);
    DataStep(m, c.data, c.eol + after);
    OneStep(m1, data1, m2, |c.data|);
    EndStep(m2, c.eol, after);
    OneStep(m2, c.eol + after, After(m, c.data), |c.eol|);
  }

  /** The decoder after these chunks. */
  function AfterAll(m: Machine, cs: seq<ChunkText>): (m': Machine)
    ensures m'.p == m.p.(received := m.p.received + |Payload(cs)|, remaining := m'.p.remaining)
    ensures m'.r == m.r.(delivered := m.r.delivered + Payload(cs))
    decreases |cs|
  {
    if cs == [] then
      assert m.r.delivered + "" == m.r.delivered;
      m
    else
      assert m.r.delivered + Payload(cs) == m.r.delivered + cs[0].data + Payload(cs[1..]);
      AfterAll(After(m, cs[0].data), cs[1..])
  }

  lemma {:induction false} ChunksDecode(m: Machine, cs: seq<ChunkText>, after: string)
    requires Idle(m) && GoodChunks(cs) && (cs == [] || Takes(m, |Payload(cs)|))
    ensures Idle(AfterAll(m, cs))
    ensures RunChunked(m, ChunksBytes(cs, after)) == RunChunked(AfterAll(m, cs), after)
    ensures ShortLines(m, ChunksBytes(cs, after)) == (ShortChunks(cs) && ShortLines(AfterAll(m, cs), after))
    decreases |cs|
  {
    hide ChunkBytes, RunChunked, ShortLines, GoodChunk, ShortSize, ShortChunks;
    if cs == [] {
      assert ShortChunks([]) by { NoChunks(); }
    } else {
      ChunkDecodes(m, cs[0], ChunksBytes(cs[1..], after));
      ChunksDecode(After(m, cs[0].data), cs[1..], after);
      FirstShort(cs);
    }
  }

  lemma NoChunks()
    ensures ShortChunks([])
  {
  }

  lemma FirstShort(cs: seq<ChunkText>)
    requires cs != []
    ensures ShortChunks(cs) <==> ShortSize(cs[0].line) && ShortChunks(cs[1..])
  {
    hide ShortSize;
    assert forall i :: 0 < i < |cs| ==> cs[i] == cs[1..][i - 1];
  }

  // ---------------------------------------------------------------- trailers

  predicate InTrailers(m: Machine) { Decoding(m) && m.p.chunk.Trailers? && m.r.state.ProcessingBody? }

  lemma TrailerStep(m: Machine, t: TrailerLine, after: string)
    requires InTrailers(m) && GoodTrailer(t) && m.p.headers < MAX_HEADERS_COUNT
    ensures var data := t.text + (t.eol + after);
            && data != "" && StepChunk(m, data) == Eat(m.(p := m.p.(headers := m.p.headers + 1)), |t.text| + |t.eol|)
            && data[|t.text| + |t.eol|..] == after && LongLine(m, data) == !ShortLine(t.text, t.eol, MAX_HEAD_SIZE)
  {
    hide Find, LineText, AllValue, OneLine, StepSize, StepData, StepDataEnd;
    OneLines(t.text);
    LineOf(t.text, t.eol, after);
    Full(t.text, t.eol, after);
  }

  lemma Full(text: string, eol: string, after: string)
    requires IsEol(eol)
    ensures |text + (eol + after)| == |text| + |eol| + |after| > 0
  {
  }

  lemma NoTrailers()
    ensures ShortTrailers([])
  {
  }

  lemma ShortFirst(ts: seq<TrailerLine>)
    requires ts != []
    ensures ShortTrailers(ts) <==> ShortLine(ts[0].text, ts[0].eol, MAX_HEAD_SIZE) && ShortTrailers(ts[1..])
  {
    assert forall i :: 0 < i < |ts| ==> ts[i] == ts[1..][i - 1];
  }

  lemma EmptyStep(m: Machine, end: string, after: string)
    requires InTrailers(m) && IsEol(end)
    ensures RunChunked(m, end + after) == Stop(m.(r := m.r.(state := Completed)), after)
    ensures ShortLines(m, end + after)
  {
    var m' := m.(r := m.r.(state := Completed));
    LineOf("", end, after);
    assert "" + (end + after) == end + after;
    assert StepChunk(m, end + after) == Eat(m', |end|) && !LongLine(m, end + after) by { hide Find, LineText; }
    hide StepChunk, LongLine;
    OneStep(m, end + after, m', |end|);
  }

  lemma {:induction false} TrailersDecode(m: Machine, ts: seq<TrailerLine>, end: string, after: string)
    requires InTrailers(m) && GoodTrailers(ts) && IsEol(end) && (ts == [] || m.p.headers + |ts| <= MAX_HEADERS_COUNT)
    ensures var m' := Machine(m.p.(headers := m.p.headers + |ts|), m.r.(state := Completed));
            RunChunked(m, TrailersBytes(ts, end + after)) == Stop(m', after)
    ensures ShortLines(m, TrailersBytes(ts, end + after)) == ShortTrailers(ts)
    decreases |ts|
  {
    hide StepChunk, LongLine, RunChunked, ShortLines, GoodTrailer, ShortLine, ShortTrailers;
    if ts == [] {
      assert ShortTrailers([]) by { NoTrailers(); }
      EmptyStep(m, end, after);
    } else {
      var t, rest := ts[0], TrailersBytes(ts[1..], end + after);
      var m1 := m.(p := m.p.(headers := m.p.headers + 1));
      TrailerStep(m, t, rest);
      OneStep(m, t.text + (t.eol + rest), m1, |t.text| + |t.eol|);
      TrailersDecode(m1, ts[1..], end, after);
      ShortFirst(ts);
    }
  }

  // ---------------------------------------------------------------- whole bodies

  /** The trailers are within what the fields have left of the budget, and the callback and the limit
      take the payload. */
  predicate Admitted(m: Machine, b: ChunkedText) {
    && (b.trailers == [] || m.p.headers + |b.trailers| <= MAX_HEADERS_COUNT)
    && (b.chunks == [] || Takes(m, |Payload(b.chunks)|))
  }

  /** The machine after the body. */
  function Decoded(m: Machine, b: ChunkedText): Machine {
    var m1 := AfterAll(m, b.chunks);
    Machine(m1.p.(remaining := 0, chunk := Trailers, headers := m.p.headers + |b.trailers|),
            m1.r.(state := Completed))
  }

  lemma EndDecodes(m: Machine, b: ChunkedText, after: string)
    requires Idle(m) && GoodBody(b) && (b.trailers == [] || m.p.headers + |b.trailers| <= MAX_HEADERS_COUNT)
    ensures RunChunked(m, EndBytes(b, after)) ==
            Stop(Machine(m.p.(remaining := 0, chunk := Trailers, headers := m.p.headers + |b.trailers|),
                         m.r.(state := Completed)), after)
    ensures ShortLines(m, EndBytes(b, after)) == (ShortSize(b.last) && ShortTrailers(b.trailers))
  {
    hide StepChunk, LongLine, RunChunked, ShortLines, SizeText, ShortSize, GoodSize, GoodTrailers, ShortTrailers;
    var rest := TrailersBytes(b.trailers, b.end + after);
    SizeStep(m, b.last, 0, rest);
    OneStep(m, EndBytes(b, after), WithSize(m, 0), |SizeText(b.last)| + |b.last.eol|);
    TrailersDecode(WithSize(m, 0), b.trailers, b.end, after);
  }

  /** A body of the grammar which is admitted is decoded to its payload, trailers and extensions
      included; the request completes and exactly the rest is left. */
  lemma BodyDecodes(m: Machine, b: ChunkedText, after: string)
    requires Idle(m) && GoodBody(b) && Admitted(m, b)
    ensures RunChunked(m, BodyBytes(b, after)) == Stop(Decoded(m, b), after)
    ensures ShortLines(m, BodyBytes(b, after)) == ShortText(b)
  {
    hide RunChunked, ShortLines, EndBytes, ShortSize, ShortChunks, ShortTrailers, GoodChunks;
    ChunksDecode(m, b.chunks, EndBytes(b, after));
    EndDecodes(AfterAll(m, b.chunks), b, after);
  }

  // ---------------------------------------------------------------- what a complete body looks like

  predicate Completes(m: Machine, data: string)
    requires Decoding(m)
  {
    RunChunked(m, data).Stop? && RunChunked(m, data).m.r.state.Completed?
  }

  lemma Onward(m: Machine, data: string)
    requires Decoding(m) && !m.r.state.Completed? && Completes(m, data)
    ensures data != "" && StepChunk(m, data).Eat?
    ensures var s := StepChunk(m, data);
            Completes(s.m, data[s.n..]) && RunChunked(m, data) == RunChunked(s.m, data[s.n..])
  {
    hide StepChunk;
  }

  lemma SizeTaken(m: Machine, data: string) returns (l: SizeLine, n: nat, data1: string)
    requires Idle(m) && Completes(m, data)
    ensures GoodSize(l, n) && data == SizeText(l) + (l.eol + data1) && |data1| < |data|
    ensures Completes(WithSize(m, n), data1) && RunChunked(m, data) == RunChunked(WithSize(m, n), data1)
  {
    hide Find, LineText, ChunkSize, RunChunked, SizeText, GoodSize;
    Onward(m, data);
    var lf := Find(data, '\n');
    var text := LineText(data, lf);
    var eol := LineSplit(data);
    l := SizeWritten(text, eol);
    n, data1 := ChunkSize(text).value, data[lf + 1..];
  }

  lemma {:induction false} TrailersTaken(m: Machine, data: string) returns (ts: seq<TrailerLine>, end: string)
    requires InTrailers(m) && Completes(m, data)
    ensures GoodTrailers(ts) && IsEol(end) && (ts == [] || m.p.headers + |ts| <= MAX_HEADERS_COUNT)
    ensures data == TrailersBytes(ts, end + RunChunked(m, data).rest)
    decreases |data|
  {
    hide Find, LineText, AllValue, RunChunked;
    Onward(m, data);
    var lf := Find(data, '\n');
    var text, s := LineText(data, lf), StepChunk(m, data);
    var eol := LineSplit(data);
    if text == "" {
      ts, end := [], eol;
      AlreadyDone(s.m, data[lf + 1..]);
    } else {
      ts, end := TrailersTaken(s.m, data[lf + 1..]);
      var all := [TrailerLine(text, eol)] + ts;
      assert all[1..] == ts;
      ts := all;
    }
  }

  lemma AlreadyDone(m: Machine, data: string)
    requires Decoding(m) && m.r.state.Completed?
    ensures RunChunked(m, data) == Stop(m, data)
  {
  }

  lemma PieceTaken(m: Machine, n: nat, data: string)
    requires Idle(m) && n > 0 && Completes(WithSize(m, n), data)
    ensures n <= |data| && Takes(m, n)
    ensures var m2 := After(m, data[..n]).(p := After(m, data[..n]).p.(chunk := DataEnd));
            Completes(m2, data[n..]) && RunChunked(WithSize(m, n), data) == RunChunked(m2, data[n..])
  {
    hide RunChunked, StepChunk;
    CutShort(m, n, data);
    Onward(WithSize(m, n), data);
    DataEaten(m, n, data);
  }

  /** A body which ends inside a chunk is not complete. */
  lemma CutShort(m: Machine, n: nat, data: string)
    requires Idle(m) && n > 0
    ensures |data| < n ==> !Completes(WithSize(m, n), data)
  {
    if 0 < |data| < n {
      assert data[|data|..] == "";
      hide StepChunk, LongLine;
      var s := StepChunk(WithSize(m, n), data);
      if s.Eat? {
        DataEaten(m, n, data);
        OneStep(WithSize(m, n), data, s.m, s.n);
      }
    }
  }

  lemma DataEaten(m: Machine, n: nat, data: string)
    requires Idle(m) && n > 0 && data != "" && StepChunk(WithSize(m, n), data).Eat?
    ensures var s := StepChunk(WithSize(m, n), data);
            if |data| < n then s.n == |data| && !s.m.r.state.Completed?
            else s.n == n && Takes(m, n) && s.m == After(m, data[..n]).(p := After(m, data[..n]).p.(chunk := DataEnd))
  {
  }

  lemma EndTaken(m: Machine, data: string) returns (eol: string)
    requires Decoding(m) && m.p.chunk.DataEnd? && m.r.state.ProcessingBody? && Completes(m, data)
    ensures IsEol(eol) && eol <= data
    ensures var m' := m.(p := m.p.(chunk := Size));
            Completes(m', data[|eol|..]) && RunChunked(m, data) == RunChunked(m', data[|eol|..])
  {
    Onward(m, data);
    hide RunChunked;
    eol := data[..Terminator(data)];
  }

  /** What the decoder takes for a complete body was written as one, and admitted. */
  lemma {:induction false} BodyWritten(m: Machine, data: string) returns (b: ChunkedText)
    requires Idle(m) && Completes(m, data)
    ensures GoodBody(b) && Admitted(m, b) && data == BodyBytes(b, RunChunked(m, data).rest)
    decreases |data|
  {
    hide RunChunked, GoodSize, SizeText, GoodTrailers, TrailersBytes;
    var l, n, data1 := SizeTaken(m, data);
    var rest := RunChunked(m, data).rest;
    if n == 0 {
      var ts, end := TrailersTaken(WithSize(m, 0), data1);
      b := ChunkedText([], l, ts, end);
    } else {
      PieceTaken(m, n, data1);
      var piece := data1[..n];
      var eol := EndTaken(After(m, piece).(p := After(m, piece).p.(chunk := DataEnd)), data1[n..]);
      var data3 := data1[n..][|eol|..];
      b := BodyWritten(After(m, piece), data3);
      b := AddChunk(m, ChunkText(l, piece, eol), b, rest);
      assert data1 == piece + (eol + data3);
    }
  }

  lemma AddChunk(m: Machine, c: ChunkText, b: ChunkedText, after: string) returns (b': ChunkedText)
    requires GoodChunk(c) && GoodBody(b) && Takes(m, |c.data|) && Admitted(After(m, c.data), b)
    ensures GoodBody(b') && Admitted(m, b') && BodyBytes(b', after) == ChunkBytes(c, BodyBytes(b, after))
  {
    hide GoodChunk, GoodSize, GoodTrailers;
    b' := b.(chunks := [c] + b.chunks);
    assert b'.chunks[1..] == b.chunks;
    assert EndBytes(b', after) == EndBytes(b, after);
    assert |Payload(b'.chunks)| == |c.data| + |Payload(b.chunks)|;
  }

  /** The bytes which are decoded as a complete chunked body, over all byte strings: exactly the bodies
      of the grammar which are admitted. */
  lemma CompleteIff(m: Machine, data: string, m': Machine, rest: string)
    requires Idle(m)
    ensures RunChunked(m, data) == Stop(m', rest) && m'.r.state.Completed? <==>
            exists b :: GoodBody(b) && Admitted(m, b) && data == BodyBytes(b, rest) && m' == Decoded(m, b)
  {
    hide RunChunked, GoodBody, Admitted, BodyBytes, ShortLines, ShortText;
    if RunChunked(m, data) == Stop(m', rest) && m'.r.state.Completed? {
      var b := BodyWritten(m, data);
      BodyDecodes(m, b, rest);
    }
    if b :| GoodBody(b) && Admitted(m, b) && data == BodyBytes(b, rest) && m' == Decoded(m, b) {
      BodyDecodes(m, b, rest);
    }
  }
}
