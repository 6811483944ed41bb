/** The chunked framing of the output side, and the proof that the request decoder undoes it
    however the bytes travel (RFC 7230, section 4.1). */
module ChunkedCodec {
  import opened Wrappers
  import opened Bytes
  import opened HttpMachine
  import opened Fragmentation
  import opened Driver
  import opened Requests
  import opened ChunkGrammar

  const END_OF_CHUNKED_STREAM := "0\r\n\r\n"

  // ---------------------------------------------------------------- framing

  function HexChar(d: nat): (c: char)
    requires d < 16
    ensures IsHex(c) && HexDigit(c) == d
  {
    if d < 10 then ('0' as int + d) as char else ('a' as int + d - 10) as char
  }

  /** std::to_chars(..., 16) */
  function HexText(n: nat): (s: string)
    ensures s != "" && forall i :: 0 <= i < |s| ==> IsHex(s[i])
  {
    if n < 16 then [HexChar(n)] else HexText(n / 16) + [HexChar(n % 16)]
  }

  /** A write of `piece`, which is dropped when it is empty: it would end the body. */
  function Frame(piece: string): string
  {
    if piece == "" then "" else HexText(|piece|) + ("\r\n" + (piece + "\r\n"))
  }

  function Frames(pieces: seq<string>): string
  {
    if pieces == [] then "" else Frame(pieces[0]) + Frames(pieces[1..])
  }

  /** Everything a chunked stream sends for these writes, from its creation to its end. */
  function Encode(pieces: seq<string>): string { Frames(pieces) + END_OF_CHUNKED_STREAM }

  // ---------------------------------------------------------------- sizes

  lemma {:induction false} HexOfText(n: nat)
    ensures Hex(HexText(n)) == n
  {
    if n >= 16 {
      HexOfText(n / 16);
      var s := HexText(n);
      assert s[..|s| - 1] == HexText(n / 16);
    } else {
      var s := [HexChar(n)];
      assert s[..0] == "";
      assert Hex(s) == 16 * Hex("") + HexDigit(s[0]);
    }
  }

  lemma {:induction false} HexLength(n: nat, digits: nat)
    requires n < Pow16(digits) && digits > 0
    ensures |HexText(n)| <= digits
    decreases digits
  {
    if n >= 16 { HexLength(n / 16, digits - 1); }
  }

  lemma SizeTextShort(n: nat)
    requires n <= CHUNKED_DATA
    ensures |HexText(n)| <= 16
  {
    assert Pow16(4) == 0x1_0000;
    assert Pow16(8) == 0x1_0000 * Pow16(4);
    assert Pow16(12) == 0x1_0000 * Pow16(8);
    assert Pow16(16) == 0x1_0000 * Pow16(12);
    HexLength(n, 16);
  }

  // ---------------------------------------------------------------- framed writes as a chunked text

  function SizeLineOf(n: nat): SizeLine { SizeLine(HexText(n), "", "", "\r\n") }

  function ChunkOf(piece: string): ChunkText { ChunkText(SizeLineOf(|piece|), piece, "\r\n") }

  function ChunksOf(pieces: seq<string>): seq<ChunkText>
  {
    if pieces == [] then []
    else (if pieces[0] == "" then [] else [ChunkOf(pieces[0])]) + ChunksOf(pieces[1..])
  }

  function BodyFor(pieces: seq<string>): ChunkedText { ChunkedText(ChunksOf(pieces), SizeLineOf(0), [], "\r\n") }

  predicate Sized(pieces: seq<string>) { forall i :: 0 <= i < |pieces| ==> |pieces[i]| <= CHUNKED_DATA }

  lemma GoodSizeLine(n: nat)
    requires n <= CHUNKED_DATA
    ensures GoodSize(SizeLineOf(n), n) && SizeText(SizeLineOf(n)) == HexText(n) && ShortSize(SizeLineOf(n))
  {
    HexOfText(n);
    SizeTextShort(n);
    hide HexText, Hex;
    assert HexText(n) + ("" + "") == HexText(n);
  }

  lemma SizeParses(n: nat)
    requires n <= CHUNKED_DATA
    ensures ChunkSize(HexText(n)) == Some(n)
  {
    GoodSizeLine(n);
    SizeRead(SizeLineOf(n), n);
  }

  /** A framed write is a chunk of the grammar. */
  lemma FrameIsChunk(piece: string, after: string)
    requires piece != "" && |piece| <= CHUNKED_DATA
    ensures GoodChunk(ChunkOf(piece)) && ShortSize(ChunkOf(piece).line)
    ensures Frame(piece) + after == ChunkBytes(ChunkOf(piece), after)
  {
    GoodSizeLine(|piece|);
    hide SizeText, HexText, GoodSize;
    var text := HexText(|piece|);
    assert text + ("\r\n" + (piece + "\r\n")) + after == text + ("\r\n" + (piece + ("\r\n" + after)));
  }

  lemma {:induction false} FramesAreChunks(pieces: seq<string>, after: string)
    requires Sized(pieces)
    ensures var cs := ChunksOf(pieces);
            && GoodChunks(cs) && ShortChunks(cs) && Payload(cs) == Flatten(pieces)
            && Frames(pieces) + after == ChunksBytes(cs, after)
  {
    hide Frame, GoodChunk, ShortSize, ChunkBytes;
    if pieces == [] {
      assert Frames(pieces) + after == after;
    } else {
      var piece, more := pieces[0], pieces[1..];
      FramesAreChunks(more, after);
      assert Frames(pieces) + after == Frame(piece) + (Frames(more) + after);
      if piece == "" {
        EmptyFrame(Frames(more) + after);
        assert ChunksOf(pieces) == ChunksOf(more);
      } else {
        FrameIsChunk(piece, Frames(more) + after);
        assert ChunksOf(pieces)[1..] == ChunksOf(more);
      }
    }
  }

  lemma EmptyFrame(after: string)
    ensures Frame("") + after == after
  {
  }

  /** Everything a chunked stream sends is a body of the grammar which carries what was written. */
  lemma EncodeIsBody(pieces: seq<string>, tail: string)
    requires Sized(pieces)
    ensures var b := BodyFor(pieces); GoodBody(b) && ShortText(b) && Payload(b.chunks) == Flatten(pieces)
    ensures Encode(pieces) + tail == BodyBytes(BodyFor(pieces), tail)
  {
    GoodSizeLine(0);
    hide Frames, GoodSize, ShortSize, GoodChunks, ShortChunks, ChunksBytes, SizeText;
    var b := BodyFor(pieces);
    assert HexText(0) == "0";
    assert EndBytes(b, tail) == "0" + ("\r\n" + ("\r\n" + tail)) == END_OF_CHUNKED_STREAM + tail;
    FramesAreChunks(pieces, END_OF_CHUNKED_STREAM + tail);
    assert Encode(pieces) + tail == Frames(pieces) + (END_OF_CHUNKED_STREAM + tail);
  }

  // ---------------------------------------------------------------- decoding over every cut

  lemma ParsesChunks(m: Machine, data: string)
    requires Decoding(m) && m.p.chunk.Size? && m.r.state.HeadersCompleted?
    ensures var m1 := m.(r := m.r.(state := ProcessingBody));
            && Ready(InBody, m) && !Finished(InBody, m) && Idle(m1)
            && Parse(InBody, m, data) == RunChunked(m1, data) && Short(InBody, m, data) == ShortLines(m1, data)
  {
    hide RunChunked, ShortLines;
  }

  /** A chunked body of the grammar is parsed to its payload, and the rest is left. */
  lemma BodyParses(m: Machine, b: ChunkedText, tail: string)
    requires Decoding(m) && m.p.chunk.Size? && m.r.state.HeadersCompleted? && GoodBody(b) && Admitted(m, b)
    ensures var o := Parse(InBody, m, BodyBytes(b, tail));
            && o.Stop? && o.rest == tail
            && o.m.r == m.r.(state := Completed, delivered := m.r.delivered + Payload(b.chunks))
    ensures Short(InBody, m, BodyBytes(b, tail)) == ShortText(b)
  {
    hide RunChunked, ShortLines, Parse, Short, GoodBody, BodyBytes, ShortText;
    ParsesChunks(m, BodyBytes(b, tail));
    BodyDecodes(m.(r := m.r.(state := ProcessingBody)), b, tail);
  }

  /** A chunked body of the grammar without overlong lines, received in any pieces, delivers exactly
      its payload; the request completes, and what follows stays unread. */
  lemma BodyRoundTrip(m: Machine, b: ChunkedText, tail: string, pending: string, events: seq<Event>)
    requires Decoding(m) && m.p.chunk.Size? && m.r.state.HeadersCompleted?
    requires GoodBody(b) && Admitted(m, b) && ShortText(b)
    requires Unbroken(events) && Stream(pending, events) == BodyBytes(b, tail)
    ensures var r := Drive(InBody, m, pending, events);
            && r.Accepted?
            && r.m.r == m.r.(state := Completed, delivered := m.r.delivered + Payload(b.chunks))
            && Stream(r.pending, r.events) == tail
  {
    hide Drive, Parse, Short, GoodBody, BodyBytes, ShortText;
    ParsesChunks(m, BodyBytes(b, tail));
    BodyParses(m, b, tail);
    DriveIsParse(InBody, m, pending, events);
  }

  /** The cuts of a body of the grammar are invisible exactly if it has no overlong line. */
  lemma CutsInvisibleIff(m: Machine, b: ChunkedText, tail: string)
    requires Decoding(m) && m.p.chunk.Size? && m.r.state.HeadersCompleted? && GoodBody(b) && Admitted(m, b)
    ensures CutsInvisible(m, BodyBytes(b, tail)) <==> ShortText(b)
  {
    hide Parse, Short, ShortBody, GoodBody, BodyBytes, ShortText, CutsInvisible, RunChunked, ShortLines;
    ParsesChunks(m, BodyBytes(b, tail));
    BodyParses(m, b, tail);
    FragmentationExact(m, BodyBytes(b, tail));
  }

  /** Bytes framed by a chunked stream, sent and received in any pieces, are decoded to
      exactly what was written; the request completes, and what follows stays unread. */
  lemma ChunkedRoundTrip(m: Machine, pieces: seq<string>, tail: string, pending: string, events: seq<Event>)
    requires Decoding(m) && m.p.chunk.Size? && m.r.state.HeadersCompleted? && Takes(m, |Flatten(pieces)|)
    requires Sized(pieces)
    requires Unbroken(events) && Stream(pending, events) == Encode(pieces) + tail
    ensures var r := Drive(InBody, m, pending, events);
            && r.Accepted? && r.m.r.state.Completed?
            && r.m.r == m.r.(state := Completed, delivered := m.r.delivered + Flatten(pieces))
            && Stream(r.pending, r.events) == tail
  {
    hide Drive, Encode, GoodBody, ShortText, BodyBytes, ChunksOf;
    EncodeIsBody(pieces, tail);
    BodyRoundTrip(m, BodyFor(pieces), tail, pending, events);
  }

  // ---------------------------------------------------------------- a line which is too long

  /** The last chunk with an extension of `n` bytes. */
  function LongLastChunk(n: nat): ChunkedText {
    ChunkedText([], SizeLine("0", "", ";" + seq(n, _ => 'x'), "\r\n"), [], "\r\n")
  }

  /** A chunk-size line of more than 1024 bytes is accepted when it arrives whole, and refused
      when it is cut before its end. */
  lemma LongLineDependsOnCuts(m: Machine, n: nat)
    requires Decoding(m) && m.p.chunk.Size? && m.r.state.HeadersCompleted? && n > MAX_CHUNK_LINE_SIZE
    ensures var data := BodyBytes(LongLastChunk(n), ""); Parse(InBody, m, data).Stop? && !CutsInvisible(m, data)
  {
    var b := LongLastChunk(n);
    assert Hex("0") == 0 by { assert "0"[..0] == ""; assert Hex("0") == 16 * Hex("") + 0; }
    assert GoodSize(b.last, 0) && !ShortSize(b.last);
    hide GoodSize, Parse, CutsInvisible, BodyBytes, ShortSize;
    BodyParses(m, b, "");
    CutsInvisibleIff(m, b, "");
  }
}
