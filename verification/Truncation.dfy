/** What the peer can make of a chunked body whose writer failed: the terminating chunk is sent by a
    destructor, so it follows whatever part of a chunk went out before. */
module Truncation {
  import opened Bytes
  import opened ChunkedCodec
  import opened OutStreams

  /** `sent` is one chunked body which carries `body`. */
  ghost predicate Carries(sent: string, body: string) {
    exists pieces :: sent == Encode(pieces) && Flatten(pieces) == body
  }

  /** `sent` is the beginning of a chunked body which carries the beginning of `body`. */
  ghost predicate Begins(sent: string, body: string) {
    exists pieces :: sent <= Encode(pieces) && Flatten(pieces) <= body
  }

  /** Complete chunks, a part of one more, and a part of the terminating chunk; or the whole body and
      only a part of the terminating chunk. */
  predicate Torn(sent: string, body: string, log: seq<string>, piece: string, p: string, q: string) {
    && sent == Frames(log) + (p + q) && q <= END_OF_CHUNKED_STREAM && Flatten(log) + piece <= body
    && (p < Frame(piece) || (p == "" && Flatten(log) == body && q < END_OF_CHUNKED_STREAM))
  }

  ghost predicate BreaksOff(sent: string, body: string) {
    exists log, piece, p, q :: Torn(sent, body, log, piece, p, q)
  }

  /** The terminating chunk reads as a continuation of the chunk it interrupts: of its data, or of its
      size, which its first character multiplies by sixteen. `rest` is what was to be written. */
  predicate ReadsOn(piece: string, p: string, q: string, rest: string) {
    || p + q <= Frame(piece)
    || (AllHex(p) && 16 * Hex(p) <= |rest| && p + q <= Frame(rest[..16 * Hex(p)]))
  }

  // ---------------------------------------------------------------- sizes

  lemma {:induction false} FirstDigit(n: nat)
    requires n > 0
    ensures HexText(n)[0] != '0'
  {
    if n >= 16 { FirstDigit(n / 16); }
  }

  /** A chunk-size line has only one size. */
  lemma SizeDetermined(m: nat, n: nat, s: string)
    requires HexText(m) + "\r" <= s && HexText(n) + "\r" <= s
    ensures m == n
  {
    var a, b := HexText(m), HexText(n);
    assert s[|a|] == '\r' && s[|b|] == '\r';
    assert forall i :: 0 <= i < |a| ==> s[i] == a[i];
    assert forall i :: 0 <= i < |b| ==> s[i] == b[i];
    assert |a| == |b|;
    assert a == b;
    HexOfText(m);
    HexOfText(n);
  }

  /** The first digits of a number are a number. */
  lemma {:induction false} TextPrefix(n: nat, k: nat) returns (v: nat)
    requires n > 0 && 0 < k <= |HexText(n)|
    ensures 0 < v <= n && HexText(v) == HexText(n)[..k]
  {
    v := n;
    if k < |HexText(n)| {
      v := TextPrefix(n / 16, k);
      assert HexText(n)[..k] == HexText(n / 16)[..k];
    } else {
      assert HexText(n)[..k] == HexText(n);
    }
  }

  lemma TimesSixteen(u: nat)
    requires u > 0
    ensures HexText(16 * u) == HexText(u) + "0"
  {
    assert (16 * u) / 16 == u && (16 * u) % 16 == 0;
    assert HexChar(0) == '0';
  }

  // ---------------------------------------------------------------- chunks

  lemma EncodeFirst(pieces: seq<string>)
    requires pieces != []
    ensures Encode(pieces) == Frame(pieces[0]) + Encode(pieces[1..])
  {
  }

  lemma FrameText(c: string, y: string)
    requires c != ""
    ensures Frame(c) + y == HexText(|c|) + "\r" + ("\n" + (c + "\r\n") + y)
    ensures |Frame(c)| == |HexText(|c|)| + 4 + |c| && HexText(|c|) <= Frame(c)
  {
    hide HexText;
  }

  lemma FrameStarts(piece: string, x: string)
    requires piece != ""
    ensures HexText(|piece|) + "\r" <= Frame(piece) + x
    ensures Frame(piece) != "" && Frame(piece)[0] != '0' && IsHex(Frame(piece)[0])
  {
    FirstDigit(|piece|);
    FrameText(piece, x);
    hide HexText, Frame;
    assert Frame(piece)[0] == HexText(|piece|)[0];
  }

  lemma {:induction false} EncodeStarts(pieces: seq<string>)
    ensures |Encode(pieces)| >= |END_OF_CHUNKED_STREAM| && IsHex(Encode(pieces)[0])
  {
    assert Encode([]) == END_OF_CHUNKED_STREAM;
    hide Frame, Encode;
    if pieces != [] {
      EncodeFirst(pieces);
      EncodeStarts(pieces[1..]);
      if pieces[0] != "" { FrameStarts(pieces[0], ""); } else { EmptyFrame(""); }
    }
  }

  /** What does not start with the terminating chunk starts with another one. */
  lemma {:induction false} FirstChunk(pieces: seq<string>, x: string) returns (c: string, more: seq<string>)
    requires x != "" && x[0] != '0' && x <= Encode(pieces)
    ensures c != "" && Encode(pieces) == Frame(c) + Encode(more) && Flatten(pieces) == c + Flatten(more)
  {
    assert Encode([]) == END_OF_CHUNKED_STREAM;
    hide Frame, Encode;
    c, more := "", [];
    if pieces != [] {
      EncodeFirst(pieces);
      if pieces[0] == "" {
        EmptyFrame("");
        c, more := FirstChunk(pieces[1..], x);
      } else {
        c, more := pieces[0], pieces[1..];
      }
    }
  }

  /** Two chunks at the same place are the same chunk. */
  lemma SameChunk(a: string, x: string, b: string, y: string)
    requires a != "" && b != "" && Frame(a) + x <= Frame(b) + y
    ensures a == b && x <= y && (Frame(a) + x == Frame(b) + y ==> x == y)
  {
    FrameText(a, x);
    FrameText(b, y);
    hide HexText, Frame;
    var s, text := Frame(b) + y, HexText(|a|);
    assert text + "\r" <= s;
    SizeDetermined(|a|, |b|, s);
    SamePayload(text, a, x, b, y);
  }

  lemma SamePayload(text: string, a: string, x: string, b: string, y: string)
    requires |a| == |b|
    requires text + "\r" + ("\n" + (a + "\r\n") + x) <= text + "\r" + ("\n" + (b + "\r\n") + y)
    ensures a == b && x <= y && (|x| == |y| ==> x == y)
  {
    var s, s', h := text + "\r" + ("\n" + (a + "\r\n") + x), text + "\r" + ("\n" + (b + "\r\n") + y), |text| + 2;
    assert a == s[h..h + |a|] && b == s'[h..h + |a|];
    assert x == s[h + |a| + 2..] && y == s'[h + |a| + 2..];
  }

  /** The chunks of a body can be told apart. */
  lemma {:induction false} Strip(log: seq<string>, x: string, pieces: seq<string>) returns (more: seq<string>)
    requires Frames(log) + x <= Encode(pieces)
    ensures x <= Encode(more) && Flatten(pieces) == Flatten(log) + Flatten(more)
    ensures Frames(log) + x == Encode(pieces) ==> x == Encode(more)
  {
    hide Frame, Encode;
    if log == [] {
      assert Frames(log) + x == x;
      more := pieces;
    } else {
      var later := Frames(log[1..]) + x;
      assert Frames(log) + x == Frame(log[0]) + later;
      if log[0] == "" {
        EmptyFrame("");
        more := Strip(log[1..], x, pieces);
      } else {
        FrameStarts(log[0], later);
        assert (Frames(log) + x)[0] == Frame(log[0])[0];
        var c, tail := FirstChunk(pieces, Frames(log) + x);
        SameChunk(log[0], later, c, Encode(tail));
        more := Strip(log[1..], x, tail);
      }
    }
  }

  // ---------------------------------------------------------------- the interrupted chunk

  lemma PrefixOf(a: string, f: string, y: string)
    requires a <= f + y && |a| <= |f|
    ensures a <= f
  {
    assert a == (f + y)[..|a|] == f[..|a|];
  }

  lemma PrefixTrans(a: string, p: string, q: string, s: string)
    requires a <= p && p + q <= s
    ensures a <= s
  {
    assert a == p[..|a|] == (p + q)[..|a|] == s[..|a|];
  }

  /** Digits followed by a zero are the first digits of the size they stand before. */
  lemma DigitsFit(p: string, q: string, t: string, y: string)
    requires AllHex(p) && AllHex(t) && "" < q <= END_OF_CHUNKED_STREAM && p + q <= t + "\r" + y
    ensures |p| < |t| && t[..|p| + 1] == p + "0"
    ensures |q| > 1 ==> t == p + "0"
  {
    var s := t + "\r" + y;
    assert forall i :: 0 <= i < |p| ==> s[i] == (p + q)[i] == p[i];
    assert s[|p|] == (p + q)[|p|] == '0';
    assert s[|t|] == '\r';
    if |q| > 1 { assert s[|p| + 1] == (p + q)[|p| + 1] == '\r'; }
  }

  lemma PrefixSize(u: nat, n: nat)
    requires u > 0 && n > 0 && HexText(u) + "0" <= HexText(n)
    ensures 16 * u <= n && (HexText(u) + "0" == HexText(n) ==> n == 16 * u)
  {
    TimesSixteen(u);
    var w := TextPrefix(n, |HexText(u)| + 1);
    hide HexText;
    HexOfText(w);
    HexOfText(16 * u);
    HexOfText(n);
  }

  /** The write failed inside the size: what follows makes it another size. */
  lemma InSize(u: nat, q: string, c: string, y: string)
    requires u > 0 && "" < q <= END_OF_CHUNKED_STREAM && c != "" && HexText(u) + q <= Frame(c) + y
    ensures 16 * u <= |c| && HexText(u) + q <= Frame(c[..16 * u])
  {
    var p, t := HexText(u), HexText(|c|);
    hide HexText, Frame;
    FrameText(c, y);
    DigitsFit(p, q, t, "\n" + (c + "\r\n") + y);
    PrefixSize(u, |c|);
    if |q| == 1 {
      assert q == "0";
      TimesSixteen(u);
      FrameText(c[..16 * u], "");
    } else {
      assert c[..16 * u] == c;
      PrefixOf(p + q, Frame(c), y);
    }
  }

  /** The write failed behind the size: the chunk has to go on as it would have. */
  lemma InData(piece: string, p: string, q: string, c: string, y: string)
    requires piece != "" && HexText(|piece|) + "\r" <= p < Frame(piece) && "" < q <= END_OF_CHUNKED_STREAM
    requires c != "" && p + q <= Frame(c) + y && y != "" && IsHex(y[0])
    requires |c| == |piece| ==> c == piece
    ensures p + q <= Frame(piece)
  {
    var s, head := Frame(c) + y, HexText(|piece|) + "\r";
    FrameStarts(c, y);
    hide Frame, HexText;
    PrefixTrans(head, p, q, s);
    SizeDetermined(|piece|, |c|, s);
    Overhang(piece, p, q, y);
    PrefixOf(p + q, Frame(piece), y);
  }

  lemma NoCut(q: string, k: nat)
    requires q <= END_OF_CHUNKED_STREAM && 0 < k < |q|
    ensures q[k - 1] != '\n' || !IsHex(q[k])
  {
    assert q[k - 1] == END_OF_CHUNKED_STREAM[k - 1] && q[k] == END_OF_CHUNKED_STREAM[k];
  }

  /** The terminating chunk does not reach beyond the end of the chunk. */
  lemma Overhang(piece: string, p: string, q: string, y: string)
    requires piece != "" && p < Frame(piece) && q <= END_OF_CHUNKED_STREAM && y != "" && IsHex(y[0])
    ensures |p + q| <= |Frame(piece)| || !(p + q <= Frame(piece) + y)
  {
    var f := Frame(piece);
    var k := |f| - |p|;
    assert f[|f| - 1] == '\n';
    hide Frame;
    if k < |q| {
      NoCut(q, k);
      assert (p + q)[|p| + k] == q[k] && (p + q)[|p| + k - 1] == q[k - 1];
      assert (f + y)[|p| + k] == y[0] && (f + y)[|p| + k - 1] == '\n';
    }
  }

  /** Inside a chunk only what reads on is still the beginning of a body. */
  lemma Interrupted(piece: string, p: string, q: string, pieces: seq<string>, rest: string)
    requires "" < p < Frame(piece) && piece <= rest && "" < q <= END_OF_CHUNKED_STREAM
    requires p + q <= Encode(pieces) && Flatten(pieces) <= rest
    ensures ReadsOn(piece, p, q, rest)
  {
    EmptyFrame("");
    hide Frame, Encode, Flatten, Hex, HexText;
    FrameStarts(piece, "");
    assert (p + q)[0] == Frame(piece)[0];
    var c, more := FirstChunk(pieces, p + q);
    EncodeStarts(more);
    assert c <= rest;
    if |p| <= |HexText(|piece|)| {
      SizeCut(piece, p, q, c, Encode(more));
      assert c[..16 * Hex(p)] == rest[..16 * Hex(p)];
    } else {
      SizeSent(piece, p);
      InData(piece, p, q, c, Encode(more));
    }
  }

  lemma SizeCut(piece: string, p: string, q: string, c: string, y: string)
    requires "" < p < Frame(piece) && piece != "" && |p| <= |HexText(|piece|)|
    requires "" < q <= END_OF_CHUNKED_STREAM && c != "" && p + q <= Frame(c) + y
    ensures AllHex(p) && 16 * Hex(p) <= |c| && p + q <= Frame(c[..16 * Hex(p)])
  {
    FrameText(piece, "");
    hide Frame, HexText;
    assert p == HexText(|piece|)[..|p|];
    var u := TextPrefix(|piece|, |p|);
    HexOfText(u);
    InSize(u, q, c, y);
  }

  lemma SizeSent(piece: string, p: string)
    requires piece != "" && |HexText(|piece|)| < |p| && p < Frame(piece)
    ensures HexText(|piece|) + "\r" <= p
  {
    FrameStarts(piece, "");
    hide Frame, HexText;
    assert Frame(piece) + "" == Frame(piece);
  }

  // ---------------------------------------------------------------- the whole wire

  /** A body which broke off is still the beginning of a body exactly if the write failed between two
      chunks, nothing of the terminating chunk went out, or that reads on in the chunk it interrupts. */
  lemma BeginsIff(sent: string, body: string, log: seq<string>, piece: string, p: string, q: string)
    requires Torn(sent, body, log, piece, p, q)
    ensures Begins(sent, body) <==> p == "" || q == "" || ReadsOn(piece, p, q, body[|Flatten(log)|..])
  {
    hide Frame, Frames, Flatten, ReadsOn, Begins;
    if p == "" {
      StillBegins(log, "", "", q, body);
    } else if q == "" {
      StillBegins(log, piece, p, "", body);
    } else if ReadsOn(piece, p, q, body[|Flatten(log)|..]) {
      StillReads(log, piece, p, q, body);
    } else if Begins(sent, body) {
      NoLonger(log, piece, p, q, body);
    }
  }

  lemma StillReads(log: seq<string>, piece: string, p: string, q: string, body: string)
    requires Flatten(log) + piece <= body && ReadsOn(piece, p, q, body[|Flatten(log)|..])
    ensures Begins(Frames(log) + (p + q), body)
  {
    hide Frame, Frames, Flatten, Begins, Hex;
    var rest := body[|Flatten(log)|..];
    var whole := if p + q <= Frame(piece) then piece else rest[..16 * Hex(p)];
    assert p + q + "" == p + q;
    StillBegins(log, whole, p + q, "", body);
  }

  lemma StillBegins(log: seq<string>, piece: string, p: string, q: string, body: string)
    requires p <= Frame(piece) && (p == "" || q == "") && q <= END_OF_CHUNKED_STREAM && Flatten(log) + piece <= body
    ensures Begins(Frames(log) + (p + q), body)
  {
    hide Frame, Flatten;
    if p == "" {
      assert p + q == q && Frames(log) + q <= Encode(log);
    } else {
      LogOne(log, piece);
      CarriedOne(true, log, piece);
      assert p + q == p && Frames(log) + p <= Encode(log + [piece]);
    }
  }

  lemma NoLonger(log: seq<string>, piece: string, p: string, q: string, body: string)
    requires "" < p < Frame(piece) && "" < q <= END_OF_CHUNKED_STREAM && Flatten(log) + piece <= body
    requires Begins(Frames(log) + (p + q), body)
    ensures ReadsOn(piece, p, q, body[|Flatten(log)|..])
  {
    var pieces :| Frames(log) + (p + q) <= Encode(pieces) && Flatten(pieces) <= body;
    hide Frame, Encode, Flatten, ReadsOn;
    var more := Strip(log, p + q, pieces);
    var rest := body[|Flatten(log)|..];
    assert Flatten(more) <= rest && piece <= rest;
    Interrupted(piece, p, q, more, rest);
  }

  /** It looks complete exactly if the write failed between two chunks and the whole terminating chunk
      went out, and then it carries exactly the chunks before. */
  lemma LooksComplete(sent: string, body: string, log: seq<string>, piece: string, p: string, q: string)
    requires Torn(sent, body, log, piece, p, q)
    ensures (exists shown :: Carries(sent, shown)) <==> p == "" && q == END_OF_CHUNKED_STREAM
    ensures forall shown :: Carries(sent, shown) ==> shown == Flatten(log) && |shown| < |body|
  {
    if p == "" && q == END_OF_CHUNKED_STREAM {
      assert p + q == q && sent == Encode(log);
      assert Carries(sent, Flatten(log));
    }
    forall shown | Carries(sent, shown)
      ensures p == "" && q == END_OF_CHUNKED_STREAM && shown == Flatten(log) && |shown| < |body|
    {
      var pieces :| sent == Encode(pieces) && Flatten(pieces) == shown;
      EndsBetween(log, piece, p, q, pieces);
    }
  }

  lemma EndsBetween(log: seq<string>, piece: string, p: string, q: string, pieces: seq<string>)
    requires (p == "" || p < Frame(piece)) && q <= END_OF_CHUNKED_STREAM && Frames(log) + (p + q) == Encode(pieces)
    ensures p == "" && q == END_OF_CHUNKED_STREAM && Flatten(pieces) == Flatten(log)
  {
    var more := Strip(log, p + q, pieces);
    EncodeStarts(more);
    if p == "" {
      assert p + q == q;
      ZeroEnds(more);
    } else {
      NoRoom(piece, p, q, more);
    }
  }

  lemma {:induction false} ZeroEnds(more: seq<string>)
    ensures Encode(more) != ""
    ensures Encode(more)[0] == '0' ==> Encode(more) == END_OF_CHUNKED_STREAM && Flatten(more) == ""
  {
    assert Encode([]) == END_OF_CHUNKED_STREAM;
    hide Encode, Frame;
    if more != [] {
      EncodeFirst(more);
      ZeroEnds(more[1..]);
      if more[0] == "" { EmptyFrame(""); } else { FrameStarts(more[0], ""); }
    }
  }

  /** A part of a chunk and a terminating chunk are no body. */
  lemma NoRoom(piece: string, p: string, q: string, more: seq<string>)
    requires p < Frame(piece) && q <= END_OF_CHUNKED_STREAM
    ensures p == "" || p + q != Encode(more)
  {
    if p != "" {
      assert piece != "" by { EmptyFrame(""); }
      FrameStarts(piece, "");
      if p + q == Encode(more) {
        assert (p + q)[0] == Frame(piece)[0];
        var c, tail := FirstChunk(more, p + q);
        EncodeStarts(tail);
        ShortChunk(piece, p, q, c, Encode(tail));
      }
    }
  }

  lemma ShortChunk(piece: string, p: string, q: string, c: string, y: string)
    requires piece != "" && c != "" && p < Frame(piece) && |q| <= |y|
    ensures p + q != Frame(c) + y
  {
    if p + q == Frame(c) + y {
      PrefixOf(Frame(c), p, q);
      SameChunk(c, "", piece, "");
    }
  }
}
