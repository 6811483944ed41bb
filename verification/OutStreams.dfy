/** The streams a handler writes its response to: the chunked stream on top of the session and
    the stream buffer on top of either. */
module OutStreams {
  import opened Wrappers
  import opened Bytes
  import opened ChunkedCodec
  import Output

  /** What the layer below has to send for one write, and for all of them. */
  function Below(chunked: bool, piece: string): string { if chunked then Frame(piece) else piece }

  function Carried(chunked: bool, pieces: seq<string>): string {
    if chunked then Frames(pieces) else Flatten(pieces)
  }

  lemma {:induction false} CarriedOne(chunked: bool, pieces: seq<string>, piece: string)
    ensures Carried(chunked, pieces + [piece]) == Carried(chunked, pieces) + Below(chunked, piece)
  {
    if pieces == [] {
      assert pieces + [piece] == [piece];
      assert [piece][1..] == [];
    } else {
      CarriedOne(chunked, pieces[1..], piece);
      assert (pieces + [piece])[1..] == pieces[1..] + [piece];
    }
  }

  lemma {:induction false} HexTextSize(n: nat)
    requires n > 0
    ensures |HexText(n)| <= n
  {
    if n >= 16 { HexTextSize(n / 16); }
  }

  lemma FrameSize(piece: string)
    ensures |Frame(piece)| <= 6 * |piece|
  {
    if piece != "" { HexTextSize(|piece|); }
  }

  /** A chunk as it is handed to the session. */
  function Parts(buffers: seq<string>): seq<string> {
    [HexText(|Flatten(buffers)|) + "\r\n"] + buffers + ["\r\n"]
  }

  method ArrayOf(parts: seq<string>) returns (a: array<string>)
    ensures fresh(a) && a[..] == parts
  {
    a := new string[|parts|](i requires 0 <= i < |parts| => parts[i]);
  }

  /** A stream over a session: the session itself, or a chunked_stream on top of it. `log` holds
      the writes which went through, `base` what the session had sent before. */
  class OutStream {
    const session: Output.Session
    const chunked: bool
    ghost const base: string
    ghost var log: seq<string>

    ghost predicate Valid()
      reads this, session
    {
      session.sent == base + Carried(chunked, log)
    }

    constructor (session: Output.Session, chunked: bool)
      ensures this.session == session && this.chunked == chunked && base == session.sent && log == [] && Valid()
    {
      this.session, this.chunked := session, chunked;
      base, log := session.sent, [];
    }

    /** A write failed in the middle of a piece of `contents`; all before it is sent. */
    ghost predicate Halted(contents: string)
      reads this, session
    {
      exists piece :: HaltedIn(piece) && Flatten(log) + piece <= contents
    }

    ghost predicate HaltedIn(piece: string)
      reads this, session
    {
      base + Carried(chunked, log) <= session.sent < base + Carried(chunked, log + [piece])
    }

    /** Six times the length of the data is always enough for its framing. */
    method Write(data: string) returns (ok: bool)
      requires Valid()
      modifies this`log, session`sent, session`script, session`writeBuffers
      ensures ok ==> Valid() && log == old(log) + [data]
      ensures ok ==> Output.Grants(session.script) + 6 * |data| >= Output.Grants(old(session.script))
      ensures !ok ==> log == old(log) && HaltedIn(data)
      ensures Output.Grants(old(session.script)) >= 6 * |data| ==> ok
      ensures old(session.sent) <= session.sent
      ensures chunked && data != "" ==>
                Output.Sends(session.tls, session.socketSize, Parts([data]), old(session.script)) ==
                Output.Sent(|session.sent| - |old(session.sent)|, session.script, ok)
    {
      FrameSize(data);
      CarriedOne(chunked, log, data);
      Assoc(base, Carried(chunked, log), Below(chunked, data));
      hide Frame, Carried, Flatten, Parts, Output.Grants, Output.Sends;
      if !chunked {
        ok := session.Write(data);
      } else if data == "" {
        EmptyFrame("");
        ok := true;
      } else {
        FlattenOne(data);
        ok := SendChunk([data], |data|);
      }
      if ok {
        log := log + [data];
      }
    }

    method WriteBuffers(buffers: array<string>) returns (ok: bool)
      requires Valid()
      modifies this`log, session`sent, session`script, session`writeBuffers
      ensures ok ==> Valid() && log == old(log) + [Flatten(buffers[..])]
      ensures !ok ==> log == old(log) && HaltedIn(Flatten(buffers[..]))
      ensures chunked || !Output.Stuck(session.tls, session.socketSize, buffers[..]) ==>
                var size, grants := 6 * |Flatten(buffers[..])|, Output.Grants(old(session.script));
                (grants >= size ==> ok) && (ok ==> Output.Grants(session.script) + size >= grants)
    {
      ghost var data := Flatten(buffers[..]);
      FrameSize(data);
      CarriedOne(chunked, log, data);
      Assoc(base, Carried(chunked, log), Below(chunked, data));
      hide Frame, Carried, Flatten, Output.Grants, Output.Stuck, Below;
      ok := Forward(buffers);
      if ok {
        log := log + [data];
      }
    }

    /** Hands the buffers to the session, as they are or as one chunk. */
    method Forward(buffers: array<string>) returns (ok: bool)
      modifies session`sent, session`script, session`writeBuffers
      ensures var piece := Below(chunked, Flatten(buffers[..]));
              && old(session.sent) <= session.sent <= old(session.sent) + piece
              && (ok <==> session.sent == old(session.sent) + piece)
              && (chunked || !Output.Stuck(session.tls, session.socketSize, buffers[..]) ==>
                    && (Output.Grants(old(session.script)) >= |piece| ==> ok)
                    && Output.Grants(session.script) + |session.sent| >=
                       Output.Grants(old(session.script)) + |old(session.sent)|)
    {
      hide Frame, Flatten, Output.Grants, Output.Stuck;
      if !chunked {
        ok := session.WriteBuffers(buffers);
      } else {
        var size := Output.TotalOf(buffers);
        if size == 0 {
          EmptyFrame("");
          ok := true;
        } else {
          ok := SendChunk(buffers[..], size);
        }
      }
    }

    /** The chunk header, the data and the line end go out in one vectored write. */
    method SendChunk(buffers: seq<string>, size: nat) returns (ok: bool)
      requires size == |Flatten(buffers)| > 0
      modifies session`sent, session`script, session`writeBuffers
      ensures old(session.sent) <= session.sent <= old(session.sent) + Frame(Flatten(buffers))
      ensures ok <==> session.sent == old(session.sent) + Frame(Flatten(buffers))
      ensures Output.Sends(session.tls, session.socketSize, Parts(buffers), old(session.script)) ==
              Output.Sent(|session.sent| - |old(session.sent)|, session.script, ok)
      ensures Output.Grants(old(session.script)) >= |Frame(Flatten(buffers))| ==> ok
      ensures Output.Grants(session.script) + |session.sent| >= Output.Grants(old(session.script)) + |old(session.sent)|
    {
      hide Frame, Flatten;
      var parts := ArrayOf(Parts(buffers));
      FramedParts(HexText(size) + "\r\n", buffers);
      Output.FrontNotStuck(session.tls, session.socketSize, parts[..], 0);
      assert parts[..][0..] == parts[..];
      ok := session.WriteBuffers(parts);
    }

    /** The destructor of the chunked stream, which ends the body, also after a write which failed. */
    method End() returns (ok: bool)
      requires chunked
      modifies session`sent, session`script
      ensures old(session.sent) <= session.sent <= old(session.sent) + END_OF_CHUNKED_STREAM
      ensures ok <==> session.sent == old(session.sent) + END_OF_CHUNKED_STREAM
      ensures old(Valid()) ==> session.sent <= base + Encode(log) && (ok <==> session.sent == base + Encode(log))
      ensures Output.Grants(old(session.script)) >= |END_OF_CHUNKED_STREAM| ==> ok
      ensures Output.Sends(session.tls, session.socketSize, [END_OF_CHUNKED_STREAM], old(session.script)) ==
              Output.Sent(|session.sent| - |old(session.sent)|, session.script, ok)
    {
      Assoc(base, Frames(log), END_OF_CHUNKED_STREAM);
      ok := session.Write(END_OF_CHUNKED_STREAM);
    }
  }

  lemma FramedParts(header: string, buffers: seq<string>)
    requires Flatten(buffers) != "" && header == HexText(|Flatten(buffers)|) + "\r\n"
    ensures Flatten([header] + buffers + ["\r\n"]) == Frame(Flatten(buffers))
  {
    LogOne([header] + buffers, "\r\n");
    FlattenAppend([header], buffers);
    FlattenOne(header);
    hide Flatten, HexText;
    var data := Flatten(buffers);
    assert header + data + "\r\n" == HexText(|data|) + ("\r\n" + (data + "\r\n"));
  }

  /** ostream_buffer */
  class OstreamBuffer {
    const stream: OutStream
    const capacity: nat
    var buffer: string

    ghost predicate Valid()
      reads this, stream, stream.session
    {
      stream.Valid() && |buffer| <= capacity && capacity >= 4096
    }

    /** Everything put so far, in order. */
    ghost function Contents(): string
      reads this, stream
    {
      Flatten(stream.log) + buffer
    }

    /** What the socket still grants, and what it has granted for the bytes which went through. */
    ghost function Slack(): nat
      reads this, stream, stream.session
    {
      Output.Grants(stream.session.script) + 6 * |Flatten(stream.log)|
    }

    constructor (stream: OutStream, socketWriteSize: int)
      requires stream.Valid()
      ensures Valid() && this.stream == stream && buffer == ""
      ensures capacity == if socketWriteSize > 4096 then socketWriteSize else 4096
    {
      this.stream, buffer := stream, "";
      capacity := if socketWriteSize > 4096 then socketWriteSize else 4096;
    }

    /** With an empty buffer, as after a write which failed, nothing is written. */
    method Sync() returns (ok: bool)
      requires buffer == "" || Valid()
      modifies this`buffer, stream`log, stream.session
      ensures buffer == ""
      ensures old(buffer) == "" ==> ok && stream.log == old(stream.log)
      ensures old(buffer) == "" ==> stream.session.sent == old(stream.session.sent)
      ensures old(Valid()) && ok ==> Valid() && Contents() == old(Contents()) && Slack() >= old(Slack())
      ensures !ok ==> stream.Halted(old(Contents()))
      ensures old(Valid()) && old(Slack()) >= 6 * |old(Contents())| ==> ok
    {
      ok := true;
      if buffer != "" {
        var pending := buffer;
        buffer := "";
        ok := stream.Write(pending);
        LogOne(old(stream.log), pending);
      }
    }

    /** No character stands for traits_type::eof(). */
    method Overflow(c: Option<char>) returns (ok: bool)
      requires Valid()
      modifies this`buffer, stream`log, stream.session
      ensures |buffer| <= capacity && (!ok ==> buffer == "")
      ensures ok ==> Valid() && Contents() == old(Contents()) + (if c.Some? then [c.value] else "")
      ensures ok ==> Slack() >= old(Slack())
      ensures !ok ==> stream.Halted(old(Contents()))
      ensures old(Slack()) >= 6 * |old(Contents())| ==> ok
    {
      if c.None? {
        return true;
      }
      ok := true;
      if |buffer| >= capacity {
        ok := Sync();
      }
      if ok {
        Append([c.value]);
      }
    }

    /** A negative length is the only one which is not written out in full. */
    method Xsputn(s: string, n: int) returns (ok: bool, count: int)
      requires Valid() && n <= |s|
      modifies this`buffer, stream`log, stream.session
      ensures |buffer| <= capacity && (!ok ==> buffer == "")
      ensures ok ==> Valid() && count == n && Contents() == old(Contents()) + (if n < 0 then "" else s[..n])
      ensures ok ==> Slack() >= old(Slack())
      ensures !ok ==> n >= 0 && stream.Halted(old(Contents()) + s[..n])
      ensures old(Slack()) >= 6 * (|old(Contents())| + if n < 0 then 0 else n) ==> ok
    {
      hide Contents, Carried;
      if n < 0 {
        return true, n;
      }
      assert s[..0] == "";
      var i, sz := 0, n;
      while sz > 0
        invariant Valid() && sz >= 0 && i + sz == n
        invariant i == 0 || sz <= capacity
        invariant Contents() == old(Contents()) + s[..i] && Slack() >= old(Slack())
      {
        if sz > capacity {
          assert s[0..n] == s[..n];
          ok := PutLarge(s[i..n]);
          return ok, sz;
        }
        if |buffer| >= capacity {
          ok := Sync();
          if !ok {
            return false, 0;
          }
        }
        var len := Min(sz, capacity - |buffer|);
        assert s[..i + len] == s[..i] + s[i..i + len];
        Append(s[i..i + len]);
        i, sz := i + len, sz - len;
      }
      return true, n;
    }

    method Append(part: string)
      requires Valid() && |buffer| + |part| <= capacity
      modifies this`buffer
      ensures Valid() && Contents() == old(Contents()) + part && Slack() == old(Slack())
    {
      buffer := buffer + part;
    }

    /** More than the buffer can ever hold goes out together with what it holds. */
    method PutLarge(data: string) returns (ok: bool)
      requires Valid()
      modifies this`buffer, stream`log, stream.session
      ensures buffer == ""
      ensures ok ==> Valid() && Contents() == old(Contents()) + data && Slack() >= old(Slack())
      ensures !ok ==> stream.Halted(old(Contents()) + data)
      ensures old(Slack()) >= 6 * (|old(Contents())| + |data|) ==> ok
    {
      if buffer != "" {
        ok := PutBoth(data);
      } else {
        LogOne(stream.log, data);
        hide Flatten, Carried, Output.Grants;
        ok := stream.Write(data);
      }
    }

    method PutBoth(data: string) returns (ok: bool)
      requires Valid() && buffer != ""
      modifies this`buffer, stream`log, stream.session
      ensures buffer == ""
      ensures ok ==> Valid() && Contents() == old(Contents()) + data && Slack() >= old(Slack())
      ensures !ok ==> stream.Halted(old(Contents()) + data)
      ensures old(Slack()) >= 6 * (|old(Contents())| + |data|) ==> ok
    {
      var pending := buffer;
      buffer := "";
      var parts := ArrayOf([pending, data]);
      LogOne([pending], data);
      FlattenOne(pending);
      assert [pending] + [data] == [pending, data];
      Output.FrontNotStuck(stream.session.tls, stream.session.socketSize, parts[..], 0);
      assert parts[..][0..] == parts[..];
      LogOne(stream.log, pending + data);
      assert Flatten(stream.log) + (pending + data) == Flatten(stream.log) + pending + data;
      hide Flatten, Carried, Output.Grants, Output.Stuck;
      ok := stream.WriteBuffers(parts);
    }
  }

  lemma Assoc(a: string, b: string, c: string)
    ensures a + b + c == a + (b + c)
  {
  }

  lemma LogOne(log: seq<string>, piece: string)
    ensures Flatten(log + [piece]) == Flatten(log) + piece
  {
    FlattenAppend(log, [piece]);
    FlattenOne(piece);
  }

  lemma FlattenOne(piece: string)
    ensures Flatten([piece]) == piece
  {
    assert Flatten([piece]) == piece + Flatten([]);
  }
}
