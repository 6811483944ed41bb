/** Which error response a request is refused with, in terms of what was sent. */
module Refusals {
  import opened Bytes
  import opened Scanning
  import opened HttpMachine
  import HeadRoundTrip

  // ---------------------------------------------------------------- the head

  /** A request line of another major version. */
  predicate OtherVersion(line: string, verb: string, target: string, major: char, minor: char) {
    && verb != "" && AllToken(verb) && target != "" && AllTarget(target)
    && IsDigit(major) && major != '1' && IsDigit(minor)
    && line == verb + [' '] + (target + [' '] + ("HTTP/" + [major] + "." + [minor]))
  }

  lemma VersionWritten(v: string)
    requires IsVersion(v)
    ensures v == "HTTP/" + [v[5]] + "." + [v[7]]
  {
    assert v == v[..5] + [v[5]] + [v[6]] + [v[7]];
  }

  lemma OtherVersionRefused(m: Machine, line: string, verb: string, target: string, major: char, minor: char)
    requires OtherVersion(line, verb, target, major, minor)
    ensures ParseRequestLine(m, line) == Fail(m, 505)
  {
    var version := "HTTP/" + [major] + "." + [minor];
    assert |version| == 8 && version[..5] == "HTTP/" && version[5] == major && version[6] == '.' && version[7] == minor;
    hide Find, AllToken, AllTarget;
    OneLines(verb);
    OneLines(target);
    var after := target + [' '] + version;
    FindFirst(verb, ' ', after);
    FindFirst(target, ' ', version);
    Parts(verb, ' ', after);
    Parts(target, ' ', version);
  }

  /** A request line of another version is answered with 505, every other bad one with 400. */
  lemma RequestLineStatus(m: Machine, line: string)
    requires ParseRequestLine(m, line).Fail?
    ensures ParseRequestLine(m, line).status ==
            if exists verb, target, major, minor :: OtherVersion(line, verb, target, major, minor) then 505 else 400
  {
    hide ParseRequestLine, OtherVersion;
    OtherOrBad(m, line);
    if verb, target, major, minor :| OtherVersion(line, verb, target, major, minor) {
      OtherVersionRefused(m, line, verb, target, major, minor);
    }
  }

  lemma OtherOrBad(m: Machine, line: string)
    requires ParseRequestLine(m, line).Fail?
    ensures ParseRequestLine(m, line).status == 400 ||
            (ParseRequestLine(m, line).status == 505 &&
             exists verb, target, major, minor :: OtherVersion(line, verb, target, major, minor))
  {
    if ParseRequestLine(m, line).status != 400 {
      var sp1 := Find(line, ' ');
      var after := line[sp1 + 1..];
      var sp2 := Find(after, ' ');
      var verb, target, version := line[..sp1], after[..sp2], after[sp2 + 1..];
      hide Find, AllToken, AllTarget;
      PartsWritten(line, sp1, sp2);
      assert OtherVersion(line, verb, target, version[5], version[7]);
    }
  }

  lemma PartsWritten(line: string, sp1: nat, sp2: nat)
    requires sp1 < |line| && sp2 < |line| - sp1 - 1 && line[sp1] == ' '
    requires line[sp1 + 1..][sp2] == ' ' && IsVersion(line[sp1 + 1..][sp2 + 1..])
    ensures var after := line[sp1 + 1..];
            var v := after[sp2 + 1..];
            line == line[..sp1] + [' '] + (after[..sp2] + [' '] + ("HTTP/" + [v[5]] + "." + [v[7]]))
  {
    var after := line[sp1 + 1..];
    VersionWritten(after[sp2 + 1..]);
    hide IsVersion;
    assert after == after[..sp2] + [' '] + after[sp2 + 1..];
    assert line == line[..sp1] + [' '] + after;
  }

  /** The head or its number of fields is over the limit with this line. */
  predicate TooMuch(m: Machine, text: string, n: nat) {
    m.p.headSeen + n > MAX_HEAD_SIZE || (text != "" && m.p.headers >= MAX_HEADERS_COUNT)
  }

  /** The line announces more codings than chunked, which comes last. */
  predicate OtherCodings(m: Machine, f: HeadRoundTrip.FieldText) {
    var codings := Tokens(f.value);
    && Canonical(f.name) == "Transfer-Encoding" && codings != [] && IEquals(codings[|codings| - 1], "chunked")
    && (m.p.chunked || |codings| > 1)
  }

  ghost predicate Unsupported(m: Machine, text: string) {
    exists f :: HeadRoundTrip.GoodField(f) && HeadRoundTrip.FieldSpelling(f) == text && OtherCodings(m, f)
  }

  /** A line of the head is refused with 431 if it is too much, with 501 if it announces other codings,
      and with 400 otherwise. */
  lemma FieldStatus(m: Machine, text: string, n: nat)
    requires m.p.head.Headers? && HeadLine(m, text, n).Fail?
    ensures HeadLine(m, text, n).status ==
            if TooMuch(m, text, n) then 431 else if Unsupported(m, text) then 501 else 400
  {
    hide SplitField, Tokens, IEquals, IsLength, Decimal, Canonical, HeadRoundTrip.GoodField,
         HeadRoundTrip.FieldSpelling;
    if f :| HeadRoundTrip.GoodField(f) && HeadRoundTrip.FieldSpelling(f) == text && OtherCodings(m, f) {
      HeadRoundTrip.FieldParses(f);
    } else if !TooMuch(m, text, n) && text != "" && SplitField(text).Field? {
      var f := HeadRoundTrip.FieldWritten(text, "\n");
      HeadRoundTrip.FieldParses(f);
      assert !OtherCodings(m, f);
    }
  }

  // ---------------------------------------------------------------- the body

  /** The callback would get more than the limit. */
  predicate OverLimit(m: Machine, n: nat) { m.r.maxBody != 0 && m.p.received + n > m.r.maxBody }

  /** Chunk data over the limit is refused with 413, trailers over the budget with 431, and everything
      else with 400. */
  lemma ChunkStatus(m: Machine, data: string)
    requires Decoding(m) && data != "" && StepChunk(m, data).Bad?
    ensures StepChunk(m, data).status ==
            if m.p.chunk.Data? && OverLimit(m, Min(m.p.remaining, |data|)) then 413
            else if m.p.chunk.Trailers? && TooManyTrailers(m, data) then 431
            else 400
  {
    hide Find, LineText, ChunkSize, AllValue;
  }

  /** A trailer line which does not end, or one more than there may be. */
  predicate TooManyTrailers(m: Machine, data: string) {
    if '\n' !in data then |data| > MAX_HEAD_SIZE else m.p.headers >= MAX_HEADERS_COUNT
  }

  /** A body of known length which does not fit under the limit is refused with 413; 400 is left for
      one nobody reads. */
  lemma LengthStatus(m: Machine, data: string)
    requires Valid(m) && !m.p.body.Chunked? && RunLength(m, data).Rejected?
    ensures RunLength(m, data).status ==
            if TooLong(m) || OverLimit(m, Min(m.p.remaining, |data|)) then 413 else 400
    ensures RunLength(m, data).status == 400 ==> !m.r.hasCallback
  {
  }
}
