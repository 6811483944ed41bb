/** A request head written out by the grammar of RFC 7230, section 3, and parsed back. */
module HeadRoundTrip {
  import opened Bytes
  import opened Scanning
  import opened HttpMachine
  import opened HeadSyntax
  import Fragmentation

  /** A field with the whitespace around its value and the end of its line. */
  datatype FieldText = FieldText(name: string, before: string, value: string, after: string, eol: string)

  /** A head: empty lines, the request line, the fields, and the empty line which ends it. */
  datatype HeadText = HeadText(
    blanks: seq<string>, verb: string, target: string, minor: char, eol: string, fields: seq<FieldText>, end: string)

  predicate GoodField(f: FieldText) {
    && f.name != "" && AllToken(f.name) && AllValue(f.value) && Trimmed(f.value)
    && AllOws(f.before) && AllOws(f.after) && IsEol(f.eol)
  }

  predicate GoodFields(fs: seq<FieldText>) { forall i :: 0 <= i < |fs| ==> GoodField(fs[i]) }

  predicate GoodRequestLine(h: HeadText) {
    h.verb != "" && AllToken(h.verb) && h.target != "" && AllTarget(h.target) && IsDigit(h.minor) && IsEol(h.eol)
  }

  predicate GoodHead(h: HeadText) {
    GoodRequestLine(h) && GoodFields(h.fields) && IsEol(h.end) && forall i :: 0 <= i < |h.blanks| ==> IsEol(h.blanks[i])
  }

  function FieldContent(f: FieldText): string { f.before + (f.value + f.after) }

  function FieldSpelling(f: FieldText): string { f.name + [':'] + FieldContent(f) }

  function FieldBytes(f: FieldText): string { FieldSpelling(f) + f.eol }

  function FieldLines(fs: seq<FieldText>, end: string): string
  {
    if fs == [] then end else FieldSpelling(fs[0]) + (fs[0].eol + FieldLines(fs[1..], end))
  }

  function RequestText(h: HeadText): string {
    h.verb + [' '] + (h.target + [' '] + ("HTTP/1." + [h.minor]))
  }

  /** The head without the empty lines in front of it. */
  function MainText(h: HeadText): string { RequestText(h) + (h.eol + FieldLines(h.fields, h.end)) }

  function RenderHead(h: HeadText): string { Flatten(h.blanks) + MainText(h) }

  // ---------------------------------------------------------------- lines

  lemma ContentLine(f: FieldText)
    requires GoodField(f)
    ensures OneLine(FieldContent(f)) && TrimOws(FieldContent(f)) == f.value
  {
    TrimOf(f.before, f.value, f.after);
    OneLines(f.value);
    var s, n := FieldContent(f), |f.before|;
    forall i | 0 <= i < |s| ensures s[i] != '\r' && s[i] != '\n' {
      if n <= i < n + |f.value| { assert s[i] == f.value[i - n]; } else { assert IsOws(s[i]); }
    }
  }

  lemma FieldParses(f: FieldText)
    requires GoodField(f)
    ensures FieldSpelling(f) != "" && OneLine(FieldSpelling(f))
    ensures SplitField(FieldSpelling(f)) == Field(f.name, f.value)
  {
    OneLines(f.name);
    ContentLine(f);
    JoinLines(f.name, ':', FieldContent(f));
    FindFirst(f.name, ':', FieldContent(f));
    Parts(f.name, ':', FieldContent(f));
    assert FieldSpelling(f)[0] == f.name[0];
    hide Find, TrimOws, AllToken, AllValue, OneLine, FieldContent;
  }

  /** A line which is taken for a field was written as one. */
  lemma FieldWritten(text: string, eol: string) returns (f: FieldText)
    requires text != "" && IsEol(eol) && SplitField(text).Field?
    ensures GoodField(f) && f.eol == eol && FieldSpelling(f) == text
  {
    hide TrimOws, AllOws, AllToken, AllValue, Trimmed, Find;
    var colon := Find(text, ':');
    var content := text[colon + 1..];
    var before, after := TrimSplit(content);
    f := FieldText(text[..colon], before, TrimOws(content), after, eol);
    assert FieldContent(f) == content;
    assert text == text[..colon] + [':'] + content;
  }

  lemma VersionParses(minor: char)
    requires IsDigit(minor)
    ensures var version := "HTTP/1." + [minor];
            IsVersion(version) && version[5] == '1' && version[7] == minor && OneLine(version)
  {
    var version := "HTTP/1." + [minor];
    assert version[..5] == "HTTP/";
  }

  lemma RequestLineParses(m: Machine, h: HeadText)
    requires GoodRequestLine(h)
    ensures RequestText(h) != "" && OneLine(RequestText(h))
    ensures ParseRequestLine(m, RequestText(h)) ==
              Ok(Machine(m.p.(http11 := h.minor != '0'), m.r.(verb := h.verb, url := h.target)))
  {
    var version := "HTTP/1." + [h.minor];
    VersionParses(h.minor);
    OneLines(h.verb);
    OneLines(h.target);
    var after := h.target + [' '] + version;
    JoinLines(h.target, ' ', version);
    JoinLines(h.verb, ' ', after);
    FindFirst(h.verb, ' ', after);
    FindFirst(h.target, ' ', version);
    Parts(h.verb, ' ', after);
    Parts(h.target, ' ', version);
    hide Find, AllToken, AllTarget, OneLine, IsVersion;
  }

  /** A line which is taken for a request line was written as one. */
  lemma RequestLineWritten(m: Machine, text: string, eol: string) returns (h: HeadText)
    requires IsEol(eol) && ParseRequestLine(m, text).Ok?
    ensures GoodRequestLine(h) && h.eol == eol && RequestText(h) == text
  {
    var sp1 := Find(text, ' ');
    var after := text[sp1 + 1..];
    var sp2 := Find(after, ' ');
    hide Find, AllToken, AllTarget, RequestText;
    h := HeadText([], text[..sp1], after[..sp2], after[sp2 + 1..][7], eol, [], eol);
    LineParts(text, sp1, sp2, h);
  }

  lemma LineParts(text: string, sp1: nat, sp2: nat, h: HeadText)
    requires sp1 < |text| && sp2 < |text| - sp1 - 1 && text[sp1] == ' '
    requires var after := text[sp1 + 1..];
             && after[sp2] == ' ' && IsVersion(after[sp2 + 1..]) && after[sp2 + 1..][5] == '1'
             && h.verb == text[..sp1] && h.target == after[..sp2] && h.minor == after[sp2 + 1..][7]
    ensures RequestText(h) == text
  {
    var after := text[sp1 + 1..];
    var version := after[sp2 + 1..];
    assert version == version[..5] + [version[5]] + [version[6]] + [version[7]];
    assert version == "HTTP/1." + [version[7]];
    assert after == after[..sp2] + [' '] + version;
    assert text == text[..sp1] + [' '] + after;
  }

  // ---------------------------------------------------------------- the whole head

  /** The machine after a field of `n` bytes, in terms of its name and value. */
  function ApplyOne(m: Machine, f: FieldText): (s: Step)
  {
    ApplyField(m.(p := m.p.(headers := m.p.headers + 1, headSeen := m.p.headSeen + |FieldBytes(f)|)),
               Canonical(f.name), f.value)
  }

  function ApplyAll(m: Machine, fs: seq<FieldText>): (s: Step)
    decreases |fs|
  {
    if fs == [] then Ok(m) else
    var s := ApplyOne(m, fs[0]);
    if s.Fail? then s else ApplyAll(s.m, fs[1..])
  }

  /** The empty line after the fields. */
  function Finish(s: Step, end: string): (t: Step)
    requires s.m.p.head.Headers?
  {
    if s.Fail? then s else HeadLine(s.m, "", |end|)
  }

  /** All but the counts, the flags and the map. */
  predicate Kept(m: Machine, m': Machine) {
    && m'.p == m.p.(headers := m'.p.headers, headSeen := m'.p.headSeen, hasContentLength := m'.p.hasContentLength,
                    contentLength := m'.p.contentLength, chunked := m'.p.chunked, close := m'.p.close,
                    keepAlive := m'.p.keepAlive)
    && m'.r == m.r.(fields := m'.r.fields)
  }

  lemma OneKeeps(m: Machine, f: FieldText)
    ensures var m' := ApplyOne(m, f).m;
            && Kept(m, m') && m'.p.headers == m.p.headers + 1 && m'.p.headSeen == m.p.headSeen + |FieldBytes(f)|
  {
    hide ApplyField, FieldSpelling, Canonical;
  }

  lemma {:induction false} AllKeep(m: Machine, fs: seq<FieldText>, end: string)
    ensures Kept(m, ApplyAll(m, fs).m)
    ensures ApplyAll(m, fs).Ok? ==>
              && ApplyAll(m, fs).m.p.headSeen + |end| == m.p.headSeen + |FieldLines(fs, end)|
              && ApplyAll(m, fs).m.p.headers == m.p.headers + |fs|
    decreases |fs|
  {
    hide ApplyOne, FieldSpelling;
    if fs != [] {
      OneKeeps(m, fs[0]);
      AllKeep(ApplyOne(m, fs[0]).m, fs[1..], end);
    }
  }

  lemma FieldLineParses(m: Machine, f: FieldText)
    requires GoodField(f) && m.p.head.Headers?
    requires m.p.headers < MAX_HEADERS_COUNT && m.p.headSeen + |FieldBytes(f)| <= MAX_HEAD_SIZE
    ensures HeadLine(m, FieldSpelling(f), |FieldBytes(f)|) == ApplyOne(m, f)
  {
    hide SplitField, ApplyField, FieldSpelling, Canonical, GoodField, OneLine;
    FieldParses(f);
  }

  lemma LastLineParses(m: Machine, end: string, rest: string)
    requires m.p.head.Headers? && IsEol(end)
    ensures var t, o := HeadLine(m, "", |end|), RunHead(m, end + rest);
            if t.Ok? then o == Stop(t.m, rest) else o.Rejected?
  {
    LineOf("", end, rest);
    assert end + rest == "" + (end + rest);
    Fragmentation.HeadStep(m, end + rest);
    hide Find, LineText, RunHead;
    if HeadLine(m, "", |end|).Ok? { Fragmentation.HeadDone(HeadLine(m, "", |end|).m, rest); }
  }

  lemma FieldLineConsumed(m: Machine, f: FieldText, after: string)
    requires GoodField(f) && m.p.head.Headers?
    requires m.p.headers < MAX_HEADERS_COUNT && m.p.headSeen + |FieldBytes(f)| <= MAX_HEAD_SIZE
    ensures var s, o := ApplyOne(m, f), RunHead(m, FieldSpelling(f) + (f.eol + after));
            if s.Ok? then o == RunHead(s.m, after) else o.Rejected?
  {
    hide Find, LineText, HeadLine, ApplyOne, FieldSpelling, OneLine;
    FieldParses(f);
    LineOf(FieldSpelling(f), f.eol, after);
    FieldLineParses(m, f);
    Fragmentation.HeadStep(m, FieldSpelling(f) + (f.eol + after));
  }

  lemma {:induction false} FieldLinesParse(m: Machine, fs: seq<FieldText>, end: string, rest: string)
    requires m.p.head.Headers? && m.p.headers + |fs| <= MAX_HEADERS_COUNT
    requires m.p.headSeen + |FieldLines(fs, end)| <= MAX_HEAD_SIZE
    requires GoodFields(fs) && IsEol(end)
    ensures ApplyAll(m, fs).m.p.head.Headers?
    ensures var t, o := Finish(ApplyAll(m, fs), end), RunHead(m, FieldLines(fs, end) + rest);
            if t.Ok? then o == Stop(t.m, rest) else o.Rejected?
    decreases |fs|
  {
    hide RunHead, HeadLine, ApplyOne, FieldSpelling, GoodField;
    AllKeep(m, fs, end);
    if fs == [] {
      LastLineParses(m, end, rest);
    } else {
      var after := FieldLines(fs[1..], end) + rest;
      assert FieldLines(fs, end) + rest == FieldSpelling(fs[0]) + (fs[0].eol + after);
      FieldLineConsumed(m, fs[0], after);
      OneKeeps(m, fs[0]);
      var s := ApplyOne(m, fs[0]);
      if s.Ok? { FieldLinesParse(s.m, fs[1..], end, rest); }
    }
  }

  /** The machine after the request line of a head of this form, behind `n` bytes of empty lines. */
  function Started(h: HeadText, n: nat): Machine {
    Machine(FRESH_PARSER.(head := Headers, http11 := h.minor != '0', headSeen := n + |RequestText(h)| + |h.eol|),
            FRESH_REQUEST.(state := ProcessingHeader, verb := h.verb, url := h.target))
  }

  /** The machine in front of the request line, behind `n` bytes of empty lines. */
  function Blank(n: nat): Machine {
    Machine(FRESH_PARSER.(headSeen := n), FRESH_REQUEST.(state := ProcessingUrl))
  }

  lemma RequestLineConsumed(h: HeadText, n: nat, after: string)
    requires GoodRequestLine(h) && n + |RequestText(h)| + |h.eol| <= MAX_HEAD_SIZE
    ensures RunHead(Blank(n), RequestText(h) + (h.eol + after)) == RunHead(Started(h, n), after)
  {
    hide Find, LineText, ParseRequestLine, RequestText, FieldLine, GoodRequestLine, OneLine, RunHead;
    var line := RequestText(h);
    RequestLineParses(Blank(n + |line| + |h.eol|), h);
    LineOf(line, h.eol, after) by { assert IsEol(h.eol) by { GoodEol(h); } }
    Fragmentation.HeadStep(Blank(n), line + (h.eol + after));
  }

  lemma GoodEol(h: HeadText)
    requires GoodRequestLine(h)
    ensures IsEol(h.eol)
  {
  }

  lemma {:induction false} BlanksConsumed(blanks: seq<string>, n: nat, after: string)
    requires forall i :: 0 <= i < |blanks| ==> IsEol(blanks[i])
    ensures RunHead(Blank(n), Flatten(blanks) + after) == RunHead(Blank(n + |Flatten(blanks)|), after)
  {
    hide RunHead, Blank;
    if blanks == [] {
      assert Flatten(blanks) + after == after;
    } else {
      var rest := Flatten(blanks[1..]) + after;
      assert Flatten(blanks) + after == "" + (blanks[0] + rest);
      BlankConsumed(blanks[0], n, rest);
      BlanksConsumed(blanks[1..], n + |blanks[0]|, after);
    }
  }

  lemma BlankConsumed(eol: string, n: nat, rest: string)
    requires IsEol(eol)
    ensures RunHead(Blank(n), "" + (eol + rest)) == RunHead(Blank(n + |eol|), rest)
  {
    hide Find, LineText, RunHead, ParseRequestLine;
    LineOf("", eol, rest);
    Fragmentation.HeadStep(Blank(n), "" + (eol + rest));
  }

  /** Within the limits of the server. */
  predicate Fitting(h: HeadText) { |h.fields| <= MAX_HEADERS_COUNT && |RenderHead(h)| <= MAX_HEAD_SIZE }

  lemma RenderedSize(h: HeadText)
    ensures |RenderHead(h)| == |Flatten(h.blanks)| + |RequestText(h)| + |h.eol| + |FieldLines(h.fields, h.end)|
  {
  }

  lemma RenderedHeadParses(p: Parser, h: HeadText, rest: string)
    requires GoodHead(h) && Fitting(h)
    ensures var m := Started(h, |Flatten(h.blanks)|);
            && ApplyAll(m, h.fields).m.p.head.Headers?
            && var t := Finish(ApplyAll(m, h.fields), h.end);
               var o := ParseHead(Machine(p, FRESH_REQUEST), RenderHead(h) + rest);
               if t.Ok? then o == Stop(t.m, rest) else o.Rejected?
  {
    hide RequestText, FieldLines, RunHead, Finish, ApplyAll, GoodField, Flatten;
    RenderedSize(h);
    var n, fields := |Flatten(h.blanks)|, FieldLines(h.fields, h.end) + rest;
    assert RenderHead(h) + rest == Flatten(h.blanks) + (RequestText(h) + (h.eol + fields));
    BlanksConsumed(h.blanks, 0, RequestText(h) + (h.eol + fields));
    RequestLineConsumed(h, n, fields);
    FieldLinesParse(Started(h, n), h.fields, h.end, rest);
  }

  // ---------------------------------------------------------------- which heads are accepted

  /** The field names and values under their canonical names. */
  function Sents(fs: seq<FieldText>): (r: seq<Sent>)
    ensures |r| == |fs|
  {
    seq(|fs|, i requires 0 <= i < |fs| => Sent(Canonical(fs[i].name), fs[i].value))
  }

  predicate IsLengthField(s: Sent) { s.key == "Content-Length" }
  predicate IsEncodingField(s: Sent) { s.key == "Transfer-Encoding" }

  /** chunked is the one and only coding. */
  predicate OnlyChunked(value: string) {
    var codings := Tokens(value);
    |codings| == 1 && IEquals(codings[0], "chunked")
  }

  /** The lengths are numbers and all the same, and chunked is announced at most once. */
  predicate Clean(sent: seq<Sent>) {
    && (forall i :: 0 <= i < |sent| && IsLengthField(sent[i]) ==> IsLength(sent[i].value))
    && (forall i, j :: 0 <= i < j < |sent| && IsLengthField(sent[i]) && IsLengthField(sent[j]) ==>
          Decimal(sent[i].value) == Decimal(sent[j].value))
    && (forall i :: 0 <= i < |sent| && IsEncodingField(sent[i]) ==> OnlyChunked(sent[i].value))
    && (forall i, j :: 0 <= i < j < |sent| ==> !(IsEncodingField(sent[i]) && IsEncodingField(sent[j])))
  }

  predicate HasLength(sent: seq<Sent>) { exists i :: 0 <= i < |sent| && IsLengthField(sent[i]) }
  predicate HasEncoding(sent: seq<Sent>) { exists i :: 0 <= i < |sent| && IsEncodingField(sent[i]) }

  /** The parser's flags after the clean fields `sent`. */
  predicate Seen(p: Parser, sent: seq<Sent>) {
    && p.hasContentLength == HasLength(sent)
    && p.chunked == HasEncoding(sent)
    && (forall i :: 0 <= i < |sent| && IsLengthField(sent[i]) ==>
          IsLength(sent[i].value) && Decimal(sent[i].value) == p.contentLength)
    && (!p.hasContentLength ==> p.contentLength == 0)
  }

  /** What ApplyField() accepts, case by case. */
  predicate Fits(p: Parser, s: Sent) {
    && (IsLengthField(s) ==> IsLength(s.value) && (p.hasContentLength ==> Decimal(s.value) == p.contentLength))
    && (IsEncodingField(s) ==> OnlyChunked(s.value) && !p.chunked)
  }

  lemma AppliesIff(m: Machine, s: Sent)
    ensures ApplyField(m, s.key, s.value).Ok? <==> Fits(m.p, s)
    ensures var p := ApplyField(m, s.key, s.value).m.p; Fits(m.p, s) ==>
              && p.hasContentLength == (m.p.hasContentLength || IsLengthField(s))
              && p.chunked == (m.p.chunked || IsEncodingField(s))
              && (p.contentLength == if IsLengthField(s) then Decimal(s.value) else m.p.contentLength)
  {
  }

  lemma CleanIff(p: Parser, sent: seq<Sent>, s: Sent)
    requires Clean(sent) && Seen(p, sent)
    ensures Clean(sent + [s]) <==> Fits(p, s)
  {
    var all := sent + [s];
    hide IsLength, OnlyChunked;
    assert forall i :: 0 <= i < |sent| ==> all[i] == sent[i];
    assert all[|sent|] == s;
    if HasLength(sent) { var i :| 0 <= i < |sent| && IsLengthField(sent[i]); assert all[i] == sent[i]; }
    if HasEncoding(sent) { var i :| 0 <= i < |sent| && IsEncodingField(sent[i]); assert all[i] == sent[i]; }
  }

  lemma SeenMore(p: Parser, p': Parser, sent: seq<Sent>, s: Sent)
    requires Seen(p, sent) && Fits(p, s)
    requires p'.hasContentLength == (p.hasContentLength || IsLengthField(s))
    requires p'.chunked == (p.chunked || IsEncodingField(s))
    requires p'.contentLength == if IsLengthField(s) then Decimal(s.value) else p.contentLength
    ensures Seen(p', sent + [s])
  {
    var all := sent + [s];
    hide IsLength, OnlyChunked;
    assert forall i :: 0 <= i < |sent| ==> all[i] == sent[i];
    assert all[|sent|] == s;
    if HasLength(sent) { var i :| 0 <= i < |sent| && IsLengthField(sent[i]); assert IsLengthField(all[i]); }
    if HasEncoding(sent) { var i :| 0 <= i < |sent| && IsEncodingField(sent[i]); assert IsEncodingField(all[i]); }
  }

  lemma CleanPrefix(sent: seq<Sent>, more: seq<Sent>)
    requires Clean(sent + more)
    ensures Clean(sent)
  {
    hide IsLength, OnlyChunked;
    assert forall i :: 0 <= i < |sent| ==> (sent + more)[i] == sent[i];
  }

  lemma OneApplies(m: Machine, f: FieldText)
    ensures var s := Sent(Canonical(f.name), f.value);
            ApplyOne(m, f).Ok? == Fits(m.p, s) &&
            (Fits(m.p, s) ==>
              var p := ApplyOne(m, f).m.p;
              && p.hasContentLength == (m.p.hasContentLength || IsLengthField(s))
              && p.chunked == (m.p.chunked || IsEncodingField(s))
              && (p.contentLength == if IsLengthField(s) then Decimal(s.value) else m.p.contentLength))
  {
    hide ApplyField, Canonical, IsLength, OnlyChunked;
    AppliesIff(m.(p := m.p.(headers := m.p.headers + 1, headSeen := m.p.headSeen + |FieldBytes(f)|)),
               Sent(Canonical(f.name), f.value));
  }

  lemma {:induction false} AcceptedIff(m: Machine, done: seq<Sent>, fs: seq<FieldText>)
    requires Clean(done) && Seen(m.p, done)
    ensures ApplyAll(m, fs).Ok? <==> Clean(done + Sents(fs))
    ensures ApplyAll(m, fs).Ok? ==> Seen(ApplyAll(m, fs).m.p, done + Sents(fs))
    decreases |fs|
  {
    hide ApplyOne, Clean, Seen, Fits, Canonical;
    if fs == [] {
      assert done + Sents(fs) == done;
    } else {
      var s := Sent(Canonical(fs[0].name), fs[0].value);
      var step := ApplyOne(m, fs[0]);
      assert done + Sents(fs) == done + [s] + Sents(fs[1..]);
      OneApplies(m, fs[0]);
      CleanIff(m.p, done, s);
      if step.Ok? {
        SeenMore(m.p, step.m.p, done, s);
        AcceptedIff(step.m, done + [s], fs[1..]);
      } else if Clean(done + Sents(fs)) {
        CleanPrefix(done + [s], Sents(fs[1..]));
      }
    }
  }

  // ---------------------------------------------------------------- what an accepted head gives

  /** Some Connection field has the option. */
  predicate HasOption(sent: seq<Sent>, option: string) {
    exists i :: 0 <= i < |sent| && OptionIn(sent[i], option)
  }

  predicate OptionIn(s: Sent, option: string) { s.key == "Connection" && HasToken(Tokens(s.value), option) }

  predicate Optioned(p: Parser, sent: seq<Sent>) {
    p.close == HasOption(sent, "close") && p.keepAlive == HasOption(sent, "keep-alive")
  }

  /** The announced length; without one there is nothing to come. */
  function LengthOf(sent: seq<Sent>): nat
  {
    if sent == [] then 0
    else if IsLengthField(sent[0]) && IsLength(sent[0].value) then Decimal(sent[0].value)
    else LengthOf(sent[1..])
  }

  lemma {:induction false} LengthIsSeen(sent: seq<Sent>, n: nat)
    requires forall i :: 0 <= i < |sent| && IsLengthField(sent[i]) ==>
             IsLength(sent[i].value) && Decimal(sent[i].value) == n
    ensures LengthOf(sent) == if HasLength(sent) then n else 0
  {
    hide IsLength, Decimal;
    if sent != [] {
      LengthIsSeen(sent[1..], n);
      assert forall i :: 0 < i < |sent| ==> sent[i] == sent[1..][i - 1];
      if HasLength(sent[1..]) {
        var i :| 0 <= i < |sent[1..]| && IsLengthField(sent[1..][i]);
        assert IsLengthField(sent[i + 1]);
      }
    }
  }

  lemma OptionsMore(sent: seq<Sent>, s: Sent, option: string)
    ensures HasOption(sent + [s], option) == (HasOption(sent, option) || OptionIn(s, option))
  {
    hide OptionIn;
    var all := sent + [s];
    assert all[|sent|] == s && forall i :: 0 <= i < |sent| ==> all[i] == sent[i];
    if HasOption(sent, option) {
      var i :| 0 <= i < |sent| && OptionIn(sent[i], option);
      assert OptionIn(all[i], option);
    }
  }

  lemma OneOptions(m: Machine, f: FieldText)
    requires ApplyOne(m, f).Ok?
    ensures var p, s := ApplyOne(m, f).m.p, Sent(Canonical(f.name), f.value);
            && p.close == (m.p.close || OptionIn(s, "close"))
            && p.keepAlive == (m.p.keepAlive || OptionIn(s, "keep-alive"))
  {
    hide Canonical, FieldSpelling, Tokens, HasToken, IsLength, Decimal, IEquals;
  }

  lemma {:induction false} OptionsKept(m: Machine, done: seq<Sent>, fs: seq<FieldText>)
    requires Optioned(m.p, done)
    ensures ApplyAll(m, fs).Ok? ==> Optioned(ApplyAll(m, fs).m.p, done + Sents(fs))
    decreases |fs|
  {
    hide ApplyOne, HasOption, OptionIn, Canonical;
    if fs == [] {
      assert done + Sents(fs) == done;
    } else if ApplyOne(m, fs[0]).Ok? {
      var s := Sent(Canonical(fs[0].name), fs[0].value);
      OneOptions(m, fs[0]);
      OptionsMore(done, s, "close");
      OptionsMore(done, s, "keep-alive");
      OptionsKept(ApplyOne(m, fs[0]).m, done + [s], fs[1..]);
      assert done + Sents(fs) == done + [s] + Sents(fs[1..]);
    }
  }

  /** The body the framing fields announce (section 3.3.3 of RFC 7230). */
  function BodyOf(sent: seq<Sent>): Body {
    if HasEncoding(sent) then Chunked else if LengthOf(sent) > 0 then ContentLength else NoBody
  }

  /** Whether the connection persists (section 6.3 of RFC 7230). */
  predicate Persists(sent: seq<Sent>, minor: char) {
    !HasOption(sent, "close") && (minor != '0' || HasOption(sent, "keep-alive"))
  }

  /** The parser and the request after a head, in terms of what was sent. */
  function Announced(h: HeadText): Machine {
    var sent := Sents(h.fields);
    Machine(
      Parser(Done, BodyOf(sent), Size, |RenderHead(h)|, |h.fields|,
             if BodyOf(sent).ContentLength? then LengthOf(sent) else 0, 0, LengthOf(sent), h.minor != '0',
             HasLength(sent), HasEncoding(sent), HasOption(sent, "close"), HasOption(sent, "keep-alive")),
      Request(if BodyOf(sent).NoBody? then Completed else HeadersCompleted, h.verb, h.target, MapOf(sent),
              Persists(sent, h.minor), false, 0, ""))
  }

  /** The head parses to what it announces. */
  predicate Consistent(fs: seq<FieldText>) {
    Clean(Sents(fs)) && !(HasLength(Sents(fs)) && HasEncoding(Sents(fs)))
  }

  /** What the empty line makes of a head whose fields are all there. */
  function Finalized(m: Machine, n: nat): Machine {
    var body := if m.p.chunked then Chunked else if m.p.contentLength > 0 then ContentLength else NoBody;
    Machine(m.p.(head := Done, body := body, remaining := if body.ContentLength? then m.p.contentLength else 0,
                 headSeen := m.p.headSeen + n),
            m.r.(state := if body.NoBody? then Completed else HeadersCompleted,
                 keepAlive := !m.p.close && (m.p.http11 || m.p.keepAlive)))
  }

  lemma EmptyLine(m: Machine, n: nat)
    requires m.p.head.Headers? && m.p.headSeen + n <= MAX_HEAD_SIZE
    requires m.p.remaining == 0 && m.p.received == 0 && m.p.chunk.Size?
    ensures var s := HeadLine(m, "", n);
            if m.p.hasContentLength && m.p.chunked then s.Fail? else s == Ok(Finalized(m, n))
  {
  }

  lemma FinalLine(h: HeadText, m: Machine)
    requires Kept(Started(h, |Flatten(h.blanks)|), m) && m.p.headers == |h.fields|
    requires m.p.headSeen + |h.end| == |RenderHead(h)| <= MAX_HEAD_SIZE
    requires var sent := Sents(h.fields);
             Seen(m.p, sent) && Optioned(m.p, sent) && m.r.fields == MapOf(sent)
    ensures var sent, s := Sents(h.fields), HeadLine(m, "", |h.end|);
            if HasLength(sent) && HasEncoding(sent) then s.Fail? else s == Ok(Announced(h))
  {
    hide RenderHead, RequestText, FieldLines, Sents, MapOf, HasOption, HasLength, HasEncoding, LengthOf, IsLength,
         Decimal, HeadLine, Flatten;
    LengthIsSeen(Sents(h.fields), m.p.contentLength);
    EmptyLine(m, |h.end|);
    assert Finalized(m, |h.end|) == Announced(h);
  }

  /** A well-formed head within the limits is accepted exactly when its framing fields are
      consistent. It then gives what it announces: its method, target and fields, the kind and the
      length of its body, and whether the connection persists; the rest is left. */
  lemma HeadRoundTrip(p: Parser, h: HeadText, rest: string)
    requires GoodHead(h) && Fitting(h)
    ensures var o := ParseHead(Machine(p, FRESH_REQUEST), RenderHead(h) + rest);
            if Consistent(h.fields) then o == Stop(Announced(h), rest) else o.Rejected?
  {
    hide RenderHead, ApplyAll, RunHead, Clean, MapOf, FieldLines, GoodHead, RequestText, HasLength, HasEncoding,
         HasOption, Announced, HeadLine, Flatten;
    RenderedSize(h);
    RenderedHeadParses(p, h, rest);
    var m := Started(h, |Flatten(h.blanks)|);
    AllKeep(m, h.fields, h.end);
    AllAccepted(m, h.fields);
    if ApplyAll(m, h.fields).Ok? { FinalLine(h, ApplyAll(m, h.fields).m); }
  }

  // ---------------------------------------------------------------- what an accepted head looks like

  lemma LineAccepted(m: Machine, text: string, n: nat)
    requires m.p.head.Headers? && HeadLine(m, text, n).Ok?
    ensures m.p.headSeen + n <= MAX_HEAD_SIZE
    ensures var m' := HeadLine(m, text, n).m;
            if text == "" then m'.p.head.Done?
            else
              && m'.p.head.Headers? && m'.p.headSeen == m.p.headSeen + n
              && m'.p.headers == m.p.headers + 1 <= MAX_HEADERS_COUNT && SplitField(text).Field?
  {
    hide SplitField, ApplyField, FinalizeHead;
  }

  lemma AddField(f: FieldText, fs: seq<FieldText>, end: string, rest: string)
    requires GoodField(f) && GoodFields(fs)
    ensures var all := [f] + fs;
            && GoodFields(all) && |FieldLines(all, end)| == |FieldSpelling(f)| + |f.eol| + |FieldLines(fs, end)|
            && FieldLines(all, end) + rest == FieldSpelling(f) + (f.eol + (FieldLines(fs, end) + rest))
  {
    hide GoodField, FieldSpelling;
    assert ([f] + fs)[1..] == fs;
  }

  lemma NoFields()
    ensures GoodFields([]) && forall end :: FieldLines([], end) == end
  {
  }

  lemma {:induction false} FieldsWritten(m: Machine, data: string) returns (fs: seq<FieldText>, end: string)
    requires m.p.head.Headers? && RunHead(m, data).Stop? && RunHead(m, data).m.p.head.Done?
    ensures GoodFields(fs) && IsEol(end) && data == FieldLines(fs, end) + RunHead(m, data).rest
    ensures fs == [] || m.p.headers + |fs| <= MAX_HEADERS_COUNT
    ensures m.p.headSeen + |FieldLines(fs, end)| <= MAX_HEAD_SIZE
    decreases |data|
  {
    hide HeadLine, Find, LineText, GoodFields, FieldLines, FieldSpelling, SplitField;
    NoFields();
    var lf := Find(data, '\n');
    assert lf < |data|;
    Fragmentation.HeadStep(m, data);
    var text := LineText(data, lf);
    LineAccepted(m, text, lf + 1);
    var eol := LineSplit(data);
    var m' := HeadLine(m, text, lf + 1).m;
    if text == "" {
      fs, end := [], eol;
      Fragmentation.HeadDone(m', data[lf + 1..]);
    } else {
      var f := FieldWritten(text, eol);
      fs, end := FieldsWritten(m', data[lf + 1..]);
      AddField(f, fs, end, RunHead(m, data).rest);
      fs := [f] + fs;
    }
  }

  lemma FirstAccepted(n: nat, text: string, k: nat)
    requires HeadLine(Blank(n), text, k).Ok?
    ensures var s := HeadLine(Blank(n), text, k);
            if text == "" then s.m == Blank(n + k)
            else s.m.p.head.Headers? && s.m.p.headSeen == n + k && s.m.p.headers == 0 &&
                 ParseRequestLine(Blank(n + k), text).Ok?
  {
    hide ParseRequestLine;
  }

  lemma {:induction false} Written(n: nat, data: string) returns (h: HeadText)
    requires RunHead(Blank(n), data).Stop? && RunHead(Blank(n), data).m.p.head.Done?
    ensures GoodHead(h) && data == RenderHead(h) + RunHead(Blank(n), data).rest
    ensures |h.fields| <= MAX_HEADERS_COUNT && n + |RenderHead(h)| <= MAX_HEAD_SIZE
    decreases |data|
  {
    hide HeadLine, Find, LineText, GoodFields, FieldLines, RequestText, GoodRequestLine;
    var lf := Find(data, '\n');
    assert lf < |data|;
    Fragmentation.HeadStep(Blank(n), data);
    var text := LineText(data, lf);
    FirstAccepted(n, text, lf + 1);
    var eol := LineSplit(data);
    var m', rest := HeadLine(Blank(n), text, lf + 1).m, data[lf + 1..];
    if text == "" {
      h := Written(n + lf + 1, rest);
      h := AddBlank(eol, h, rest, RunHead(Blank(n), data).rest);
    } else {
      var line := RequestLineWritten(Blank(n + lf + 1), text, eol);
      var fs, end := FieldsWritten(m', rest);
      h := Assemble(line, fs, end, rest, RunHead(Blank(n), data).rest);
    }
  }

  lemma AddBlank(eol: string, h: HeadText, data: string, rest: string) returns (h': HeadText)
    requires IsEol(eol) && GoodHead(h) && data == RenderHead(h) + rest
    ensures GoodHead(h') && "" + (eol + data) == RenderHead(h') + rest && |RenderHead(h')| == |eol| + |RenderHead(h)|
    ensures h'.fields == h.fields
  {
    hide GoodFields, MainText, GoodRequestLine;
    h' := h.(blanks := [eol] + h.blanks);
    assert h'.blanks[1..] == h.blanks;
    assert MainText(h') == MainText(h) && GoodRequestLine(h') by { SameMain(h, h'.blanks); }
  }

  lemma SameMain(h: HeadText, blanks: seq<string>)
    ensures MainText(h.(blanks := blanks)) == MainText(h)
    ensures GoodRequestLine(h.(blanks := blanks)) == GoodRequestLine(h)
  {
  }

  lemma Assemble(line: HeadText, fs: seq<FieldText>, end: string, data: string, rest: string) returns (h: HeadText)
    requires GoodRequestLine(line) && GoodFields(fs) && IsEol(end) && data == FieldLines(fs, end) + rest
    ensures GoodHead(h) && RequestText(line) + (line.eol + data) == RenderHead(h) + rest && h.fields == fs
    ensures |RenderHead(h)| == |RequestText(line)| + |line.eol| + |FieldLines(fs, end)|
  {
    hide GoodFields, FieldLines, RequestText, GoodRequestLine;
    h := line.(blanks := [], fields := fs, end := end);
    SameLine(line, h);
    assert RenderHead(h) == MainText(h);
    var text := FieldLines(fs, end);
    assert RequestText(h) + (h.eol + (text + rest)) == RequestText(h) + (h.eol + text) + rest;
  }

  lemma SameLine(a: HeadText, b: HeadText)
    requires a.verb == b.verb && a.target == b.target && a.minor == b.minor && a.eol == b.eol
    ensures RequestText(a) == RequestText(b) && GoodRequestLine(a) == GoodRequestLine(b)
  {
  }

  /** A head the server takes: written by the grammar, within the limits, with consistent framing. */
  predicate Acceptable(h: HeadText) { GoodHead(h) && Fitting(h) && Consistent(h.fields) }

  /** What is accepted as a head was written as one, and gives exactly what it announces. */
  lemma HeadWritten(p: Parser, data: string, m: Machine, rest: string) returns (h: HeadText)
    requires ParseHead(Machine(p, FRESH_REQUEST), data) == Stop(m, rest) && m.p.head.Done?
    ensures Acceptable(h) && data == RenderHead(h) + rest && m == Announced(h)
  {
    hide RunHead, RenderHead, GoodHead, Consistent, Announced;
    assert BeginRequest(Machine(p, FRESH_REQUEST)) == Blank(0);
    h := Written(0, data);
    HeadRoundTrip(p, h, rest);
  }

  /** The bytes which are accepted as a head, over all byte strings: exactly the heads of the grammar
      which fit and are consistent. */
  lemma HeadIff(p: Parser, data: string, m: Machine, rest: string)
    ensures ParseHead(Machine(p, FRESH_REQUEST), data) == Stop(m, rest) && m.p.head.Done? <==>
            exists h :: Acceptable(h) && data == RenderHead(h) + rest && m == Announced(h)
  {
    hide ParseHead, RenderHead, GoodHead, Consistent;
    if ParseHead(Machine(p, FRESH_REQUEST), data) == Stop(m, rest) && m.p.head.Done? {
      var h := HeadWritten(p, data, m, rest);
    }
    if h :| Acceptable(h) && data == RenderHead(h) + rest && m == Announced(h) {
      HeadRoundTrip(p, h, rest);
    }
  }

  /** The fields of a whole head: accepted exactly when clean, and then all stored. */
  lemma AllAccepted(m: Machine, fs: seq<FieldText>)
    requires m.p == FRESH_PARSER.(head := m.p.head, http11 := m.p.http11, headSeen := m.p.headSeen) &&
             m.r.fields == map[]
    ensures ApplyAll(m, fs).Ok? <==> Clean(Sents(fs))
    ensures ApplyAll(m, fs).Ok? ==>
              var m' := ApplyAll(m, fs).m;
              Seen(m'.p, Sents(fs)) && Optioned(m'.p, Sents(fs)) && m'.r.fields == MapOf(Sents(fs))
  {
    assert [] + Sents(fs) == Sents(fs);
    NothingSent();
    assert Seen(m.p, []) && Framed(m.p, m.r.fields) && Optioned(m.p, []);
    hide Clean, MapOf, Seen, Framed, ApplyAll, Optioned;
    AcceptedIff(m, [], fs);
    FieldsKept(m, [], fs);
    OptionsKept(m, [], fs);
  }

  lemma NothingSent()
    ensures MapOf([]) == map[] && Clean([])
  {
  }

  lemma {:induction false} FieldsKept(m: Machine, done: seq<Sent>, fs: seq<FieldText>)
    requires Framed(m.p, m.r.fields) && m.r.fields == MapOf(done)
    ensures ApplyAll(m, fs).Ok? ==> ApplyAll(m, fs).m.r.fields == MapOf(done + Sents(fs))
    decreases |fs|
  {
    hide ApplyOne, MapOf, Framed, Stored, Canonical;
    if fs == [] {
      assert done + Sents(fs) == done;
    } else {
      var s := Sent(Canonical(fs[0].name), fs[0].value);
      OneStores(m, fs[0]);
      MapAppend(done, s);
      var step := ApplyOne(m, fs[0]);
      if step.Ok? { FieldsKept(step.m, done + [s], fs[1..]); }
      assert done + Sents(fs) == done + [s] + Sents(fs[1..]);
    }
  }

  lemma OneStores(m: Machine, f: FieldText)
    requires Framed(m.p, m.r.fields)
    ensures StoredBy(ApplyOne(m, f), m.r.fields, Sent(Canonical(f.name), f.value))
  {
    hide ApplyField, Canonical, Stored, StoredBy;
    ApplyStores(m.(p := m.p.(headers := m.p.headers + 1, headSeen := m.p.headSeen + |FieldBytes(f)|)),
                Sent(Canonical(f.name), f.value), ApplyOne(m, f));
  }

  // ---------------------------------------------------------------- examples

  function OneField(name: string, value: string): HeadText {
    HeadText([], "P", "/", '1', "\r\n", [FieldText(name, " ", value, "", "\r\n")], "\r\n")
  }

  lemma OneFieldFits(name: string, value: string)
    requires GoodField(FieldText(name, " ", value, "", "\r\n")) && |name| + |value| <= 100
    ensures var h := OneField(name, value);
            && GoodHead(h) && Fitting(h) && RenderHead(h) != "" && Sents(h.fields) == [Sent(Canonical(name), value)]
  {
    var h := OneField(name, value);
    assert h.fields[1..] == [];
    assert |RequestText(h)| == 12;
    assert |FieldSpelling(h.fields[0])| == |name| + |value| + 2;
    assert |FieldLines(h.fields, h.end)| == |FieldSpelling(h.fields[0])| + 2 + |FieldLines([], h.end)|;
    RenderedSize(h);
    hide Canonical, GoodField, RenderHead, FieldLines, RequestText;
  }

  const CHUNKED_HEAD := RenderHead(OneField("Transfer-Encoding", "chunked"))

  lemma Letters(name: string)
    requires forall i :: 0 <= i < |name| ==> IsAlpha(name[i]) || name[i] == '-'
    ensures AllToken(name)
  {
    assert '-' in "!#$%&'*+-.^_`|~" by { assert "!#$%&'*+-.^_`|~"[8] == '-'; }
  }

  lemma ChunkedName()
    ensures Canonical("Transfer-Encoding") == "Transfer-Encoding" && AllToken("Transfer-Encoding")
  {
    Letters("Transfer-Encoding");
    hide AllToken;
  }

  lemma ChunkedValue()
    ensures OnlyChunked("chunked") && AllValue("chunked")
  {
    var value := "chunked";
    assert Find(value, ',') == 7;
    assert value[..7] == value;
    assert Tokens(value) == [value];
  }

  lemma OneSpace()
    ensures AllOws(" ") && AllOws("")
  {
  }

  lemma OneEncoding(sent: seq<Sent>)
    requires |sent| == 1 && sent[0].key == "Transfer-Encoding" && OnlyChunked(sent[0].value)
    ensures Clean(sent) && !HasLength(sent) && HasEncoding(sent) && !HasOption(sent, "close")
  {
    hide OnlyChunked, Tokens;
    assert IsEncodingField(sent[0]);
  }

  lemma ChunkedRequest() returns (m: Machine)
    ensures ParseHead(Machine(FRESH_PARSER, FRESH_REQUEST), CHUNKED_HEAD) == Stop(m, "")
    ensures m.p.body.Chunked? && m.p.chunk.Size? && m.r.state.HeadersCompleted? && m.r.keepAlive && CHUNKED_HEAD != ""
  {
    hide Canonical, OnlyChunked, RenderHead, RunHead, AllToken, AllValue, AllOws, Sents, HasLength, HasEncoding,
         HasOption, LengthOf, Clean, GoodHead, Fitting;
    var h := OneField("Transfer-Encoding", "chunked");
    m := Announced(h);
    ChunkedName();
    ChunkedValue();
    OneSpace();
    OneFieldFits("Transfer-Encoding", "chunked");
    OneEncoding(Sents(h.fields));
    HeadRoundTrip(FRESH_PARSER, h, "");
    assert CHUNKED_HEAD + "" == CHUNKED_HEAD;
  }

  // ---------------------------------------------------------------- a body of known length

  function LengthHead(n: nat): string { RenderHead(OneField("Content-Length", DecimalText(n))) }

  function Pow10(n: nat): nat { if n == 0 then 1 else 10 * Pow10(n - 1) }

  lemma {:induction false} DecimalShort(n: nat, digits: nat)
    requires n < Pow10(digits) && digits > 0
    ensures |DecimalText(n)| <= digits
    decreases digits
  {
    if n >= 10 { DecimalShort(n / 10, digits - 1); }
  }

  lemma LengthName()
    ensures Canonical("Content-Length") == "Content-Length" && AllToken("Content-Length")
  {
    Letters("Content-Length");
    hide AllToken;
  }

  lemma LengthValue(n: nat)
    requires n < CHUNKED_DATA
    ensures AllValue(DecimalText(n)) && Trimmed(DecimalText(n)) && |DecimalText(n)| <= 20
    ensures IsLength(DecimalText(n)) && Decimal(DecimalText(n)) == n
  {
    DecimalOfText(n);
    assert Pow10(10) == 10_000_000_000;
    assert Pow10(20) == 10_000_000_000 * Pow10(10) by { Pow10Twice(); }
    DecimalShort(n, 20);
    var text := DecimalText(n);
    assert AllValue(text) by { forall i | 0 <= i < |text| ensures IsValue(text[i]) { assert IsDigit(text[i]); } }
    assert IsDigit(text[0]) && IsDigit(text[|text| - 1]);
  }

  lemma Pow10Twice()
    ensures Pow10(20) == 10_000_000_000 * Pow10(10)
  {
    assert Pow10(15) == 100_000 * Pow10(10);
    assert Pow10(20) == 100_000 * Pow10(15);
  }

  lemma OneLength(sent: seq<Sent>, n: nat)
    requires |sent| == 1 && sent[0].key == "Content-Length" && IsLength(sent[0].value) && Decimal(sent[0].value) == n
    ensures Clean(sent) && HasLength(sent) && !HasEncoding(sent) && LengthOf(sent) == n && !HasOption(sent, "close")
  {
    hide IsLength, Decimal, Tokens;
    assert IsLengthField(sent[0]);
  }

  /** The head of a request with a body of `n` bytes announces just that. */
  lemma LengthRequest(p: Parser, n: nat) returns (m: Machine)
    requires 0 < n < CHUNKED_DATA
    ensures ParseHead(Machine(p, FRESH_REQUEST), LengthHead(n)) == Stop(m, "") && LengthHead(n) != ""
    ensures m.p.body.ContentLength? && m.p.remaining == n && m.r.state.HeadersCompleted? && m.r.keepAlive
  {
    hide Canonical, IsLength, Decimal, DecimalText, RenderHead, RunHead, AllToken, AllValue, AllOws, Sents, HasLength,
         HasEncoding, HasOption, LengthOf, Clean, GoodHead, Fitting;
    var h := OneField("Content-Length", DecimalText(n));
    m := Announced(h);
    LengthName();
    LengthValue(n);
    OneSpace();
    OneFieldFits("Content-Length", DecimalText(n));
    OneLength(Sents(h.fields), n);
    HeadRoundTrip(p, h, "");
    assert LengthHead(n) + "" == LengthHead(n);
  }
}
