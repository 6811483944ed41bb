/** What an accepted request head means: the header map in terms of the lines which were
    sent, and the round trip from a well-formed head to the parsed request. */
module HeadSyntax {
  import opened Wrappers
  import opened Bytes
  import opened HttpMachine
  import Fragmentation

  // ---------------------------------------------------------------- field names

  /** Names are canonicalized to the same text exactly when they are equal ignoring case. */
  lemma {:induction false} CanonicalIff(a: string, b: string)
    ensures Canonical(a) == Canonical(b) <==> IEquals(a, b)
  {
    if Canonical(a) == Canonical(b) {
      assert |a| == |b|;
      SameFlags(a, b, |a|);
    }
    if IEquals(a, b) {
      forall i | 0 <= i < |a| ensures Canonical(a)[i] == Canonical(b)[i] {
        assert Lower(a[i]) == Lower(b[i]);
        if i > 0 { assert Lower(a[i - 1]) == Lower(b[i - 1]); }
      }
    }
  }

  lemma {:induction false} SameFlags(a: string, b: string, n: nat)
    requires Canonical(a) == Canonical(b) && |a| == |b| && n <= |a|
    ensures forall i :: 0 <= i < n ==> Lower(a[i]) == Lower(b[i])
    decreases n
  {
    if n > 0 {
      SameFlags(a, b, n - 1);
      assert Canonical(a)[n - 1] == Canonical(b)[n - 1];
      assert n > 1 ==> Lower(a[n - 2]) == Lower(b[n - 2]);
    }
  }

  lemma CanonicalIdempotent(a: string)
    ensures Canonical(Canonical(a)) == Canonical(a)
  {
    var c := Canonical(a);
    assert |c| == |a|;
    CanonicalIff(c, a);
    forall i | 0 <= i < |a| ensures Lower(c[i]) == Lower(a[i]) {}
  }

  // ---------------------------------------------------------------- the header map

  /** A field as it was sent, under its canonical name. */
  datatype Sent = Sent(key: string, value: string)

  /** The values which were sent for `key`, in arrival order. */
  function Values(sent: seq<Sent>, key: string): (vs: seq<string>)
  {
    if sent == [] then [] else
    var last := sent[|sent| - 1];
    Values(sent[..|sent| - 1], key) + if last.key == key then [last.value] else []
  }

  /** What the map holds for a name which was sent with the values `vs`. */
  function Combined(key: string, vs: seq<string>): string
    requires vs != []
  {
    if key == "Content-Length" then vs[0] else Join(vs, ", ")
  }

  /** `key` is in the map exactly when it was sent, and then with its combined value. */
  predicate Entry(fields: map<string, string>, sent: seq<Sent>, key: string) {
    var vs := Values(sent, key);
    (key in fields <==> vs != []) && (key in fields ==> fields[key] == Combined(key, vs))
  }

  /** The map after one more field, which replaces nothing. */
  function Stored(fields: map<string, string>, s: Sent): map<string, string>
  {
    if s.key !in fields then fields[s.key := s.value]
    else if s.key == "Content-Length" then fields
    else fields[s.key := fields[s.key] + ", " + s.value]
  }

  function MapOf(sent: seq<Sent>): map<string, string>
  {
    if sent == [] then map[] else Stored(MapOf(sent[..|sent| - 1]), sent[|sent| - 1])
  }

  lemma {:induction false} MapEntry(sent: seq<Sent>, key: string)
    ensures Entry(MapOf(sent), sent, key)
  {
    if sent != [] {
      var front, last := sent[..|sent| - 1], sent[|sent| - 1];
      MapEntry(front, key);
      var vs := Values(front, key);
      assert vs + [] == vs;
      if vs == [] {
        assert vs + [last.value] == [last.value];
      } else {
        assert (vs + [last.value])[..|vs|] == vs;
        assert Join(vs + [last.value], ", ") == Join(vs, ", ") + ", " + last.value;
      }
    }
  }

  // ---------------------------------------------------------------- framing data

  /** The length the map announces, when it has one. */
  function LengthIn(fields: map<string, string>): Option<nat>
  {
    if "Content-Length" in fields && IsLength(fields["Content-Length"])
    then Some(Decimal(fields["Content-Length"])) else None
  }

  /** The parser's own framing data is what the map says. */
  predicate Framed(p: Parser, fields: map<string, string>) {
    && p.hasContentLength == ("Content-Length" in fields)
    && LengthIn(fields) == (if p.hasContentLength then Some(p.contentLength) else None)
    && (!p.hasContentLength ==> p.contentLength == 0)
    && p.chunked == ("Transfer-Encoding" in fields)
  }

  /** A field which `step` accepted is in the map, and still framed. */
  predicate StoredBy(step: Step, fields: map<string, string>, s: Sent) {
    step.Ok? ==> step.m.r.fields == Stored(fields, s) && Framed(step.m.p, step.m.r.fields)
  }

  lemma LengthStored(fields: map<string, string>, s: Sent)
    requires s.key == "Content-Length" && IsLength(s.value) && s.key !in fields
    ensures LengthIn(Stored(fields, s)) == Some(Decimal(s.value))
  {
  }

  lemma OtherStored(fields: map<string, string>, s: Sent)
    requires s.key != "Content-Length"
    ensures LengthIn(Stored(fields, s)) == LengthIn(fields)
  {
    hide IsLength, Decimal;
  }

  lemma ApplyStores(m: Machine, s: Sent, step: Step)
    requires Framed(m.p, m.r.fields) && step == ApplyField(m, s.key, s.value)
    ensures StoredBy(step, m.r.fields, s)
  {
    hide Tokens, HasToken, IEquals, Decimal, IsLength, SameButFields, LengthIn;
    if s.key != "Content-Length" {
      OtherStored(m.r.fields, s);
    } else if step.Ok? && s.key !in m.r.fields {
      LengthStored(m.r.fields, s);
    }
  }

  // ---------------------------------------------------------------- the lines of a head

  function SentIn(text: string): Sent
    requires text != ""
  {
    match SplitField(text)
    case Field(name, value) => Sent(Canonical(name), value)
    case BadField => Sent("", "")
  }

  /** The fields of the lines before the first empty one. */
  function FieldsOf(data: string): (sent: seq<Sent>)
    decreases |data|
  {
    var lf := Find(data, '\n');
    if lf == |data| || LineText(data, lf) == "" then []
    else [SentIn(LineText(data, lf))] + FieldsOf(data[lf + 1..])
  }

  /** What follows the request line and the empty lines before it. */
  function AfterRequestLine(data: string): string
    decreases |data|
  {
    var lf := Find(data, '\n');
    if lf == |data| then ""
    else if LineText(data, lf) == "" then AfterRequestLine(data[lf + 1..])
    else data[lf + 1..]
  }

  lemma FieldIsApplied(m: Machine, text: string)
    requires text != "" && ParseHeaderField(m, text).Ok?
    ensures ParseHeaderField(m, text) ==
              ApplyField(m.(p := m.p.(headers := m.p.headers + 1)), SentIn(text).key, SentIn(text).value)
  {
    hide ApplyField, TrimOws, Canonical, Find;
  }

  lemma LineIsField(m: Machine, text: string, n: nat)
    requires m.p.head.Headers? && HeadLine(m, text, n).Ok?
    ensures text != "" ==> HeadLine(m, text, n) == ParseHeaderField(m.(p := m.p.(headSeen := m.p.headSeen + n)), text)
    ensures text == "" ==> HeadLine(m, text, n).m.r.fields == m.r.fields
    ensures text == "" && Framed(m.p, m.r.fields) ==> Framed(HeadLine(m, text, n).m.p, m.r.fields)
    ensures HeadLine(m, text, n).m.p.head == if text == "" then Done else Headers
  {
    hide ParseHeaderField;
  }

  lemma LineStores(m: Machine, text: string, step: Step, n: nat)
    requires m.p.head.Headers? && Framed(m.p, m.r.fields) && text != "" && step == HeadLine(m, text, n)
    ensures StoredBy(step, m.r.fields, SentIn(text))
    ensures step.Ok? ==> step.m.p.head.Headers?
  {
    hide HeadLine, SentIn, ApplyField, ParseHeaderField;
    if step.Ok? {
      var m1 := m.(p := m.p.(headSeen := m.p.headSeen + n));
      LineIsField(m, text, n);
      FieldIsApplied(m1, text);
      ApplyStores(m1.(p := m1.p.(headers := m1.p.headers + 1)), SentIn(text), step);
    }
  }

  lemma MapAppend(sent: seq<Sent>, s: Sent)
    ensures MapOf(sent + [s]) == Stored(MapOf(sent), s)
  {
    assert (sent + [s])[..|sent|] == sent;
  }

  lemma {:induction false} FieldLinesStored(m: Machine, data: string, sent: seq<Sent>, o: Outcome)
    requires m.p.head.Headers? && Framed(m.p, m.r.fields) && m.r.fields == MapOf(sent)
    requires o == RunHead(m, data) && o.Stop? && o.m.p.head.Done?
    ensures o.m.r.fields == MapOf(sent + FieldsOf(data)) && Framed(o.m.p, o.m.r.fields)
    decreases |data|
  {
    hide HeadLine, MapOf, Framed, SentIn, Stored, Find, LineText;
    var lf := Find(data, '\n');
    assert lf < |data|;
    Fragmentation.HeadStep(m, data);
    var text := LineText(data, lf);
    var step := HeadLine(m, text, lf + 1);
    LineIsField(m, text, lf + 1);
    if text == "" {
      assert sent + [] == sent;
      assert o.m == step.m;
    } else {
      var s := SentIn(text);
      LineStores(m, text, step, lf + 1);
      MapAppend(sent, s);
      FieldLinesStored(step.m, data[lf + 1..], sent + [s], o);
      assert sent + [s] + FieldsOf(data[lf + 1..]) == sent + FieldsOf(data);
    }
  }

  lemma RequestLineStores(m: Machine, text: string, n: nat, step: Step)
    requires m.p.head.RequestLine? && step == HeadLine(m, text, n) && step.Ok?
    ensures step.m.r.fields == m.r.fields
    ensures step.m.p.head == if text == "" then RequestLine else Headers
    ensures Framed(m.p, m.r.fields) ==> Framed(step.m.p, m.r.fields)
  {
    hide FirstLine;
  }

  lemma EmptyMap()
    ensures MapOf([]) == map[]
  {
  }

  lemma {:induction false} HeadStored(m: Machine, data: string, o: Outcome)
    requires m.p.head.RequestLine? && Framed(m.p, m.r.fields) && m.r.fields == map[]
    requires o == RunHead(m, data) && o.Stop? && o.m.p.head.Done?
    ensures o.m.r.fields == MapOf(FieldsOf(AfterRequestLine(data))) && Framed(o.m.p, o.m.r.fields)
    decreases |data|
  {
    hide HeadLine, MapOf, Framed, Find, LineText;
    EmptyMap();
    var lf := Find(data, '\n');
    assert lf < |data|;
    var text := LineText(data, lf);
    var step := HeadLine(m, text, lf + 1);
    RequestLineStores(m, text, lf + 1, step);
    if text == "" {
      HeadStored(step.m, data[lf + 1..], o);
    } else {
      FieldLinesStored(step.m, data[lf + 1..], [], o);
      assert [] + FieldsOf(data[lf + 1..]) == FieldsOf(data[lf + 1..]);
    }
  }

  /** request::content_length(): the stored digits, or the sentinel. */
  function ContentLengthOf(r: Request): nat
  {
    match LengthIn(r.fields) case Some(n) => n case None => CHUNKED_DATA
  }

  /** After any accepted head every entry is the combination of what was sent under that
      name, however the lines arrived, and the request and the parser agree on the length. */
  lemma HeaderMap(p: Parser, data: string, m: Machine, rest: string)
    requires ParseHead(Machine(p, FRESH_REQUEST), data) == Stop(m, rest) && m.p.head.Done?
    ensures forall key :: Entry(m.r.fields, FieldsOf(AfterRequestLine(data)), key)
    ensures ContentLengthOf(m.r) == if m.p.hasContentLength then m.p.contentLength else CHUNKED_DATA
    ensures ContentLengthOf(m.r) == CHUNKED_DATA <==> "Content-Length" !in m.r.fields
  {
    hide RunHead, MapOf, Entry, FieldsOf, AfterRequestLine;
    HeadStored(BeginRequest(Machine(p, FRESH_REQUEST)), data, Stop(m, rest));
    forall key ensures Entry(m.r.fields, FieldsOf(AfterRequestLine(data)), key) {
      MapEntry(FieldsOf(AfterRequestLine(data)), key);
    }
  }
}
