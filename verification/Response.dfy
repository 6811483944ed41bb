/** response: its setters and its serialization. */
module Response {
  import opened Bytes
  import opened HttpMachine
  import opened Scanning
  import HeadSyntax

  type Fields = seq<(string, string)>

  // ---------------------------------------------------------------- text

  predicate Unsafe(c: char) { c == '\r' || c == '\n' || c == '\0' }

  /** CR, LF and NUL become spaces. */
  function Cleaned(part: string): (s: string)
    ensures |s| == |part| && OneLine(s) && '\0' !in s
    ensures forall i :: 0 <= i < |part| && !Unsafe(part[i]) ==> s[i] == part[i]
    ensures forall i :: 0 <= i < |part| && Unsafe(part[i]) ==> s[i] == ' '
  {
    seq(|part|, i requires 0 <= i < |part| => if Unsafe(part[i]) then ' ' else part[i])
  }

  method AppendHeaderPart(out: string, part: string) returns (r: string)
    ensures r == out + Cleaned(part)
  {
    r := out + part;
    for i := |out| to |r|
      invariant |r| == |out| + |part| && r[..|out|] == out && r[i..] == part[i - |out|..]
      invariant forall j :: |out| <= j < i ==> r[j] == Cleaned(part)[j - |out|]
    {
      if Unsafe(r[i]) {
        r := r[i := ' '];
      }
    }
  }

  // ---------------------------------------------------------------- what is sent

  /** What a response holds. `names` are the status lines known to the server. */
  datatype Reply = Reply(
    names: map<nat, string>, status: nat, fields: Fields, body: string, length: nat, keepAlive: int)

  function Code(v: Reply): nat { if v.status == 0 then 500 else v.status }

  predicate Informational(v: Reply) { 100 <= Code(v) < 200 }

  predicate BodyLess(v: Reply) { Informational(v) || Code(v) == 204 }

  function StatusLine(v: Reply): string {
    "HTTP/1.1 " + if Code(v) in v.names then v.names[Code(v)] else "500 Internal Server Error"
  }

  /** The fields which are computed, whatever the caller set. */
  predicate Computed(name: string) {
    IEquals(name, "Content-Length") || IEquals(name, "Transfer-Encoding") || IEquals(name, "Keep-Alive") ||
    IEquals(name, "Connection")
  }

  function CleanLine(f: (string, string)): string { Cleaned(f.0) + ": " + Cleaned(f.1) }

  function FieldLinesOf(fields: Fields): seq<string>
  {
    if fields == [] then [] else
    var n := |fields| - 1;
    FieldLinesOf(fields[..n]) + if Computed(fields[n].0) then [] else [CleanLine(fields[n])]
  }

  function FramingLines(v: Reply): seq<string> {
    if BodyLess(v) then []
    else if v.length == CHUNKED_DATA then ["Transfer-Encoding: chunked"]
    else ["Content-Length: " + DecimalText(v.length)]
  }

  function ConnectionLines(v: Reply, keepAlive: int): seq<string> {
    if Informational(v) then []
    else if keepAlive > 0 then ["Keep-Alive: timeout=" + DecimalText(keepAlive), "Connection: keep-alive"]
    else ["Connection: close"]
  }

  function Lines(v: Reply, override: int): seq<string> {
    [StatusLine(v)] + FieldLinesOf(v.fields) + FramingLines(v) +
    ConnectionLines(v, if override == -1 then v.keepAlive else override)
  }

  function SentBody(v: Reply): string { if BodyLess(v) then "" else v.body }

  function Text(lines: seq<string>): string
  {
    if lines == [] then "" else lines[0] + "\r\n" + Text(lines[1..])
  }

  lemma {:induction false} TextAppend(a: seq<string>, b: seq<string>)
    ensures Text(a + b) == Text(a) + Text(b)
  {
    if a == [] {
      assert a + b == b;
    } else {
      TextAppend(a[1..], b);
      assert (a + b)[1..] == a[1..] + b;
    }
  }

  lemma TextOne(lines: seq<string>, line: string)
    ensures Text(lines + [line]) == Text(lines) + line + "\r\n"
  {
    TextAppend(lines, [line]);
    assert Text([line]) == line + "\r\n" + Text([]);
  }

  // ---------------------------------------------------------------- the class

  class HttpResponse {
    const names: map<nat, string>
    var fields: Fields            // in the order the map yields them
    var status: nat
    var body: string
    var length: nat
    var keepAlive: int

    /** A body which is held is the one announced. */
    ghost predicate Valid()
      reads this
    {
      body != "" ==> length == |body|
    }

    function View(): Reply
      reads this
    {
      Reply(names, status, fields, body, length, keepAlive)
    }

    constructor (names: map<nat, string>, status: nat, body: string, fields: Fields)
      ensures Valid() && View() == Reply(names, status, fields, body, |body|, -1)
    {
      this.names, this.fields, this.status, this.body := names, fields, status, body;
      length, keepAlive := |body|, -1;
    }

    method SetContentLength(length: nat)
      modifies this`length, this`body
      ensures Valid() && View() == old(View()).(length := length, body := "")
    {
      this.length, body := length, "";
    }

    method SetBody(body: string)
      modifies this`length, this`body
      ensures Valid() && View() == old(View()).(length := |body|, body := body)
    {
      this.length, this.body := |body|, body;
    }

    method FieldText() returns (res: string)
      ensures res == Text(FieldLinesOf(fields))
    {
      res := "";
      for i := 0 to |fields|
        invariant res == Text(FieldLinesOf(fields[..i]))
      {
        var f := fields[i];
        FieldTextStep(fields, i);
        if !Computed(f.0) {
          res := AppendHeaderPart(res, f.0);
          res := AppendHeaderPart(res + ": ", f.1);
          res := res + "\r\n";
        }
      }
      assert fields[..|fields|] == fields;
    }

    /** to_string */
    method ToString(override: int) returns (res: string)
      ensures res == Text(Lines(View(), override)) + "\r\n" + SentBody(View())
      ensures GoodNames(names) ==> (Promised(View(), override, res) <==> NoneDeceptive(fields))
    {
      var v := View();
      var keep := if override == -1 then keepAlive else override;
      LinesText(v, override);
      hide StatusLine, FieldLinesOf, FramingLines, ConnectionLines, Lines, Text, SentBody, Promised, NoneDeceptive,
           GoodNames;
      res := StatusLine(v) + "\r\n";
      var named := FieldText();
      var framing := FramingText();
      var connection := ConnectionText(keep);
      res := res + named + framing + connection + "\r\n" + SentBody(v);
      if GoodNames(names) { PromiseIff(v, override); }
    }

    method FramingText() returns (res: string)
      ensures res == Text(FramingLines(View()))
    {
      var v := View();
      if BodyLess(v) {
        res := "";
      } else if length == CHUNKED_DATA {
        res := "Transfer-Encoding: chunked\r\n";
        TextOne([], "Transfer-Encoding: chunked");
      } else {
        res := "Content-Length: " + DecimalText(length) + "\r\n";
        TextOne([], "Content-Length: " + DecimalText(length));
      }
    }

    method ConnectionText(keep: int) returns (res: string)
      ensures res == Text(ConnectionLines(View(), keep))
    {
      var v := View();
      if Informational(v) {
        res := "";
      } else if keep > 0 {
        res := "Keep-Alive: timeout=" + DecimalText(keep) + "\r\n" + "Connection: keep-alive\r\n";
        ghost var first := "Keep-Alive: timeout=" + DecimalText(keep);
        TextOne([], first);
        TextOne([first], "Connection: keep-alive");
        assert [first] + ["Connection: keep-alive"] == [first, "Connection: keep-alive"];
      } else {
        res := "Connection: close\r\n";
        TextOne([], "Connection: close");
      }
    }
  }

  lemma FieldTextStep(fields: Fields, i: nat)
    requires i < |fields|
    ensures Text(FieldLinesOf(fields[..i + 1])) == Text(FieldLinesOf(fields[..i])) +
            if Computed(fields[i].0) then "" else Cleaned(fields[i].0) + ": " + Cleaned(fields[i].1) + "\r\n"
  {
    assert fields[..i + 1][..i] == fields[..i];
    TextOne(FieldLinesOf(fields[..i]), CleanLine(fields[i]));
    hide Cleaned, Computed, Text;
    assert FieldLinesOf(fields[..i]) + [] == FieldLinesOf(fields[..i]);
  }

  lemma LinesText(v: Reply, override: int)
    ensures var keep := if override == -1 then v.keepAlive else override;
            Text(Lines(v, override)) ==
            StatusLine(v) + "\r\n" + Text(FieldLinesOf(v.fields)) + Text(FramingLines(v)) +
            Text(ConnectionLines(v, keep))
  {
    var keep := if override == -1 then v.keepAlive else override;
    var a, b, c := FieldLinesOf(v.fields), FramingLines(v), ConnectionLines(v, keep);
    TextOne([], StatusLine(v));
    assert [] + [StatusLine(v)] == [StatusLine(v)] && Text([]) == "";
    hide StatusLine, FieldLinesOf, FramingLines, ConnectionLines, Text;
    TextAppend([StatusLine(v)], a);
    TextAppend([StatusLine(v)] + a, b);
    TextAppend([StatusLine(v)] + a + b, c);
  }

  // ---------------------------------------------------------------- reading it back

  /** The lines up to the first empty one, and what follows it. */
  function ReadHead(s: string): (seq<string>, string)
    decreases |s|
  {
    var lf := Find(s, '\n');
    if lf == |s| then ([], s) else
    var line := LineText(s, lf);
    if line == "" then ([], s[lf + 1..]) else
    var (lines, rest) := ReadHead(s[lf + 1..]);
    ([line] + lines, rest)
  }

  /** Every line is a line, and none is empty. */
  predicate AllLines(lines: seq<string>) { forall i :: 0 <= i < |lines| ==> lines[i] != "" && OneLine(lines[i]) }

  lemma ReadLine(line: string, rest: string)
    requires OneLine(line)
    ensures ReadHead(line + ("\r\n" + rest)) ==
            if line == "" then ([], rest) else ([line] + ReadHead(rest).0, ReadHead(rest).1)
  {
    LineOf(line, "\r\n", rest);
    hide Find, LineText, OneLine;
  }

  /** Everything that is sent. */
  function Whole(lines: seq<string>, body: string): string { Text(lines) + "\r\n" + body }

  lemma WholeFirst(lines: seq<string>, body: string)
    ensures lines == [] ==> Whole(lines, body) == "" + ("\r\n" + body)
    ensures lines != [] ==> Whole(lines, body) == lines[0] + ("\r\n" + Whole(lines[1..], body))
  {
  }

  lemma {:induction false} HeadReadBack(lines: seq<string>, body: string)
    requires AllLines(lines)
    ensures ReadHead(Whole(lines, body)) == (lines, body)
  {
    assert OneLine("");
    hide ReadHead, OneLine, Whole;
    WholeFirst(lines, body);
    if lines == [] {
      ReadLine("", body);
    } else {
      HeadReadBack(lines[1..], body);
      ReadLine(lines[0], Whole(lines[1..], body));
      assert [lines[0]] + lines[1..] == lines;
    }
  }

  predicate GoodNames(names: map<nat, string>) { forall code :: code in names ==> OneLine(names[code]) }

  lemma {:induction false} FieldLinesSound(fields: Fields)
    ensures AllLines(FieldLinesOf(fields))
  {
    if fields != [] {
      var n := |fields| - 1;
      FieldLinesSound(fields[..n]);
      JoinLines(Cleaned(fields[n].0) + ":", ' ', Cleaned(fields[n].1));
      assert Cleaned(fields[n].0) + ":" + [' '] + Cleaned(fields[n].1) == CleanLine(fields[n]);
    }
  }

  lemma DigitsOneLine(text: string, n: nat)
    requires OneLine(text)
    ensures OneLine(text + DecimalText(n))
  {
    var d := DecimalText(n);
    assert forall i :: 0 <= i < |d| ==> IsDigit(d[i]);
  }

  lemma FramingSound(v: Reply)
    ensures AllLines(FramingLines(v))
  {
    assert OneLine("Transfer-Encoding: chunked") && OneLine("Content-Length: ");
    hide OneLine;
    DigitsOneLine("Content-Length: ", v.length);
  }

  lemma ConnectionSound(v: Reply, keep: int)
    ensures AllLines(ConnectionLines(v, keep))
  {
    assert OneLine("Keep-Alive: timeout=") && OneLine("Connection: keep-alive") && OneLine("Connection: close");
    hide OneLine;
    if keep > 0 { DigitsOneLine("Keep-Alive: timeout=", keep); }
  }

  lemma StatusSound(v: Reply)
    requires GoodNames(v.names)
    ensures AllLines([StatusLine(v)])
  {
    var line := StatusLine(v);
    forall i | 0 <= i < |line| ensures line[i] != '\r' && line[i] != '\n' {
      if i >= 9 { assert line[i] == line[9..][i - 9]; }
    }
  }

  lemma LinesSound(v: Reply, override: int)
    requires GoodNames(v.names)
    ensures AllLines(Lines(v, override))
  {
    var keep := if override == -1 then v.keepAlive else override;
    FieldLinesSound(v.fields);
    FramingSound(v);
    ConnectionSound(v, keep);
    StatusSound(v);
    hide StatusLine, FieldLinesOf, FramingLines, ConnectionLines, OneLine;
  }

  /** The first empty line of a response ends its head, whatever its fields and its body are, and
      what follows is exactly the body it holds. */
  lemma HeadEndsOnce(v: Reply, override: int)
    requires GoodNames(v.names)
    ensures ReadHead(Text(Lines(v, override)) + "\r\n" + SentBody(v)) == (Lines(v, override), SentBody(v))
  {
    LinesSound(v, override);
    hide Lines, SentBody, OneLine;
    HeadReadBack(Lines(v, override), SentBody(v));
  }

  // ---------------------------------------------------------------- what a client reads

  predicate Reserved(key: string) { key in {"Content-Length", "Transfer-Encoding", "Keep-Alive", "Connection"} }

  /** The name of a line in its canonical spelling, and its value. */
  function Key(line: string): string { Canonical(line[..Find(line, ':')]) }

  function ValueOf(line: string): string
    requires ':' in line
  {
    TrimOws(line[Find(line, ':') + 1..])
  }

  /** The values of the lines with this name, in order. */
  function Named(lines: seq<string>, key: string): seq<string>
  {
    if lines == [] then []
    else (if Key(lines[0]) == key && ':' in lines[0] then [ValueOf(lines[0])] else []) + Named(lines[1..], key)
  }

  /** The lines with other names. */
  function Others(lines: seq<string>): seq<string>
  {
    if lines == [] then [] else (if Reserved(Key(lines[0])) then [] else [lines[0]]) + Others(lines[1..])
  }

  lemma {:induction false} NamedAppend(a: seq<string>, b: seq<string>, key: string)
    ensures Named(a + b, key) == Named(a, key) + Named(b, key)
  {
    hide Key, ValueOf;
    if a == [] {
      assert a + b == b;
    } else {
      NamedAppend(a[1..], b, key);
      assert (a + b)[1..] == a[1..] + b;
      var first := if Key(a[0]) == key && ':' in a[0] then [ValueOf(a[0])] else [];
      assert first + (Named(a[1..], key) + Named(b, key)) == first + Named(a[1..], key) + Named(b, key);
    }
  }

  lemma {:induction false} OthersAppend(a: seq<string>, b: seq<string>)
    ensures Others(a + b) == Others(a) + Others(b)
  {
    hide Key, Reserved;
    if a == [] {
      assert a + b == b;
    } else {
      OthersAppend(a[1..], b);
      assert (a + b)[1..] == a[1..] + b;
      var first := if Reserved(Key(a[0])) then [] else [a[0]];
      assert first + (Others(a[1..]) + Others(b)) == first + Others(a[1..]) + Others(b);
    }
  }

  /** The lines a caller may expect for the fields it set. */
  function Expected(fields: Fields): seq<string>
  {
    if fields == [] then [] else
    var n := |fields| - 1;
    Expected(fields[..n]) +
    if Reserved(Canonical(fields[n].0)) then [] else [Cleaned(fields[n].0) + ": " + Cleaned(fields[n].1)]
  }

  /** What a client finds in the text of a response: its status, the fields the caller set, in order,
      where its body ends, whether the connection persists, and its body. */
  ghost predicate Promised(v: Reply, override: int, text: string) {
    var code := if v.status == 0 then 500 else v.status;
    var keep := if override == -1 then v.keepAlive else override;
    var (lines, rest) := ReadHead(text);
    && lines != []
    && lines[0] == "HTTP/1.1 " + (if code in v.names then v.names[code] else "500 Internal Server Error")
    && Others(lines[1..]) == Expected(v.fields)
    && Named(lines[1..], "Content-Length") ==
       (if 100 <= code < 200 || code == 204 || v.length == CHUNKED_DATA then [] else [DecimalText(v.length)])
    && Named(lines[1..], "Transfer-Encoding") ==
       (if 100 <= code < 200 || code == 204 || v.length != CHUNKED_DATA then [] else ["chunked"])
    && Named(lines[1..], "Connection") ==
       (if 100 <= code < 200 then [] else if keep > 0 then ["keep-alive"] else ["close"])
    && Named(lines[1..], "Keep-Alive") ==
       (if 100 <= code < 200 || keep <= 0 then [] else ["timeout=" + DecimalText(keep)])
    && rest == if 100 <= code < 200 || code == 204 then "" else v.body
  }

  /** A field name with a colon behind one of the computed names. */
  predicate Deceptive(name: string) { ':' in name && Reserved(Canonical(name[..Find(name, ':')])) }

  // ---------------------------------------------------------------- the lines of the fields

  lemma ReservedLetters(name: string, i: nat)
    requires Reserved(name) && i < |name|
    ensures IsAlpha(name[i]) || name[i] == '-'
  {
  }

  lemma ReservedSpelling(name: string)
    requires Reserved(name)
    ensures Canonical(name) == name
  {
    assert Canonical("Keep-Alive") == "Keep-Alive" && Canonical("Connection") == "Connection";
    assert Canonical("Content-Length") == "Content-Length" && Canonical("Transfer-Encoding") == "Transfer-Encoding";
  }

  /** The four comparisons of to_string. */
  lemma ComputedIff(name: string)
    ensures Computed(name) <==> Reserved(Canonical(name))
  {
    ReservedSpelling("Content-Length");
    ReservedSpelling("Transfer-Encoding");
    ReservedSpelling("Keep-Alive");
    ReservedSpelling("Connection");
    HeadSyntax.CanonicalIff(name, "Content-Length");
    HeadSyntax.CanonicalIff(name, "Transfer-Encoding");
    HeadSyntax.CanonicalIff(name, "Keep-Alive");
    HeadSyntax.CanonicalIff(name, "Connection");
    hide Canonical, IEquals;
  }

  lemma OnlyLetters(name: string, i: nat)
    requires i < |name| && (name[i] == ':' || name[i] == ' ' || Unsafe(name[i]))
    ensures !Reserved(Canonical(name))
  {
    var key := Canonical(name);
    assert key[i] == name[i];
    hide Canonical;
    if Reserved(key) { ReservedLetters(key, i); }
  }

  lemma CleanedReserved(name: string)
    ensures Reserved(Canonical(Cleaned(name))) <==> Reserved(Canonical(name))
  {
    if i :| 0 <= i < |name| && Unsafe(name[i]) {
      OnlyLetters(name, i);
      OnlyLetters(Cleaned(name), i);
    } else {
      assert Cleaned(name) == name;
    }
  }

  function Before(name: string): string { name[..Find(name, ':')] }

  lemma LineName(f: (string, string))
    ensures Key(CleanLine(f)) == Canonical(Cleaned(Before(f.0))) && ':' in CleanLine(f)
  {
    var line, n := CleanLine(f), Find(f.0, ':');
    assert line[|f.0|] == ':';
    forall i | 0 <= i < |f.0| ensures line[i] == ':' <==> f.0[i] == ':' { assert line[i] == Cleaned(f.0)[i]; }
    assert Find(line, ':') == n;
    assert line[..n] == Cleaned(Before(f.0));
  }

  /** The line of a field is one of the computed ones exactly if its name is, or is deceptive. */
  lemma FieldKey(f: (string, string))
    ensures Reserved(Key(CleanLine(f))) <==> Reserved(Canonical(f.0)) || Deceptive(f.0)
  {
    LineName(f);
    CleanedReserved(Before(f.0));
    var n := Find(f.0, ':');
    if n < |f.0| { OnlyLetters(f.0, n); } else { assert f.0[..n] == f.0; }
    hide Canonical, Cleaned, Key, CleanLine;
  }

  predicate NoneDeceptive(fields: Fields) { forall i :: 0 <= i < |fields| ==> !Deceptive(fields[i].0) }

  lemma OneLineRead(line: string, key: string)
    ensures Others([line]) == (if Reserved(Key(line)) then [] else [line])
    ensures Named([line], key) == if Key(line) == key && ':' in line then [ValueOf(line)] else []
    ensures Others([]) == [] && Named([], key) == []
  {
    hide Key, ValueOf;
    assert [line][1..] == [];
  }

  /** The line of one field, as it is written, expected and read. */
  lemma FieldRead(f: (string, string), key: string)
    requires Reserved(key)
    ensures var b := if Computed(f.0) then [] else [CleanLine(f)];
            var e := if Reserved(Canonical(f.0)) then [] else [Cleaned(f.0) + ": " + Cleaned(f.1)];
            && (if Deceptive(f.0) then Others(b) == [] && |e| == 1 else Others(b) == e)
            && (!Deceptive(f.0) ==> Named(b, key) == [])
  {
    hide Key, Cleaned, Deceptive, Computed, Canonical, Reserved;
    ComputedIff(f.0);
    FieldKey(f);
    OneLineRead(CleanLine(f), key);
    ReservedNotDeceptive(f.0);
  }

  lemma SumsAgree(a: seq<string>, x: seq<string>, b: seq<string>, y: seq<string>)
    requires |a| <= |b| && (x == y || (x == [] && |y| == 1))
    ensures |a + x| <= |b + y| && (a + x == b + y <==> a == b && x == y)
  {
    if a + x == b + y { assert a == (a + x)[..|a|] && b == (b + y)[..|b|]; }
  }

  /** The lines of the fields are read as expected exactly if no name is deceptive. */
  lemma {:induction false} FieldsRead(fields: Fields, key: string)
    requires Reserved(key)
    ensures |Others(FieldLinesOf(fields))| <= |Expected(fields)|
    ensures Others(FieldLinesOf(fields)) == Expected(fields) <==> NoneDeceptive(fields)
    ensures NoneDeceptive(fields) ==> Named(FieldLinesOf(fields), key) == []
  {
    hide Key, Cleaned, Deceptive, Computed, Canonical, Reserved, CleanLine, Others, Named;
    OneLineRead("", key);
    if fields != [] {
      var n, f := |fields| - 1, fields[|fields| - 1];
      FieldsRead(fields[..n], key);
      FieldRead(f, key);
      var a, b := FieldLinesOf(fields[..n]), if Computed(f.0) then [] else [CleanLine(f)];
      var e := if Reserved(Canonical(f.0)) then [] else [Cleaned(f.0) + ": " + Cleaned(f.1)];
      OthersAppend(a, b);
      NamedAppend(a, b, key);
      SumsAgree(Others(a), Others(b), Expected(fields[..n]), e);
      LastDeceptive(fields);
    }
  }

  lemma LastDeceptive(fields: Fields)
    requires fields != []
    ensures var n := |fields| - 1; NoneDeceptive(fields) <==> NoneDeceptive(fields[..n]) && !Deceptive(fields[n].0)
  {
    hide Deceptive;
  }

  lemma ReservedNotDeceptive(name: string)
    ensures Deceptive(name) ==> !Reserved(Canonical(name))
  {
    if Deceptive(name) { OnlyLetters(name, Find(name, ':')); }
  }

  // ---------------------------------------------------------------- the computed lines

  lemma LineSplits(name: string, value: string)
    requires Reserved(name) && Trimmed(value)
    ensures var line := name + (": " + value); Key(line) == name && ':' in line && ValueOf(line) == value
  {
    forall i | 0 <= i < |name| ensures name[i] != ':' { ReservedLetters(name, i); }
    ReservedSpelling(name);
    hide Reserved, Canonical, TrimOws, Find;
    var line := name + (": " + value);
    assert line == name + [':'] + (" " + value);
    FindFirst(name, ':', " " + value);
    Parts(name, ':', " " + value);
    assert line[|name|] == ':';
    TrimOf(" ", value, "");
    assert value + "" == value;
  }

  lemma LineRead(line: string, name: string, value: string, key: string)
    requires Reserved(name) && Reserved(key) && Trimmed(value) && line == name + (": " + value)
    ensures Others([line]) == [] && Named([line], key) == if name == key then [value] else []
  {
    hide Reserved, Key, ValueOf;
    LineSplits(name, value);
    OneLineRead(line, key);
  }

  lemma DigitsTrimmed(text: string, n: nat)
    requires text == "" || !IsOws(text[0])
    ensures Trimmed(text + DecimalText(n))
  {
    var d := DecimalText(n);
    var s := text + d;
    assert IsDigit(d[0]) && IsDigit(d[|d| - 1]) && s[|s| - 1] == d[|d| - 1];
    assert s[0] == if text == "" then d[0] else text[0];
  }

  /** The values of the computed lines. */
  function FramingValues(v: Reply, key: string): seq<string> {
    if BodyLess(v) then []
    else if v.length == CHUNKED_DATA then if key == "Transfer-Encoding" then ["chunked"] else []
    else if key == "Content-Length" then [DecimalText(v.length)] else []
  }

  function ConnectionValues(v: Reply, keep: int, key: string): seq<string> {
    if Informational(v) then []
    else if keep <= 0 then if key == "Connection" then ["close"] else []
    else if key == "Keep-Alive" then ["timeout=" + DecimalText(keep)]
    else if key == "Connection" then ["keep-alive"] else []
  }

  lemma FramingRead(v: Reply, key: string)
    requires Reserved(key)
    ensures Others(FramingLines(v)) == [] && Named(FramingLines(v), key) == FramingValues(v, key)
  {
    hide Named, Others, DecimalText;
    OneLineRead("", key);
    if !BodyLess(v) {
      if v.length == CHUNKED_DATA {
        LineRead("Transfer-Encoding: chunked", "Transfer-Encoding", "chunked", key);
      } else {
        LengthRead(v.length, key);
      }
    }
  }

  lemma LengthRead(n: nat, key: string)
    requires Reserved(key)
    ensures var lines := ["Content-Length: " + DecimalText(n)];
            Others(lines) == [] && Named(lines, key) == if key == "Content-Length" then [DecimalText(n)] else []
  {
    hide Named, Others, DecimalText;
    var digits := DecimalText(n);
    DigitsTrimmed("", n);
    assert "" + digits == digits;
    assert "Content-Length: " + digits == "Content-Length" + (": " + digits);
    FourReserved();
    hide Reserved;
    LineRead("Content-Length: " + digits, "Content-Length", digits, key);
  }

  lemma ConnectionRead(v: Reply, keep: int, key: string)
    requires Reserved(key)
    ensures Others(ConnectionLines(v, keep)) == []
    ensures Named(ConnectionLines(v, keep), key) == ConnectionValues(v, keep, key)
  {
    hide Named, Others, DecimalText;
    OneLineRead("", key);
    if keep > 0 {
      KeepAliveRead(keep, key);
    } else {
      LineRead("Connection: close", "Connection", "close", key);
    }
  }

  lemma KeepAliveRead(keep: nat, key: string)
    requires Reserved(key)
    ensures var lines := ["Keep-Alive: timeout=" + DecimalText(keep), "Connection: keep-alive"];
            && Others(lines) == []
            && Named(lines, key) ==
               if key == "Keep-Alive" then ["timeout=" + DecimalText(keep)]
               else if key == "Connection" then ["keep-alive"] else []
  {
    hide Named, Others, DecimalText;
    var value := "timeout=" + DecimalText(keep);
    DigitsTrimmed("timeout=", keep);
    var first, second := "Keep-Alive: timeout=" + DecimalText(keep), "Connection: keep-alive";
    assert first == "Keep-Alive" + (": " + value);
    LineRead(first, "Keep-Alive", value, key);
    LineRead(second, "Connection", "keep-alive", key);
    assert [first] + [second] == [first, second];
    NamedAppend([first], [second], key);
    OthersAppend([first], [second]);
  }

  /** The head behind the status line. */
  lemma HeadRead(v: Reply, override: int, key: string)
    requires Reserved(key)
    ensures var keep := if override == -1 then v.keepAlive else override;
            && Others(Lines(v, override)[1..]) == Others(FieldLinesOf(v.fields))
            && (NoneDeceptive(v.fields) ==>
                  Named(Lines(v, override)[1..], key) == FramingValues(v, key) + ConnectionValues(v, keep, key))
  {
    hide StatusLine, FieldLinesOf, FramingLines, ConnectionLines, Named, Others, FramingValues, ConnectionValues,
         Reserved, NoneDeceptive, Expected;
    var keep := if override == -1 then v.keepAlive else override;
    var a, b, c := FieldLinesOf(v.fields), FramingLines(v), ConnectionLines(v, keep);
    assert Lines(v, override)[1..] == a + b + c;
    FieldsRead(v.fields, key);
    FramingRead(v, key);
    ConnectionRead(v, keep, key);
    NamedAppend(a + b, c, key);
    NamedAppend(a, b, key);
    OthersAppend(a + b, c);
    OthersAppend(a, b);
    assert Others(a) + [] + [] == Others(a);
    assert [] + Named(b, key) == Named(b, key);
  }

  lemma FourReserved()
    ensures Reserved("Content-Length") && Reserved("Transfer-Encoding")
    ensures Reserved("Connection") && Reserved("Keep-Alive")
  {
  }

  /** A client finds what was promised exactly if no field name is deceptive. */
  lemma PromiseIff(v: Reply, override: int)
    requires GoodNames(v.names)
    ensures Promised(v, override, Text(Lines(v, override)) + "\r\n" + SentBody(v)) <==> NoneDeceptive(v.fields)
  {
    hide Named, Others, ReadHead, Text, DecimalText, FieldLinesOf, FramingLines, ConnectionLines, NoneDeceptive,
         Expected, Reserved, GoodNames;
    HeadEndsOnce(v, override);
    FourReserved();
    FieldsRead(v.fields, "Connection");
    HeadRead(v, override, "Content-Length");
    HeadRead(v, override, "Transfer-Encoding");
    HeadRead(v, override, "Connection");
    HeadRead(v, override, "Keep-Alive");
  }

  /** A client finds exactly one line which says where the body ends, and none if there is no body. */
  lemma OneFraming(v: Reply, override: int)
    requires GoodNames(v.names) && NoneDeceptive(v.fields)
    ensures var lines := ReadHead(Text(Lines(v, override)) + "\r\n" + SentBody(v)).0;
            && lines != []
            && |Named(lines[1..], "Content-Length")| + |Named(lines[1..], "Transfer-Encoding")| ==
               if BodyLess(v) then 0 else 1
  {
    hide Named, Others, ReadHead, Text, DecimalText, Lines, NoneDeceptive, Expected, GoodNames;
    PromiseIff(v, override);
  }

  /** A body which is sent is as long as its head says. */
  lemma LengthIsTrue(v: Reply, override: int)
    requires GoodNames(v.names) && NoneDeceptive(v.fields)
    requires (v.body != "" ==> v.length == |v.body|) && |v.body| < CHUNKED_DATA
    ensures var (lines, rest) := ReadHead(Text(Lines(v, override)) + "\r\n" + SentBody(v));
            rest != "" ==>
              && lines != [] && |Named(lines[1..], "Content-Length")| == 1
              && var digits := Named(lines[1..], "Content-Length")[0]; AllDigit(digits) && Decimal(digits) == |rest|
  {
    DecimalOfText(v.length);
    hide Named, Others, ReadHead, Text, DecimalText, Decimal, Lines, NoneDeceptive, Expected, GoodNames;
    PromiseIff(v, override);
  }

  /** A name without a colon, such as a token, is not deceptive. */
  lemma TokenIsHonest(name: string)
    requires AllToken(name)
    ensures !Deceptive(name)
  {
    OneLines(name);
  }
}
