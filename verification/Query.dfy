/** split, unescape_url and the query strings of the router. */
module Query {
  import opened Wrappers
  import opened Bytes

  // ---------------------------------------------------------------- splitting

  function Piece(s: string): seq<string> { if s == "" then [] else [s] }

  /** Splits `s` at most `count` times at `ch`, without a count as often as possible. */
  function Split(s: string, ch: char, count: Option<nat>): seq<string>
    decreases |s|
  {
    var at := Find(s, ch);
    if at == |s| || count == Some(0) then Piece(s)
    else Piece(s[..at]) + Split(s[at + 1..], ch, Less(count))
  }

  function Less(count: Option<nat>): Option<nat>
    requires count != Some(0)
  {
    if count.Some? then Some(count.value - 1) else None
  }

  lemma SplitStep(pieces: seq<string>, s: string, ch: char, count: Option<nat>)
    ensures var at := Find(s, ch);
            if at == |s| || count == Some(0) then Split(s, ch, count) == Piece(s)
            else pieces + Split(s, ch, count) == pieces + Piece(s[..at]) + Split(s[at + 1..], ch, Less(count))
  {
    hide Find;
    var at := Find(s, ch);
    if at < |s| && count != Some(0) { Assoc(pieces, Piece(s[..at]), Split(s[at + 1..], ch, Less(count))); }
  }

  lemma Assoc<T>(a: seq<T>, b: seq<T>, c: seq<T>)
    ensures a + (b + c) == a + b + c
  {
  }

  method SplitOf(s: string, ch: char, count: Option<nat>) returns (pieces: seq<string>)
    ensures pieces == Split(s, ch, count)
  {
    hide *;
    SplitStep([], s, ch, count);
    if s == "" {
      return Piece(s);
    }
    pieces := [];
    var rest, left := s, count;
    var at := Find(rest, ch);
    assert [] + Split(s, ch, count) == Split(s, ch, count);
    while at < |rest| && left != Some(0)
      invariant at == Find(rest, ch)
      invariant pieces + Split(rest, ch, left) == Split(s, ch, count)
      decreases |rest|
    {
      SplitStep(pieces, rest, ch, left);
      pieces := pieces + Piece(rest[..at]);
      rest, left := rest[at + 1..], Less(left);
      at := Find(rest, ch);
    }
    SplitStep(pieces, rest, ch, left);
    pieces := pieces + Piece(rest);
  }

  /** All pieces between the separators, the empty ones included; with a count only so many separators
      count, and the rest is one piece. */
  function Fields(s: string, ch: char, count: Option<nat>): (r: seq<string>)
    ensures r != [] && (count.Some? ==> |r| <= count.value + 1)
  {
    if s == "" then [""]
    else if s[0] == ch && count.None? then [""] + Fields(s[1..], ch, None)
    else if s[0] == ch && count.value > 0 then [""] + Fields(s[1..], ch, Some(count.value - 1))
    else
      var r := Fields(s[1..], ch, count);
      [[s[0]] + r[0]] + r[1..]
  }

  function NonEmpty(pieces: seq<string>): seq<string>
  {
    if pieces == [] then [] else Piece(pieces[0]) + NonEmpty(pieces[1..])
  }

  lemma {:induction false} FieldsAtFirst(s: string, ch: char, count: Option<nat>)
    ensures var at := Find(s, ch);
            Fields(s, ch, count) ==
            if at == |s| || count == Some(0) then [s] else [s[..at]] + Fields(s[at + 1..], ch, Less(count))
  {
    var at := Find(s, ch);
    if s != "" {
      assert [s[0]] + s[1..] == s;
      if s[0] != ch {
        FindTail(s, ch);
        FieldsAtFirst(s[1..], ch, count);
        if at < |s| { assert [s[0]] + s[1..][..at - 1] == s[..at] && s[1..][at..] == s[at + 1..]; }
      } else if count == Some(0) {
        FieldsAtFirst(s[1..], ch, count);
      }
    }
  }

  lemma FindTail(s: string, ch: char)
    requires s != "" && s[0] != ch
    ensures Find(s, ch) == Find(s[1..], ch) + 1
  {
  }

  /** The pieces are the non-empty fields, with a count and without. */
  lemma {:induction false} SplitIsFields(s: string, ch: char, count: Option<nat>)
    ensures Split(s, ch, count) == NonEmpty(Fields(s, ch, count))
    decreases |s|
  {
    FieldsAtFirst(s, ch, count);
    var at := Find(s, ch);
    hide Find, Fields;
    if at < |s| && count != Some(0) {
      var rest := Fields(s[at + 1..], ch, Less(count));
      SplitIsFields(s[at + 1..], ch, Less(count));
      assert ([s[..at]] + rest)[1..] == rest;
    } else {
      assert NonEmpty([s]) == Piece(s) + NonEmpty([]);
    }
  }

  // ---------------------------------------------------------------- escapes

  /** The text without its escapes; a truncated or malformed escape throws. */
  function Unescape(s: string): Option<string>
  {
    if s == "" then Some("")
    else if s[0] == '%' && !Escape(s) then None
    else
      var rest := Unescape(s[Width(s)..]);
      if rest.Some? then Some([First(s)] + rest.value) else None
  }

  predicate Escape(s: string) { |s| > 2 && IsHex(s[1]) && IsHex(s[2]) }

  function Width(s: string): (n: nat)
    requires s != "" && (s[0] == '%' ==> Escape(s))
    ensures 0 < n <= |s|
  {
    if s[0] == '%' then 3 else 1
  }

  function First(s: string): char
    requires s != "" && (s[0] == '%' ==> Escape(s))
  {
    if s[0] == '%' then (16 * HexDigit(s[1]) + HexDigit(s[2])) as char
    else if s[0] == '+' then ' '
    else s[0]
  }

  method UnescapeUrl(s: string) returns (out: Option<string>)
    ensures out == Unescape(s)
  {
    var text, rest := "", s;
    Prepended(s);
    while rest != ""
      invariant Unescape(s) == Prepend(text, Unescape(rest))
      decreases |rest|
    {
      if rest[0] == '%' && !Escape(rest) {
        return None;
      }
      PrependStep(text, rest);
      text, rest := text + [First(rest)], rest[Width(rest)..];
    }
    assert text + "" == text;
    return Some(text);
  }

  function Prepend(text: string, r: Option<string>): Option<string> { if r.Some? then Some(text + r.value) else None }

  lemma Prepended(s: string)
    ensures Prepend("", Unescape(s)) == Unescape(s)
  {
    if Unescape(s).Some? { assert "" + Unescape(s).value == Unescape(s).value; }
  }

  lemma PrependStep(text: string, rest: string)
    requires rest != "" && (rest[0] == '%' ==> Escape(rest))
    ensures Prepend(text, Unescape(rest)) == Prepend(text + [First(rest)], Unescape(rest[Width(rest)..]))
  {
    var tail := Unescape(rest[Width(rest)..]);
    if tail.Some? { assert text + ([First(rest)] + tail.value) == text + [First(rest)] + tail.value; }
  }

  /** A '%' which is not followed by two hexadecimal digits. */
  predicate BadEscapeAt(s: string, i: nat) { i < |s| && s[i] == '%' && !Escape(s[i..]) }

  lemma BadEscapeBehind(s: string, n: nat, i: nat)
    requires n <= |s|
    ensures BadEscapeAt(s[n..], i) == BadEscapeAt(s, n + i)
  {
    if n + i < |s| { assert s[n..][i..] == s[n + i..]; }
  }

  lemma FirstIsWhole(s: string, i: nat)
    requires s != "" && (s[0] == '%' ==> Escape(s)) && BadEscapeAt(s, i)
    ensures Width(s) <= i
  {
    assert s[0..] == s;
  }

  /** Decoding fails exactly if there is one. */
  lemma {:induction false} UnescapeFails(s: string)
    ensures Unescape(s).None? <==> exists i: nat :: BadEscapeAt(s, i)
  {
    if s != "" {
      if s[0] == '%' && !Escape(s) {
        assert s[0..] == s;
        assert BadEscapeAt(s, 0);
      } else {
        var n := Width(s);
        UnescapeFails(s[n..]);
        hide BadEscapeAt, Escape;
        if i: nat :| BadEscapeAt(s[n..], i) { BadEscapeBehind(s, n, i); }
        if i: nat :| BadEscapeAt(s, i) {
          FirstIsWhole(s, i);
          BadEscapeBehind(s, n, i - n);
        }
      }
    }
  }

  // ---------------------------------------------------------------- query strings

  type Pairs = seq<(string, string)>

  datatype Parsed = Queries(pairs: Pairs) | BadRequest | BadEscape

  /** One pair: only the first '=' separates. */
  function ParsePair(text: string): Parsed {
    var kv := Split(text, '=', Some(1));
    if |kv| == 1 then Pair(Unescape(kv[0]), Some(""))
    else if |kv| == 2 then Pair(Unescape(kv[0]), Unescape(kv[1]))
    else BadRequest
  }

  function Pair(key: Option<string>, value: Option<string>): Parsed {
    if key.Some? && value.Some? then Queries([(key.value, value.value)]) else BadEscape
  }

  /** The pairs in order, or the first error. */
  function ParsePairs(texts: seq<string>): Parsed
  {
    if texts == [] then Queries([]) else Both(ParsePair(texts[0]), ParsePairs(texts[1..]))
  }

  function Both(first: Parsed, rest: Parsed): Parsed {
    if !first.Queries? then first else if !rest.Queries? then rest else Queries(first.pairs + rest.pairs)
  }

  /** What the router makes of the text after the '?'. */
  function ParseQuery(text: string): Parsed { ParsePairs(Split(text, '&', None)) }

  method ParseQueryOf(text: string) returns (r: Parsed)
    ensures r == ParseQuery(text)
  {
    var texts := SplitOf(text, '&', None);
    var queries: Pairs := [];
    var i := 0;
    BothNothing(ParsePairs(texts));
    assert texts[0..] == texts;
    while i < |texts|
      invariant i <= |texts|
      invariant ParsePairs(texts) == Both(Queries(queries), ParsePairs(texts[i..]))
    {
      var pair := ReadPair(texts[i]);
      assert texts[i..][1..] == texts[i + 1..];
      if !pair.Queries? {
        return pair;
      }
      BothAssoc(queries, pair.pairs, ParsePairs(texts[i + 1..]));
      queries := queries + pair.pairs;
      i := i + 1;
    }
    assert queries + [] == queries;
    return Queries(queries);
  }

  method ReadPair(text: string) returns (r: Parsed)
    ensures r == ParsePair(text)
  {
    var kv := SplitOf(text, '=', Some(1));
    if |kv| == 1 {
      var key := UnescapeUrl(kv[0]);
      r := Pair(key, Some(""));
    } else if |kv| == 2 {
      var key := UnescapeUrl(kv[0]);
      var value := UnescapeUrl(kv[1]);
      r := Pair(key, value);
    } else {
      r := BadRequest;
    }
  }

  lemma BothNothing(r: Parsed)
    ensures Both(Queries([]), r) == r
  {
    if r.Queries? { assert [] + r.pairs == r.pairs; }
  }

  lemma BothAssoc(a: Pairs, b: Pairs, r: Parsed)
    ensures Both(Queries(a), Both(Queries(b), r)) == Both(Queries(a + b), r)
  {
    if r.Queries? { assert a + (b + r.pairs) == a + b + r.pairs; }
  }

  // ---------------------------------------------------------------- round trip

  predicate IsByte(c: char) { c as int < 256 }

  /** Percent-encoding with a free choice of the bytes which stay as they are, of the case of the
      digits, and of '+' for a space. */
  function Encode(s: string, keep: set<char>, plus: bool, digits: string): string
    requires |digits| == 16 && forall i :: 0 <= i < |s| ==> IsByte(s[i])
  {
    if s == "" then "" else EncodeByte(s[0], keep, plus, digits) + Encode(s[1..], keep, plus, digits)
  }

  function EncodeByte(c: char, keep: set<char>, plus: bool, digits: string): (e: string)
    requires |digits| == 16 && IsByte(c)
    ensures e != ""
  {
    if c == ' ' && plus then "+"
    else if c in keep then [c]
    else ['%', digits[c as int / 16], digits[c as int % 16]]
  }

  predicate IsDigits(digits: string) {
    |digits| == 16 && forall i :: 0 <= i < 16 ==> IsHex(digits[i]) && HexDigit(digits[i]) == i
  }

  lemma {:induction false} EncodeUndone(s: string, keep: set<char>, plus: bool, digits: string)
    requires IsDigits(digits) && '%' !in keep && '+' !in keep && forall i :: 0 <= i < |s| ==> IsByte(s[i])
    ensures Unescape(Encode(s, keep, plus, digits)) == Some(s)
  {
    if s != "" {
      EncodeUndone(s[1..], keep, plus, digits);
      var c, tail := s[0], Encode(s[1..], keep, plus, digits);
      var e := EncodeByte(c, keep, plus, digits) + tail;
      assert [c] + s[1..] == s;
      assert First(e) == c && e[Width(e)..] == tail;
    }
  }

  /** A byte which is no digit, no '%', no '+' and not kept does not occur in the encoded text. */
  lemma {:induction false} EncodeAvoids(s: string, keep: set<char>, plus: bool, digits: string, c: char)
    requires IsDigits(digits) && c !in keep && c !in "%+" && !IsHex(c) && forall i :: 0 <= i < |s| ==> IsByte(s[i])
    ensures c !in Encode(s, keep, plus, digits) && (s != "" ==> Encode(s, keep, plus, digits) != "")
  {
    if s != "" { EncodeAvoids(s[1..], keep, plus, digits, c); }
  }

  /** How a client is free to write a query string. */
  datatype Style = Style(keepInKeys: set<char>, keepInValues: set<char>, plus: bool, digits: string)

  predicate GoodStyle(style: Style) {
    && IsDigits(style.digits)
    && (forall c :: c in style.keepInKeys ==> c !in "%+&=")
    && (forall c :: c in style.keepInValues ==> c !in "%+&")
  }

  predicate BytePair(pair: (string, string)) {
    && (forall i :: 0 <= i < |pair.0| ==> IsByte(pair.0[i]))
    && (forall i :: 0 <= i < |pair.1| ==> IsByte(pair.1[i]))
  }

  function KeyText(pair: (string, string), style: Style): string
    requires BytePair(pair) && GoodStyle(style)
  {
    Encode(pair.0, style.keepInKeys, style.plus, style.digits)
  }

  function ValueText(pair: (string, string), style: Style): string
    requires BytePair(pair) && GoodStyle(style)
  {
    Encode(pair.1, style.keepInValues, style.plus, style.digits)
  }

  function PairText(pair: (string, string), style: Style): string
    requires BytePair(pair) && GoodStyle(style)
  {
    KeyText(pair, style) + "=" + ValueText(pair, style)
  }

  predicate BytePairs(pairs: Pairs) { forall i :: 0 <= i < |pairs| ==> BytePair(pairs[i]) }

  /** The pairs, joined with '&'. */
  function QueryText(pairs: Pairs, style: Style): string
    requires GoodStyle(style) && BytePairs(pairs)
  {
    if pairs == [] then ""
    else if |pairs| == 1 then PairText(pairs[0], style)
    else PairText(pairs[0], style) + "&" + QueryText(pairs[1..], style)
  }

  lemma SplitFirst(a: string, b: string, ch: char, count: Option<nat>)
    requires ch !in a && count != Some(0)
    ensures Split(a + [ch] + b, ch, count) == Piece(a) + Split(b, ch, Less(count))
  {
    var s := a + [ch] + b;
    assert s[|a|] == ch && s[..|a|] == a && s[|a| + 1..] == b;
    assert forall j :: 0 <= j < |a| ==> s[j] == a[j];
    assert Find(s, ch) == |a|;
  }

  /** How the text of one pair is parsed: without a key the value takes its place, and with nothing
      but a '=' there is no pair at all. */
  function PairResult(pair: (string, string)): Parsed {
    if pair.0 != "" then Queries([pair]) else if pair.1 != "" then Queries([(pair.1, "")]) else BadRequest
  }

  lemma PairParsed(pair: (string, string), style: Style)
    requires BytePair(pair) && GoodStyle(style)
    ensures ParsePair(PairText(pair, style)) == PairResult(pair)
    ensures '&' !in PairText(pair, style) && PairText(pair, style) != ""
  {
    hide KeyText, ValueText, Unescape, Find, BytePair, GoodStyle, Split;
    PairEncoded(pair, style);
    var key, value := KeyText(pair, style), ValueText(pair, style);
    SplitFirst(key, value, '=', Some(1));
    SplitNever(value, '=');
  }

  lemma SplitNever(s: string, ch: char)
    ensures Split(s, ch, Some(0)) == Piece(s)
  {
  }

  lemma PairEncoded(pair: (string, string), style: Style)
    requires BytePair(pair) && GoodStyle(style)
    ensures var key, value := KeyText(pair, style), ValueText(pair, style);
            && Unescape(key) == Some(pair.0) && Unescape(value) == Some(pair.1)
            && '=' !in key && '&' !in key && '&' !in value
            && (pair.0 == "" <==> key == "") && (pair.1 == "" <==> value == "")
  {
    EncodeUndone(pair.0, style.keepInKeys, style.plus, style.digits);
    EncodeUndone(pair.1, style.keepInValues, style.plus, style.digits);
    EncodeAvoids(pair.0, style.keepInKeys, style.plus, style.digits, '=');
    EncodeAvoids(pair.0, style.keepInKeys, style.plus, style.digits, '&');
    EncodeAvoids(pair.1, style.keepInValues, style.plus, style.digits, '&');
    hide Unescape;
  }

  function Results(pairs: Pairs): Parsed
  {
    if pairs == [] then Queries([]) else Both(PairResult(pairs[0]), Results(pairs[1..]))
  }

  /** A query string is parsed pair by pair. */
  lemma {:induction false} QueryParsed(pairs: Pairs, style: Style)
    requires GoodStyle(style) && BytePairs(pairs)
    ensures ParseQuery(QueryText(pairs, style)) == Results(pairs)
  {
    hide Encode, Unescape, Find, BytePair, GoodStyle, ParsePair, PairText, PairResult;
    if pairs == [] {
      assert Split("", '&', None) == [];
    } else {
      var text := PairText(pairs[0], style);
      PairParsed(pairs[0], style);
      if |pairs| == 1 {
        NoSplit(text, '&');
        assert ParsePairs([text]) == Both(ParsePair(text), ParsePairs([text][1..]));
      } else {
        QueryParsed(pairs[1..], style);
        var rest := QueryText(pairs[1..], style);
        SplitFirst(text, rest, '&', None);
        assert ([text] + Split(rest, '&', None))[1..] == Split(rest, '&', None);
      }
    }
  }

  lemma {:induction false} ResultsExact(pairs: Pairs)
    ensures Results(pairs) == Queries(pairs) <==> forall i :: 0 <= i < |pairs| ==> pairs[i].0 != ""
  {
    if pairs != [] {
      var first, rest := PairResult(pairs[0]), Results(pairs[1..]);
      ResultsExact(pairs[1..]);
      assert [pairs[0]] + pairs[1..] == pairs;
      assert forall i :: 0 < i < |pairs| ==> pairs[i] == pairs[1..][i - 1];
      if first.Queries? && rest.Queries? && first.pairs + rest.pairs == pairs {
        assert first.pairs == pairs[..1] && rest.pairs == pairs[1..];
      }
    }
  }

  /** However a list of pairs is escaped, it comes back in order if and only if no key is empty. */
  lemma QueryRoundTrip(pairs: Pairs, style: Style)
    requires GoodStyle(style) && BytePairs(pairs)
    ensures ParseQuery(QueryText(pairs, style)) == Queries(pairs) <==> forall i :: 0 <= i < |pairs| ==> pairs[i].0 != ""
  {
    QueryParsed(pairs, style);
    ResultsExact(pairs);
  }

  lemma NoSplit(s: string, ch: char)
    requires ch !in s && s != ""
    ensures Split(s, ch, None) == [s]
  {
  }

  // ---------------------------------------------------------------- redundant separators

  /** Splitting at a separator does not depend on what is around it. */
  lemma {:induction false} SplitConcat(a: string, b: string, ch: char)
    ensures Split(a + [ch] + b, ch, None) == Split(a, ch, None) + Split(b, ch, None)
    decreases |a|
  {
    var at := Find(a, ch);
    hide Find, Split, Piece;
    if at == |a| {
      SplitFirst(a, b, ch, None);
      SplitWhole(a, ch);
    } else {
      var head, tail := a[..at], a[at + 1..];
      assert a == head + [ch] + tail;
      SplitConcat(tail, b, ch);
      SplitFirst(head, tail + [ch] + b, ch, None);
      SplitFirst(head, tail, ch, None);
      assert a + [ch] + b == head + [ch] + (tail + [ch] + b);
      Assoc(Piece(head), Split(tail, ch, None), Split(b, ch, None));
    }
  }

  lemma SplitWhole(s: string, ch: char)
    requires Find(s, ch) == |s|
    ensures Split(s, ch, None) == Piece(s)
  {
    hide Find;
  }

  /** A doubled, leading or trailing separator produces nothing. */
  lemma SeparatorsRedundant(a: string, b: string, ch: char)
    ensures Split(a + [ch, ch] + b, ch, None) == Split(a + [ch] + b, ch, None)
    ensures Split([ch] + a, ch, None) == Split(a, ch, None) == Split(a + [ch], ch, None)
  {
    hide Split;
    SplitConcat(a, [ch] + b, ch);
    SplitConcat(a, b, ch);
    SplitConcat("", b, ch);
    SplitConcat("", a, ch);
    SplitConcat(a, "", ch);
    SplitNothing(ch);
    assert a + [ch] + ([ch] + b) == a + [ch, ch] + b;
    assert "" + [ch] + b == [ch] + b && "" + [ch] + a == [ch] + a && a + [ch] + "" == a + [ch];
    assert Split(a, ch, None) + [] == Split(a, ch, None);
    assert [] + Split(a, ch, None) == Split(a, ch, None) && [] + Split(b, ch, None) == Split(b, ch, None);
  }

  /** Non-empty pieces which are joined with a separator they do not have come back. */
  lemma {:induction false} SplitJoined(pieces: seq<string>, ch: char)
    requires forall i :: 0 <= i < |pieces| ==> pieces[i] != "" && ch !in pieces[i]
    ensures Split(Join(pieces, [ch]), ch, None) == pieces
  {
    hide Split;
    if pieces == [] {
      SplitNothing(ch);
    } else {
      var n := |pieces| - 1;
      NoSplit(pieces[n], ch);
      assert pieces[..n] + [pieces[n]] == pieces;
      if n > 0 {
        SplitJoined(pieces[..n], ch);
        SplitConcat(Join(pieces[..n], [ch]), pieces[n], ch);
      }
    }
  }

  /** The pieces of a text are not empty and do not have the separator. */
  lemma {:induction false} PiecesSplit(s: string, ch: char)
    ensures forall i :: 0 <= i < |Split(s, ch, None)| ==> Split(s, ch, None)[i] != "" && ch !in Split(s, ch, None)[i]
    decreases |s|
  {
    var at := Find(s, ch);
    assert ch !in s[..at];
    if at < |s| { PiecesSplit(s[at + 1..], ch); }
  }

  lemma SplitNothing(ch: char)
    ensures Split("", ch, None) == []
  {
  }
}
