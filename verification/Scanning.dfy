/** Lines and lists as they are written, and what the scanning helpers of the parser make of them. */
module Scanning {
  import opened Bytes

  // ---------------------------------------------------------------- lines

  predicate IsEol(eol: string) { eol == "\n" || eol == "\r\n" }

  predicate OneLine(text: string) { forall i :: 0 <= i < |text| ==> text[i] != '\r' && text[i] != '\n' }

  lemma FindFirst(before: string, c: char, rest: string)
    requires forall i :: 0 <= i < |before| ==> before[i] != c
    ensures Find(before + [c] + rest, c) == |before|
  {
    var s := before + [c] + rest;
    assert s[|before|] == c;
    assert forall i :: 0 <= i < |before| ==> s[i] == before[i];
  }

  lemma Parts(a: string, c: char, b: string)
    ensures (a + [c] + b)[..|a|] == a && (a + [c] + b)[|a| + 1..] == b
  {
  }

  /** A line is found as it was written, with either end. */
  lemma LineOf(text: string, eol: string, rest: string)
    requires OneLine(text) && IsEol(eol)
    ensures var s, lf := text + (eol + rest), |text| + |eol| - 1;
            Find(s, '\n') == lf < |s| && LineText(s, lf) == text && s[lf + 1..] == rest
  {
    var before := text + eol[..|eol| - 1];
    FindFirst(before, '\n', rest);
    assert before + ['\n'] + rest == text + (eol + rest);
    hide Find;
    var s := text + (eol + rest);
    if eol == "\r\n" { assert s[|text|] == '\r'; } else if text != "" { assert s[|text| - 1] == text[|text| - 1]; }
  }

  /** What is found as a line was written as one. */
  lemma LineSplit(data: string) returns (eol: string)
    requires Find(data, '\n') < |data|
    ensures var lf := Find(data, '\n');
            && IsEol(eol) && |LineText(data, lf)| + |eol| == lf + 1
            && data == LineText(data, lf) + (eol + data[lf + 1..])
  {
    var lf := Find(data, '\n');
    hide Find;
    eol := if lf > 0 && data[lf - 1] == '\r' then "\r\n" else "\n";
    assert data == data[..lf + 1 - |eol|] + (eol + data[lf + 1..]);
  }

  lemma OneLines(s: string)
    ensures AllToken(s) || AllTarget(s) || AllValue(s) ==> OneLine(s)
    ensures AllToken(s) ==> forall i :: 0 <= i < |s| ==> s[i] != ' ' && s[i] != ':' && s[i] != '\t'
    ensures AllTarget(s) ==> forall i :: 0 <= i < |s| ==> s[i] != ' '
  {
    if AllToken(s) {
      forall i | 0 <= i < |s|
        ensures s[i] != ' ' && s[i] != ':' && s[i] != '\t' && s[i] != '\r' && s[i] != '\n' { assert IsToken(s[i]); }
    }
    if AllTarget(s) { forall i | 0 <= i < |s| ensures s[i] > ' ' { assert IsTarget(s[i]); } }
    if AllValue(s) { forall i | 0 <= i < |s| ensures s[i] >= ' ' || s[i] == '\t' { assert IsValue(s[i]); } }
  }

  lemma JoinLines(a: string, c: char, b: string)
    requires OneLine(a) && OneLine(b) && c != '\r' && c != '\n'
    ensures OneLine(a + [c] + b)
  {
    var s := a + [c] + b;
    forall i | 0 <= i < |s| ensures s[i] != '\r' && s[i] != '\n' {
      if i < |a| { assert s[i] == a[i]; } else if i > |a| { assert s[i] == b[i - |a| - 1]; }
    }
  }

  // ---------------------------------------------------------------- optional whitespace

  predicate AllOws(s: string) { forall i :: 0 <= i < |s| ==> IsOws(s[i]) }

  predicate Trimmed(s: string) { s != "" ==> !IsOws(s[0]) && !IsOws(s[|s| - 1]) }

  lemma {:induction false} FrontTrimmed(before: string, s: string)
    requires AllOws(before) && (s == "" || !IsOws(s[0]))
    ensures TrimFront(before + s) == s
  {
    if before == "" {
      assert before + s == s;
    } else {
      assert (before + s)[1..] == before[1..] + s;
      FrontTrimmed(before[1..], s);
    }
  }

  lemma {:induction false} BackTrimmed(s: string, after: string)
    requires AllOws(after) && (s == "" || !IsOws(s[|s| - 1]))
    ensures TrimBack(s + after) == s
  {
    if after == "" {
      assert s + after == s;
    } else {
      var n := |after| - 1;
      assert (s + after)[..|s + after| - 1] == s + after[..n];
      BackTrimmed(s, after[..n]);
    }
  }

  /** Whitespace around a text is dropped, and nothing of the text. */
  lemma TrimOf(before: string, text: string, after: string)
    requires AllOws(before) && AllOws(after) && Trimmed(text)
    ensures TrimOws(before + (text + after)) == text
  {
    hide TrimFront, TrimBack;
    if text == "" {
      assert before + (text + after) == before + after + "";
      FrontTrimmed(before + after, "");
      assert "" + "" == "";
      BackTrimmed("", "");
    } else {
      assert (text + after)[0] == text[0];
      FrontTrimmed(before, text + after);
      BackTrimmed(text, after);
    }
  }

  lemma {:induction false} FrontSplit(s: string) returns (before: string)
    ensures s == before + TrimFront(s) && AllOws(before) && (TrimFront(s) == "" || !IsOws(TrimFront(s)[0]))
  {
    before := "";
    if s != "" && IsOws(s[0]) {
      before := FrontSplit(s[1..]);
      before := [s[0]] + before;
    }
  }

  lemma {:induction false} BackSplit(s: string) returns (after: string)
    ensures s == TrimBack(s) + after && AllOws(after)
    ensures TrimBack(s) == "" || !IsOws(TrimBack(s)[|TrimBack(s)| - 1])
  {
    after := "";
    if s != "" && IsOws(s[|s| - 1]) {
      after := BackSplit(s[..|s| - 1]);
      after := after + [s[|s| - 1]];
    }
  }

  /** Every text is its trimmed text with whitespace around it. */
  lemma TrimSplit(s: string) returns (before: string, after: string)
    ensures s == before + (TrimOws(s) + after) && AllOws(before) && AllOws(after) && Trimmed(TrimOws(s))
  {
    hide TrimFront, TrimBack;
    before := FrontSplit(s);
    after := BackSplit(TrimFront(s));
    if TrimOws(s) != "" { assert TrimOws(s)[0] == TrimFront(s)[0]; }
  }

  // ---------------------------------------------------------------- lists

  /** An element of a list with the whitespace around it. */
  datatype Item = Item(before: string, text: string, after: string)

  predicate GoodItem(item: Item) {
    AllOws(item.before) && AllOws(item.after) && Trimmed(item.text) && ',' !in item.text
  }

  function ItemText(item: Item): string { item.before + (item.text + item.after) }

  function ListText(items: seq<Item>): string
  {
    if items == [] then ""
    else if |items| == 1 then ItemText(items[0])
    else ItemText(items[0]) + [','] + ListText(items[1..])
  }

  function NonEmpty(items: seq<Item>): seq<string>
  {
    if items == [] then []
    else (if items[0].text == "" then [] else [items[0].text]) + NonEmpty(items[1..])
  }

  lemma NoComma(item: Item)
    requires GoodItem(item)
    ensures ',' !in ItemText(item) && TrimOws(ItemText(item)) == item.text
  {
    TrimOf(item.before, item.text, item.after);
    hide TrimOws;
    forall i | 0 <= i < |ItemText(item)| ensures ItemText(item)[i] != ',' {
      var n := |item.before|;
      if n <= i < n + |item.text| {
        assert ItemText(item)[i] == item.text[i - n];
      } else {
        assert IsOws(ItemText(item)[i]);
      }
    }
  }

  /** The tokens of a list are its non-empty elements, without the whitespace around them. */
  lemma {:induction false} TokensOfList(items: seq<Item>)
    requires forall i :: 0 <= i < |items| ==> GoodItem(items[i])
    ensures Tokens(ListText(items)) == NonEmpty(items)
  {
    if items == [] {
      assert Find("", ',') == 0 && TrimOws("") == "";
    } else {
      var first, text := ItemText(items[0]), ListText(items);
      NoComma(items[0]);
      TokensOfList(items[1..]);
      hide TrimOws, ItemText;
      if |items| == 1 {
        assert NonEmpty(items[1..]) == [];
        assert Find(text, ',') == |text| && text[..|text|] == text;
      } else {
        FindFirst(first, ',', ListText(items[1..]));
        Parts(first, ',', ListText(items[1..]));
      }
    }
  }
}
