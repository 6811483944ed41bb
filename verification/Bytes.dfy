/** Byte strings, the scanning helpers of the request parser, and their meaning.

    A byte string is a Dafny `string`; a byte is a char with a code of 0 to 255.
    Nothing below depends on that bound, so every statement also holds for all bytes. */
module Bytes {

  /** The index of the first `c` in `s`, or `|s|` when there is none (memchr, string_view::find). */
  function Find(s: string, c: char): (i: nat)
    ensures i <= |s|
    ensures forall j :: 0 <= j < i ==> s[j] != c
    ensures i < |s| ==> s[i] == c
  {
    FindFrom(s, c, 0)
  }

  function FindFrom(s: string, c: char, start: nat): (i: nat)
    requires start <= |s|
    ensures start <= i <= |s|
    ensures forall j :: start <= j < i ==> s[j] != c
    ensures i < |s| ==> s[i] == c
    decreases |s| - start
  {
    if start == |s| || s[start] == c then start else FindFrom(s, c, start + 1)
  }

  /** Appending data never moves the first occurrence of a byte, it can only create one. */
  lemma FindAppend(s: string, t: string, c: char)
    ensures Find(s, c) < |s| ==> Find(s + t, c) == Find(s, c)
    ensures Find(s, c) == |s| ==> Find(s + t, c) == |s| + Find(t, c)
  {
    assert forall x :: 0 <= x < |s| ==> (s + t)[x] == s[x];
    assert forall x :: |s| <= x < |s + t| ==> (s + t)[x] == t[x - |s|];
    assert forall x :: 0 <= x < |t| ==> t[x] == (s + t)[|s| + x];
  }

  /** The first LF or CRLF terminated line of `data`, without its terminator. */
  function LineText(data: string, lf: nat): (text: string)
    requires lf < |data|
  {
    if lf > 0 && data[lf - 1] == '\r' then data[..lf - 1] else data[..lf]
  }

  predicate IsOws(c: char) { c == ' ' || c == '\t' }
  predicate IsAlpha(c: char) { 'a' <= c <= 'z' || 'A' <= c <= 'Z' }
  predicate IsDigit(c: char) { '0' <= c <= '9' }

  /** RFC 7230 tchar. */
  predicate IsToken(c: char) {
    IsAlpha(c) || IsDigit(c) || c in "!#$%&'*+-.^_`|~"
  }
  /** Printable US-ASCII without whitespace. */
  predicate IsTarget(c: char) { ' ' < c < 0x7f as char }
  /** HTAB, SP, VCHAR and obs-text. */
  predicate IsValue(c: char) { c == '\t' || (c >= ' ' && c != 0x7f as char) }
  predicate IsHex(c: char) { IsDigit(c) || 'a' <= c <= 'f' || 'A' <= c <= 'F' }

  predicate AllToken(s: string) { forall i :: 0 <= i < |s| ==> IsToken(s[i]) }
  predicate AllTarget(s: string) { forall i :: 0 <= i < |s| ==> IsTarget(s[i]) }
  predicate AllValue(s: string) { forall i :: 0 <= i < |s| ==> IsValue(s[i]) }
  predicate AllHex(s: string) { forall i :: 0 <= i < |s| ==> IsHex(s[i]) }
  predicate AllDigit(s: string) { forall i :: 0 <= i < |s| ==> IsDigit(s[i]) }

  function Lower(c: char): char { if 'A' <= c <= 'Z' then (c as int + 32) as char else c }
  function Upper(c: char): char { if 'a' <= c <= 'z' then (c as int - 32) as char else c }

  predicate IEquals(a: string, b: string) {
    |a| == |b| && forall i :: 0 <= i < |a| ==> Lower(a[i]) == Lower(b[i])
  }

  function TrimFront(s: string): (r: string)
  {
    if s != "" && IsOws(s[0]) then TrimFront(s[1..]) else s
  }

  function TrimBack(s: string): (r: string)
  {
    if s != "" && IsOws(s[|s| - 1]) then TrimBack(s[..|s| - 1]) else s
  }

  /** Optional whitespace dropped from both ends. */
  function TrimOws(s: string): (r: string) { TrimBack(TrimFront(s)) }

  /** The non-empty, trimmed, comma separated tokens of a field value. */
  function Tokens(value: string): seq<string>
    decreases |value|
  {
    var comma := Find(value, ',');
    var token := TrimOws(value[..comma]);
    var first := if token == "" then [] else [token];
    if comma == |value| then first else first + Tokens(value[comma + 1..])
  }

  /** "content-length" becomes "Content-Length": the first byte and every byte after a
      dash is raised, all others are lowered. */
  function Canonical(name: string): (r: string)
    ensures |r| == |name|
  {
    seq(|name|, i requires 0 <= i < |name| =>
      if i == 0 || name[i - 1] == '-' then Upper(name[i]) else Lower(name[i]))
  }

  /** The value of a string of decimal digits. */
  function Decimal(s: string): (n: nat)
    requires AllDigit(s)
  {
    if s == "" then 0
    else 10 * Decimal(s[..|s| - 1]) + (s[|s| - 1] as int - '0' as int)
  }

  /** std::to_chars(..., 10) */
  function DecimalText(n: nat): (s: string)
    ensures s != "" && AllDigit(s)
  {
    if n < 10 then [('0' as int + n) as char]
    else
      var s := DecimalText(n / 10);
      s + [('0' as int + n % 10) as char]
  }

  lemma {:induction false} DecimalOfText(n: nat)
    ensures Decimal(DecimalText(n)) == n
  {
    var s := DecimalText(n);
    if n < 10 {
      assert s[..0] == "";
      assert Decimal(s) == 10 * Decimal("") + n;
    } else {
      DecimalOfText(n / 10);
      assert s[..|s| - 1] == DecimalText(n / 10);
    }
  }

  function HexDigit(c: char): (n: nat)
    requires IsHex(c)
    ensures n < 16
  {
    if c <= '9' then c as int - '0' as int else Lower(c) as int - 'a' as int + 10
  }

  /** The value of a string of hexadecimal digits. */
  function Hex(s: string): (n: nat)
    requires forall i :: 0 <= i < |s| ==> IsHex(s[i])
  {
    if s == "" then 0 else 16 * Hex(s[..|s| - 1]) + HexDigit(s[|s| - 1])
  }

  /** How many hexadecimal digits `s` starts with. */
  function HexPrefix(s: string): (n: nat)
    ensures n <= |s|
    ensures forall i :: 0 <= i < n ==> IsHex(s[i])
    ensures n < |s| ==> !IsHex(s[n])
  {
    HexFrom(s, 0)
  }

  function HexFrom(s: string, start: nat): (n: nat)
    requires start <= |s|
    ensures start <= n <= |s|
    ensures forall i :: start <= i < n ==> IsHex(s[i])
    ensures n < |s| ==> !IsHex(s[n])
    decreases |s| - start
  {
    if start == |s| || !IsHex(s[start]) then start else HexFrom(s, start + 1)
  }

  function Pow16(n: nat): nat { if n == 0 then 1 else 16 * Pow16(n - 1) }

  function Flatten(pieces: seq<string>): (s: string)
  {
    if pieces == [] then "" else pieces[0] + Flatten(pieces[1..])
  }

  lemma FlattenAppend(a: seq<string>, b: seq<string>)
    ensures Flatten(a + b) == Flatten(a) + Flatten(b)
  {
    if a == [] {
      assert a + b == b;
    } else {
      FlattenAppend(a[1..], b);
      assert (a + b)[1..] == a[1..] + b;
      assert Flatten(a + b) == a[0] + Flatten(a[1..] + b);
    }
  }

  /** `parts` with `separator` between each two neighbours. */
  function Join(parts: seq<string>, separator: string): (s: string)
  {
    if parts == [] then ""
    else if |parts| == 1 then parts[0]
    else Join(parts[..|parts| - 1], separator) + separator + parts[|parts| - 1]
  }

  function Min(a: nat, b: nat): nat { if a <= b then a else b }
}
