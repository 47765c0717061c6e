/**
 * String primitives the application form relies on, stated with the
 * semantics JavaScript gives them: the `\s` class and `trim`, ASCII
 * lower-casing of a language tag, decimal rendering of a positive index
 * inside a template literal, and `replace(/\n/g, …)` / `split('\n')`.
 */
module Strings {

  /** The WhiteSpace and LineTerminator code points of ECMAScript: exactly
      what the regular-expression class `\s` matches and what `trim` strips. */
  predicate IsWhitespace(c: char) {
    || c == '\t' || c == '\n' || c == '\U{000B}' || c == '\U{000C}' || c == '\r'
    || c == ' ' || c == '\U{00A0}' || c == '\U{1680}'
    || ('\U{2000}' <= c <= '\U{200A}')
    || c == '\U{2028}' || c == '\U{2029}' || c == '\U{202F}' || c == '\U{205F}'
    || c == '\U{3000}' || c == '\U{FEFF}'
  }

  /** Every character of `s` is whitespace (the empty string included). */
  predicate Blank(s: string) {
    forall k :: 0 <= k < |s| ==> IsWhitespace(s[k])
  }

  /** Drops the leading whitespace. */
  function TrimStart(s: string): string {
    if s != [] && IsWhitespace(s[0]) then TrimStart(s[1..]) else s
  }

  /** Drops the trailing whitespace. */
  function TrimEnd(s: string): string {
    if s != [] && IsWhitespace(s[|s| - 1]) then TrimEnd(s[..|s| - 1]) else s
  }

  /** A blank string with a whitespace character added at either end is
      still blank. */
  lemma BlankAround(c: char, s: string)
    requires IsWhitespace(c) && Blank(s)
    ensures Blank([c] + s) && Blank(s + [c])
  {
    assert forall k :: 1 <= k < |s| + 1 ==> ([c] + s)[k] == s[k - 1];
    assert forall k :: 0 <= k < |s| ==> (s + [c])[k] == s[k];
  }

  /** What `TrimStart` keeps is a suffix of `s` that does not start with
      whitespace, and what it drops is blank; so it keeps nothing exactly
      when `s` is blank. */
  lemma {:induction false} TrimStartSpec(s: string)
    ensures var r := TrimStart(s);
      && |r| <= |s| && r == s[|s| - |r|..]
      && Blank(s[..|s| - |r|])
      && (r == [] || !IsWhitespace(r[0]))
      && (r == [] <==> Blank(s))
  {
    if s != [] && IsWhitespace(s[0]) {
      var t := s[1..];
      TrimStartSpec(t);
      var r := TrimStart(t);
      assert t[|t| - |r|..] == s[|s| - |r|..];
      assert s[..|s| - |r|] == [s[0]] + t[..|t| - |r|];
      BlankAround(s[0], t[..|t| - |r|]);
      if Blank(t) {
        assert s == [s[0]] + t;
        BlankAround(s[0], t);
      }
    } else if s != [] {
      assert s[..0] == [];
    }
  }

  /** What `TrimEnd` keeps is a prefix of `s` that does not end with
      whitespace, and what it drops is blank; so it keeps nothing exactly
      when `s` is blank. */
  lemma {:induction false} TrimEndSpec(s: string)
    ensures var r := TrimEnd(s);
      && |r| <= |s| && r == s[..|r|]
      && Blank(s[|r|..])
      && (r == [] || !IsWhitespace(r[|r| - 1]))
      && (r == [] <==> Blank(s))
  {
    if s != [] && IsWhitespace(s[|s| - 1]) {
      var t := s[..|s| - 1];
      TrimEndSpec(t);
      var r := TrimEnd(t);
      assert t[..|r|] == s[..|r|];
      assert s[|r|..] == t[|r|..] + [s[|s| - 1]];
      BlankAround(s[|s| - 1], t[|r|..]);
      if Blank(t) {
        assert s == t + [s[|s| - 1]];
        BlankAround(s[|s| - 1], t);
      }
    } else if s != [] {
      assert s[|s|..] == [];
    }
  }

  /** `String.prototype.trim`. A string trims to the empty string exactly
      when it is blank, which is how `!value.trim()` decides that a field
      was left empty. */
  function Trim(s: string): (r: string)
    ensures r == [] <==> Blank(s)
  {
    TrimStartSpec(s);
    TrimEndSpec(TrimStart(s));
    TrimEnd(TrimStart(s))
  }

  /** `!s.trim()`, decided by looking for a character that `trim` keeps:
      the test succeeds exactly when `s` is blank, which is when it trims
      to the empty string (see `Trim`). */
  method TrimsToEmpty(s: string) returns (empty: bool)
    ensures empty <==> Blank(s)
    ensures empty <==> Trim(s) == []
  {
    for k := 0 to |s|
      invariant Blank(s[..k])
    {
      if !IsWhitespace(s[k]) {
        return false;
      }
      assert s[..k + 1] == s[..k] + [s[k]];
    }
    assert s[..|s|] == s;
    return true;
  }

  /** ASCII lower-casing of one character. */
  function LowerChar(c: char): char {
    if 'A' <= c <= 'Z' then (c as int + 32) as char else c
  }

  /** Lower-cases every ASCII letter of `s`, position by position. */
  function Lower(s: string): (r: string)
    ensures |r| == |s|
    ensures forall k :: 0 <= k < |s| ==> r[k] == LowerChar(s[k])
  {
    if s == [] then [] else [LowerChar(s[0])] + Lower(s[1..])
  }

  /** `s.startsWith(p)`. */
  predicate StartsWith(s: string, p: string) {
    |p| <= |s| && s[..|p|] == p
  }

  /** The character of a decimal digit. */
  function DigitChar(d: nat): char
    requires d < 10
  {
    (48 + d) as char
  }

  /** The value of a decimal digit character (0 for any other character). */
  function DigitValue(c: char): nat {
    if '0' <= c <= '9' then c as int - 48 else 0
  }

  /** How a template literal renders a non-negative integer: its decimal
      digits, most significant first, without leading zeros. */
  function Decimal(n: nat): (s: string)
    ensures |s| >= 1
    decreases n
  {
    if n < 10 then [DigitChar(n)] else Decimal(n / 10) + [DigitChar(n % 10)]
  }

  /** Reads a string of decimal digits back into a number. */
  function ParseDecimal(s: string): nat {
    if s == [] then 0 else ParseDecimal(s[..|s| - 1]) * 10 + DigitValue(s[|s| - 1])
  }

  /** Parsing undoes rendering. */
  lemma {:induction false} ParseDecimalOfDecimal(n: nat)
    ensures ParseDecimal(Decimal(n)) == n
    decreases n
  {
    if n >= 10 {
      var s := Decimal(n);
      assert s[..|s| - 1] == Decimal(n / 10);
      ParseDecimalOfDecimal(n / 10);
    }
  }

  /** Distinct numbers render as distinct strings. */
  lemma DecimalInjective(m: nat, n: nat)
    requires Decimal(m) == Decimal(n)
    ensures m == n
  {
    ParseDecimalOfDecimal(m);
    ParseDecimalOfDecimal(n);
  }

  /** `s.replace(/\n/g, repl)`: every line feed is replaced by `repl`, every
      other character is kept in place. */
  function ReplaceNewlines(s: string, repl: string): (r: string)
    ensures '\n' !in repl ==> '\n' !in r
  {
    if s == [] then []
    else (if s[0] == '\n' then repl else [s[0]]) + ReplaceNewlines(s[1..], repl)
  }

  /** `s.split('\n')`: the pieces between line feeds, always at least one.
      No piece holds a line feed, and joining the pieces with line feeds
      gives the text back, so the pieces are exactly the text between the
      line feeds. */
  function Lines(s: string): (parts: seq<string>)
    ensures |parts| >= 1
    ensures forall k :: 0 <= k < |parts| ==> '\n' !in parts[k]
    ensures Join(parts, "\n") == s
  {
    if s == [] then [""]
    else
      var rest := Lines(s[1..]);
      if s[0] == '\n' then
        JoinCons("", rest, "\n");
        [""] + rest
      else
        JoinPrepend(s[0], rest, "\n");
        [[s[0]] + rest[0]] + rest[1..]
  }

  /** `parts.join(sep)`. */
  function Join(parts: seq<string>, sep: string): string {
    if parts == [] then ""
    else if |parts| == 1 then parts[0]
    else parts[0] + sep + Join(parts[1..], sep)
  }

  /** Joining a piece in front of at least one more puts the separator
      between them. */
  lemma JoinCons(x: string, rest: seq<string>, sep: string)
    requires |rest| >= 1
    ensures Join([x] + rest, sep) == x + sep + Join(rest, sep)
  {
    assert ([x] + rest)[1..] == rest;
  }

  /** A character added to the first piece comes first in the joined text. */
  lemma JoinPrepend(c: char, rest: seq<string>, sep: string)
    requires |rest| >= 1
    ensures Join([[c] + rest[0]] + rest[1..], sep) == [c] + Join(rest, sep)
  {
    if |rest| > 1 {
      JoinCons([c] + rest[0], rest[1..], sep);
      assert rest == [rest[0]] + rest[1..];
      JoinCons(rest[0], rest[1..], sep);
    }
  }

  /** Replacing line feeds is the same as splitting into lines and joining
      the lines with the replacement. */
  lemma {:induction false} JoinedLines(s: string, repl: string)
    ensures Join(Lines(s), repl) == ReplaceNewlines(s, repl)
  {
    if s != [] {
      var rest := Lines(s[1..]);
      JoinedLines(s[1..], repl);
      if s[0] == '\n' {
        JoinCons("", rest, repl);
      } else {
        JoinPrepend(s[0], rest, repl);
      }
    }
  }
}
