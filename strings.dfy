/** The few `str` operations of Rust's standard library the core relies on:
    ASCII case mapping, prefix and substring tests, `split`, `split_whitespace`,
    `join`, decimal formatting of integers and `trim().is_empty()`. */
module Strings {

  predicate IsAsciiUpper(c: char) { 'A' <= c <= 'Z' }
  predicate IsAsciiLower(c: char) { 'a' <= c <= 'z' }

  function LowerChar(c: char): char
  {
    if IsAsciiUpper(c) then (c as int + 32) as char else c
  }

  function UpperChar(c: char): char
  {
    if IsAsciiLower(c) then (c as int - 32) as char else c
  }

  /** ASCII lower-casing; every other character is kept. */
  function AsciiLower(s: string): string
  {
    seq(|s|, i requires 0 <= i < |s| => LowerChar(s[i]))
  }

  function AsciiUpper(s: string): string
  {
    seq(|s|, i requires 0 <= i < |s| => UpperChar(s[i]))
  }

  /** `eq_ignore_ascii_case` */
  predicate EqIgnoreAsciiCase(a: string, b: string)
  {
    AsciiLower(a) == AsciiLower(b)
  }

  predicate StartsWith(s: string, prefix: string)
  {
    |prefix| <= |s| && s[..|prefix|] == prefix
  }

  lemma StartsWithConcat(prefix: string, rest: string)
    ensures StartsWith(prefix + rest, prefix)
  {
    assert (prefix + rest)[..|prefix|] == prefix;
  }

  predicate Contains(s: string, sub: string)
    decreases |s|
  {
    StartsWith(s, sub) || (|s| > 0 && Contains(s[1..], sub))
  }

  /** Rust's `char::is_whitespace`: the Unicode White_Space property. */
  predicate IsWhitespace(c: char)
  {
    var n := c as int;
    (9 <= n <= 13) || n == 32 || n == 0x85 || n == 0xA0 || n == 0x1680
    || (0x2000 <= n <= 0x200A) || n == 0x2028 || n == 0x2029 || n == 0x202F
    || n == 0x205F || n == 0x3000
  }

  /** `s.trim().is_empty()` */
  predicate IsBlank(s: string)
  {
    forall i :: 0 <= i < |s| ==> IsWhitespace(s[i])
  }

  /** `s.split(sep)`: always at least one piece; empty pieces are kept. */
  function Split(s: string, sep: char): (parts: seq<string>)
    ensures |parts| >= 1
    decreases |s|
  {
    if |s| == 0 then [""]
    else
      var rest := Split(s[1..], sep);
      if s[0] == sep then [""] + rest else [[s[0]] + rest[0]] + rest[1..]
  }

  /** `parts.join(sep)` */
  function Join(parts: seq<string>, sep: char): string
  {
    if |parts| == 0 then ""
    else if |parts| == 1 then parts[0]
    else parts[0] + [sep] + Join(parts[1..], sep)
  }

  /** The pieces of `s` between runs of whitespace, before empty pieces are dropped. */
  function SplitOnWhitespace(s: string): (parts: seq<string>)
    ensures |parts| >= 1
    decreases |s|
  {
    if |s| == 0 then [""]
    else
      var rest := SplitOnWhitespace(s[1..]);
      if IsWhitespace(s[0]) then [""] + rest else [[s[0]] + rest[0]] + rest[1..]
  }

  function DropEmpty(parts: seq<string>): seq<string>
  {
    if |parts| == 0 then []
    else (if parts[0] == "" then [] else [parts[0]]) + DropEmpty(parts[1..])
  }

  /** `s.split_whitespace()` */
  function SplitWhitespace(s: string): seq<string>
  {
    DropEmpty(SplitOnWhitespace(s))
  }

  function DigitChar(d: nat): char
    requires d < 10
  {
    ('0' as int + d) as char
  }

  /** Decimal text of a non-negative integer, as `format!("{}")` writes it. */
  function DecimalString(n: nat): (s: string)
    ensures |s| >= 1
    ensures forall i :: 0 <= i < |s| ==> '0' <= s[i] <= '9'
  {
    if n < 10 then [DigitChar(n)] else DecimalString(n / 10) + [DigitChar(n % 10)]
  }

  /** Value of a string of decimal digits. */
  function DecimalValue(s: string): nat
    requires forall i :: 0 <= i < |s| ==> '0' <= s[i] <= '9'
  {
    if |s| == 0 then 0 else DecimalValue(s[..|s| - 1]) * 10 + (s[|s| - 1] as int - '0' as int)
  }

  lemma {:induction false} DecimalRoundTrip(n: nat)
    ensures DecimalValue(DecimalString(n)) == n
    ensures n > 0 ==> DecimalString(n)[0] != '0'
  {
    if n >= 10 {
      DecimalRoundTrip(n / 10);
      var s := DecimalString(n);
      assert s[..|s| - 1] == DecimalString(n / 10);
    }
  }

  lemma {:induction false} SplitWithoutSep(p: string, sep: char)
    requires sep !in p
    ensures Split(p, sep) == [p]
    decreases |p|
  {
    if |p| > 0 {
      SplitWithoutSep(p[1..], sep);
      assert [p[0]] + p[1..] == p;
    }
  }

  lemma {:induction false} SplitAfterPiece(p: string, sep: char, t: string)
    requires sep !in p
    ensures Split(p + [sep] + t, sep) == [p] + Split(t, sep)
    decreases |p|
  {
    var s := p + [sep] + t;
    if |p| == 0 {
      assert s[1..] == t;
    } else {
      assert s[1..] == p[1..] + [sep] + t;
      SplitAfterPiece(p[1..], sep, t);
      assert [p[0]] + p[1..] == p;
    }
  }

  /** `split` undoes `join` when no piece contains the separator. */
  lemma {:induction false} SplitJoin(parts: seq<string>, sep: char)
    requires |parts| >= 1
    requires forall i :: 0 <= i < |parts| ==> sep !in parts[i]
    ensures Split(Join(parts, sep), sep) == parts
  {
    if |parts| == 1 {
      SplitWithoutSep(parts[0], sep);
    } else {
      SplitJoin(parts[1..], sep);
      SplitAfterPiece(parts[0], sep, Join(parts[1..], sep));
      assert [parts[0]] + parts[1..] == parts;
    }
  }

  predicate NoWhitespace(s: string)
  {
    forall i :: 0 <= i < |s| ==> !IsWhitespace(s[i])
  }

  lemma {:induction false} WordWithoutWhitespace(p: string)
    requires NoWhitespace(p)
    ensures SplitOnWhitespace(p) == [p]
    decreases |p|
  {
    if |p| > 0 {
      WordWithoutWhitespace(p[1..]);
      assert [p[0]] + p[1..] == p;
    }
  }

  lemma {:induction false} WordBeforeSpace(p: string, t: string)
    requires NoWhitespace(p)
    ensures SplitOnWhitespace(p + [' '] + t) == [p] + SplitOnWhitespace(t)
    decreases |p|
  {
    var s := p + [' '] + t;
    if |p| == 0 {
      assert s[1..] == t;
    } else {
      assert s[1..] == p[1..] + [' '] + t;
      WordBeforeSpace(p[1..], t);
      assert [p[0]] + p[1..] == p;
    }
  }

  lemma {:induction false} DropEmptyKeeps(parts: seq<string>)
    requires forall i :: 0 <= i < |parts| ==> parts[i] != ""
    ensures DropEmpty(parts) == parts
  {
    if |parts| > 0 {
      DropEmptyKeeps(parts[1..]);
      assert [parts[0]] + parts[1..] == parts;
    }
  }

  /** `split_whitespace` undoes joining non-empty words with single spaces. */
  lemma {:induction false} SplitWhitespaceJoin(words: seq<string>)
    requires |words| >= 1
    requires forall i :: 0 <= i < |words| ==> words[i] != "" && NoWhitespace(words[i])
    ensures SplitWhitespace(Join(words, ' ')) == words
  {
    SplitOnWhitespaceJoin(words);
    DropEmptyKeeps(words);
  }

  lemma {:induction false} SplitOnWhitespaceJoin(words: seq<string>)
    requires |words| >= 1
    requires forall i :: 0 <= i < |words| ==> NoWhitespace(words[i])
    ensures SplitOnWhitespace(Join(words, ' ')) == words
  {
    if |words| == 1 {
      WordWithoutWhitespace(words[0]);
    } else {
      SplitOnWhitespaceJoin(words[1..]);
      WordBeforeSpace(words[0], Join(words[1..], ' '));
      assert [words[0]] + words[1..] == words;
    }
  }

  /** Every character of a join is the separator or a character of a piece. */
  lemma {:induction false} JoinChar(parts: seq<string>, sep: char, k: nat)
    requires k < |Join(parts, sep)|
    ensures Join(parts, sep)[k] == sep || exists i :: 0 <= i < |parts| && Join(parts, sep)[k] in parts[i]
  {
    if |parts| > 1 {
      var j := Join(parts, sep);
      if k > |parts[0]| {
        var k' := k - |parts[0]| - 1;
        JoinChar(parts[1..], sep, k');
        assert j[k] == Join(parts[1..], sep)[k'];
        if j[k] != sep {
          var i :| 0 <= i < |parts[1..]| && j[k] in parts[1..][i];
          assert parts[1..][i] == parts[i + 1];
        }
      } else if k < |parts[0]| {
        assert j[k] == parts[0][k];
      }
    }
  }

  /** A one-character substring is an occurrence of that character. */
  lemma {:induction false} ContainsChar(s: string, c: char)
    ensures Contains(s, [c]) <==> c in s
    decreases |s|
  {
    if |s| > 0 {
      ContainsChar(s[1..], c);
      assert s == [s[0]] + s[1..];
    }
  }

  /** The pieces `split_whitespace` yields are words: non-empty, without
      whitespace. */
  lemma SplitWhitespacePieces(s: string)
    ensures forall i :: 0 <= i < |SplitWhitespace(s)| ==>
              SplitWhitespace(s)[i] != "" && NoWhitespace(SplitWhitespace(s)[i])
  {
    SplitOnWhitespacePieces(s);
    DropEmptyPieces(SplitOnWhitespace(s));
    forall i | 0 <= i < |SplitWhitespace(s)|
      ensures SplitWhitespace(s)[i] != "" && NoWhitespace(SplitWhitespace(s)[i])
    {
      var x := SplitWhitespace(s)[i];
      assert x in DropEmpty(SplitOnWhitespace(s));
      assert x in SplitOnWhitespace(s);
      var j :| 0 <= j < |SplitOnWhitespace(s)| && SplitOnWhitespace(s)[j] == x;
    }
  }

  lemma {:induction false} SplitOnWhitespacePieces(s: string)
    ensures forall i :: 0 <= i < |SplitOnWhitespace(s)| ==> NoWhitespace(SplitOnWhitespace(s)[i])
    decreases |s|
  {
    if |s| > 0 {
      SplitOnWhitespacePieces(s[1..]);
    }
  }

  lemma {:induction false} DropEmptyPieces(parts: seq<string>)
    ensures forall x :: x in DropEmpty(parts) ==> x != "" && x in parts
  {
    if |parts| > 0 {
      DropEmptyPieces(parts[1..]);
      assert DropEmpty(parts) == (if parts[0] == "" then [] else [parts[0]]) + DropEmpty(parts[1..]);
      assert forall x :: x in parts[1..] ==> x in parts;
    }
  }

  /** Lower-casing forgets a preceding upper-casing and vice versa. */
  lemma CaseMappingsAbsorb(s: string)
    ensures AsciiLower(AsciiUpper(s)) == AsciiLower(s) && AsciiLower(AsciiLower(s)) == AsciiLower(s)
    ensures AsciiUpper(AsciiLower(s)) == AsciiUpper(s) && AsciiUpper(AsciiUpper(s)) == AsciiUpper(s)
  {
  }
}
