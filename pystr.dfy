/** The Python `str` builtins the generator relies on, modelled on `seq<char>`:
    `split` with an explicit separator, `join`, `strip`, `lower`, `isidentifier`,
    the substring test `x in s`, `str.format` with auto-numbered `{}` fields,
    and `json.dumps` of a string (with its default `ensure_ascii=True`). */
module PyStr {

  // ---------------------------------------------------------------- split / join

  /** `s.split(sep)` for a one-character separator: never empty, and no part holds `sep`. */
  function Split(s: string, sep: char): (parts: seq<string>)
    ensures |parts| >= 1
    ensures (sep in s) <==> |parts| > 1
    decreases |s|
  {
    if s == [] then [[]]
    else
      var rest := Split(s[1..], sep);
      if s[0] == sep then [[]] + rest
      else [[s[0]] + rest[0]] + rest[1..]
  }

  /** Prepending two strings one after the other prepends their concatenation. */
  lemma PrependTwice(a: string, b: string, c: string)
    ensures a + (b + c) == a + b + c
  {
  }

  /** `sep.join(parts)` for a one-character separator. */
  function Join(parts: seq<string>, sep: char): string
    requires |parts| >= 1
    decreases |parts|
  {
    if |parts| == 1 then parts[0] else parts[0] + [sep] + Join(parts[1..], sep)
  }

  /** `sep.join(parts)` for a separator of any length (", " when rendering keyword arguments). */
  function JoinWith(parts: seq<string>, sep: string): string
    decreases |parts|
  {
    if parts == [] then []
    else if |parts| == 1 then parts[0]
    else parts[0] + sep + JoinWith(parts[1..], sep)
  }

  /** No part of a split holds the separator. */
  lemma {:induction false} SplitPartsFree(s: string, sep: char)
    ensures forall i :: 0 <= i < |Split(s, sep)| ==> sep !in Split(s, sep)[i]
    decreases |s|
  {
    if s != [] {
      SplitPartsFree(s[1..], sep);
      var rest := Split(s[1..], sep);
      var parts := Split(s, sep);
      if s[0] == sep {
        assert parts == [[]] + rest;
        assert forall i :: 1 <= i < |parts| ==> parts[i] == rest[i - 1];
      } else {
        assert parts == [[s[0]] + rest[0]] + rest[1..];
        assert forall i :: 1 <= i < |parts| ==> parts[i] == rest[i];
      }
    }
  }

  /** Every character of every part comes from the split text. */
  lemma {:induction false} SplitChars(s: string, sep: char, i: nat, c: char)
    requires i < |Split(s, sep)| && c in Split(s, sep)[i]
    ensures c in s
    decreases |s|
  {
    var rest := Split(s[1..], sep);
    if s[0] == sep {
      SplitChars(s[1..], sep, i - 1, c);
    } else if i == 0 {
      if c != s[0] {
        SplitChars(s[1..], sep, 0, c);
      }
    } else {
      SplitChars(s[1..], sep, i, c);
    }
  }

  /** Joining the parts of a split gives back the original text. */
  lemma {:induction false} JoinSplit(s: string, sep: char)
    ensures Join(Split(s, sep), sep) == s
    decreases |s|
  {
    if s != [] {
      JoinSplit(s[1..], sep);
      var rest := Split(s[1..], sep);
      if s[0] == sep {
        assert Split(s, sep)[1..] == rest;
      } else if |rest| > 1 {
        assert Split(s, sep)[1..] == rest[1..];
      }
    }
  }

  /** Splitting a join of separator-free parts gives back the parts. */
  lemma {:induction false} SplitJoin(parts: seq<string>, sep: char)
    requires |parts| >= 1
    requires forall i :: 0 <= i < |parts| ==> sep !in parts[i]
    ensures Split(Join(parts, sep), sep) == parts
    decreases |parts|
  {
    if |parts| == 1 {
      NoSepSplit(parts[0], sep);
    } else {
      SplitJoin(parts[1..], sep);
      SplitAfterFirst(parts[0], Join(parts[1..], sep), sep);
      assert parts == [parts[0]] + parts[1..];
    }
  }

  /** A separator-free text followed by the separator contributes exactly one part. */
  lemma {:induction false} SplitAfterFirst(a: string, b: string, sep: char)
    requires sep !in a
    ensures Split(a + [sep] + b, sep) == [a] + Split(b, sep)
    decreases |a|
  {
    var s := a + [sep] + b;
    if a == [] {
      assert s[1..] == b;
    } else {
      assert s[1..] == a[1..] + [sep] + b;
      SplitAfterFirst(a[1..], b, sep);
      assert [a[0]] + a[1..] == a;
    }
  }

  /** A text without the separator splits into itself alone. */
  lemma {:induction false} NoSepSplit(s: string, sep: char)
    requires sep !in s
    ensures Split(s, sep) == [s]
    decreases |s|
  {
    if s != [] {
      NoSepSplit(s[1..], sep);
      assert [s[0]] + s[1..] == s;
    }
  }

  /** The first part of a split is the text before the first separator. */
  lemma {:induction false} SplitFirst(s: string, sep: char, k: nat)
    requires k <= |s|
    requires forall j :: 0 <= j < k ==> s[j] != sep
    requires k == |s| || s[k] == sep
    ensures Split(s, sep)[0] == s[..k]
    decreases |s|
  {
    if s != [] && k > 0 {
      SplitFirst(s[1..], sep, k - 1);
      assert s[..k] == [s[0]] + s[1..][..k - 1];
    }
  }

  /** The second part of a split, when there is one, is the text between the first
      and the second separator. */
  lemma {:induction false} SplitSecond(s: string, sep: char, k: nat, m: nat)
    requires k < m <= |s| && s[k] == sep
    requires forall j :: 0 <= j < k ==> s[j] != sep
    requires forall j :: k < j < m ==> s[j] != sep
    requires m == |s| || s[m] == sep
    ensures |Split(s, sep)| > 1 && Split(s, sep)[1] == s[k + 1..m]
    decreases |s|
  {
    if k == 0 {
      SplitFirst(s[1..], sep, m - 1);
    } else {
      SplitSecond(s[1..], sep, k - 1, m - 1);
      var a, b := s[1..][k..m - 1], s[k + 1..m];
      forall t | 0 <= t < |a| ensures a[t] == b[t] { }
      assert a == b;
    }
  }

  /** Two separators in a row produce an empty part (never the first one). */
  lemma {:induction false} AdjacentSepsGiveEmptyPart(s: string, sep: char, k: nat)
    requires k + 1 < |s| && s[k] == sep && s[k + 1] == sep
    ensures exists i :: 1 <= i < |Split(s, sep)| && Split(s, sep)[i] == []
    decreases |s|
  {
    var rest := Split(s[1..], sep);
    if k == 0 {
      SplitFirst(s[1..], sep, 0);
      assert Split(s, sep)[1] == [];
    } else {
      AdjacentSepsGiveEmptyPart(s[1..], sep, k - 1);
      var i :| 1 <= i < |rest| && rest[i] == [];
      var parts := Split(s, sep);
      if s[0] == sep {
        assert parts == [[]] + rest;
        assert parts[i + 1] == rest[i];
      } else {
        assert parts == [[s[0]] + rest[0]] + rest[1..];
        assert parts[i] == rest[i];
      }
    }
  }

  // ---------------------------------------------------------------- strip

  /** The characters Python's `str.isspace` accepts, which a bare `strip()` removes. */
  predicate IsSpace(c: char)
  {
    c == ' ' || '\t' <= c <= '\r' || '\U{1c}' <= c <= '\U{1f}'
    || c == '\U{85}' || c == '\U{a0}' || c == '\U{1680}' || '\U{2000}' <= c <= '\U{200a}'
    || c == '\U{2028}' || c == '\U{2029}' || c == '\U{202f}' || c == '\U{205f}' || c == '\U{3000}'
  }

  /** The first position from `i` on that is not whitespace (`|s|` when there is none). */
  function SkipSpace(s: string, i: nat): (a: nat)
    requires i <= |s|
    ensures i <= a <= |s|
    ensures forall j :: i <= j < a ==> IsSpace(s[j])
    ensures a < |s| ==> !IsSpace(s[a])
    decreases |s| - i
  {
    if i == |s| || !IsSpace(s[i]) then i else SkipSpace(s, i + 1)
  }

  /** The end of `s[lo..e]` once its trailing whitespace is dropped. */
  function SkipSpaceBack(s: string, lo: nat, e: nat): (b: nat)
    requires lo <= e <= |s|
    ensures lo <= b <= e
    ensures forall j :: b <= j < e ==> IsSpace(s[j])
    ensures lo < b ==> !IsSpace(s[b - 1])
    decreases e
  {
    if e == lo || !IsSpace(s[e - 1]) then e else SkipSpaceBack(s, lo, e - 1)
  }

  /** Where the stripped text starts. */
  function StripStart(s: string): nat
    ensures StripStart(s) <= |s|
  {
    SkipSpace(s, 0)
  }

  /** Where the stripped text ends. */
  function StripEnd(s: string): nat
    ensures StripStart(s) <= StripEnd(s) <= |s|
  {
    SkipSpaceBack(s, StripStart(s), |s|)
  }

  /** `s.strip()`: drops leading and trailing whitespace. */
  function Strip(s: string): string
  {
    s[StripStart(s)..StripEnd(s)]
  }

  /** The stripped text is empty exactly when every character is whitespace;
      otherwise it starts and ends with a non-whitespace character. */
  lemma StripEmpty(s: string)
    ensures Strip(s) == [] <==> forall j :: 0 <= j < |s| ==> IsSpace(s[j])
    ensures Strip(s) != [] ==> !IsSpace(Strip(s)[0]) && !IsSpace(Strip(s)[|Strip(s)| - 1])
  {
    var a, b := StripStart(s), StripEnd(s);
    if a < |s| {
      assert !IsSpace(s[a]) && a < b;
    }
  }

  /** `strip()` keeps a contiguous slice: all whitespace before it, all whitespace after,
      and a first and a last character that are not whitespace. */
  lemma StripBounds(s: string)
    ensures var a, b := StripStart(s), StripEnd(s);
      Strip(s) == s[a..b]
      && (forall i :: 0 <= i < a ==> IsSpace(s[i]))
      && (forall i :: b <= i < |s| ==> IsSpace(s[i]))
      && (a < b ==> !IsSpace(s[a]) && !IsSpace(s[b - 1]))
  {
  }

  /** Stripping a line that ends in a newline drops just the newline. */
  lemma StripNewline(s: string)
    requires s != [] && !IsSpace(s[0]) && !IsSpace(s[|s| - 1])
    ensures Strip(s + "\n") == s
  {
    var t := s + "\n";
    assert t[0] == s[0] && IsSpace(t[|s|]) && t[|s| - 1] == s[|s| - 1];
    assert StripStart(t) == 0;
    assert SkipSpaceBack(t, 0, |t|) == SkipSpaceBack(t, 0, |s|) == |s|;
    assert t[..|s|] == s;
  }

  // ---------------------------------------------------------------- lower

  /** Lower-casing of one character; only the ASCII letters change. */
  function LowerChar(c: char): char
  {
    if 'A' <= c <= 'Z' then (c as int - 'A' as int + 'a' as int) as char else c
  }

  /** `s.lower()`, restricted to ASCII letters. */
  function Lower(s: string): string
  {
    seq(|s|, i requires 0 <= i < |s| => LowerChar(s[i]))
  }

  /** Lower-casing keeps the length; each ASCII capital becomes the letter 32 code
      points higher, every other character is kept, and no ASCII capital is left. */
  lemma LowerSpec(s: string)
    ensures |Lower(s)| == |s|
    ensures forall i :: 0 <= i < |s| && 'A' <= s[i] <= 'Z' ==> Lower(s)[i] as int == s[i] as int + 32
    ensures forall i :: 0 <= i < |s| && !('A' <= s[i] <= 'Z') ==> Lower(s)[i] == s[i]
    ensures forall i :: 0 <= i < |Lower(s)| ==> !('A' <= Lower(s)[i] <= 'Z')
  {
  }

  /** Lower-casing twice is lower-casing once. */
  lemma LowerIdempotent(s: string)
    ensures Lower(Lower(s)) == Lower(s)
  {
  }

  // ---------------------------------------------------------------- isidentifier

  predicate IsIdentStart(c: char)
  {
    'a' <= c <= 'z' || 'A' <= c <= 'Z' || c == '_'
  }

  predicate IsIdentChar(c: char)
  {
    IsIdentStart(c) || '0' <= c <= '9'
  }

  /** `s.isidentifier()` over ASCII: a letter or `_`, then letters, digits or `_`. */
  predicate IsIdentifier(s: string)
  {
    |s| > 0 && IsIdentStart(s[0]) && forall i :: 1 <= i < |s| ==> IsIdentChar(s[i])
  }

  // ---------------------------------------------------------------- substring test

  /** `needle` occurs in `hay` starting at position `i`. */
  predicate OccursAt(hay: string, needle: string, i: int)
  {
    0 <= i <= |hay| - |needle| && hay[i..i + |needle|] == needle
  }

  /** Python's `needle in hay` on two strings: `needle` occurs somewhere in `hay`. */
  predicate Contains(hay: string, needle: string)
  {
    exists i | 0 <= i <= |hay| - |needle| :: OccursAt(hay, needle, i)
  }

  /** A substring is made of characters of the text it occurs in. */
  lemma ContainsChars(hay: string, needle: string, c: char)
    requires Contains(hay, needle) && c in needle
    ensures c in hay
  {
    var i :| 0 <= i <= |hay| - |needle| && OccursAt(hay, needle, i);
    assert 0 <= i <= |hay| - |needle| && hay[i..i + |needle|] == needle;
    var k :| 0 <= k < |needle| && needle[k] == c;
    assert hay[i..i + |needle|][k] == hay[i + k];
  }

  // ---------------------------------------------------------------- str.format

  predicate NoBraces(s: string)
  {
    '{' !in s && '}' !in s
  }

  /** `s` holds exactly `n` replacement fields `{}` and no other brace. */
  predicate Holes(s: string, n: nat)
    decreases |s|
  {
    if s == [] then n == 0
    else if s[0] == '{' then n > 0 && |s| >= 2 && s[1] == '}' && Holes(s[2..], n - 1)
    else if s[0] == '}' then false
    else Holes(s[1..], n)
  }

  /** `s.format(*args)` when every replacement field is a bare `{}`:
      the fields are filled with the arguments, in order, verbatim. */
  function Format(s: string, args: seq<string>): string
    requires Holes(s, |args|)
    decreases |s|
  {
    if s == [] then []
    else if s[0] == '{' then args[0] + Format(s[2..], args[1..])
    else [s[0]] + Format(s[1..], args)
  }

  /** Brace-free text has no field, and formatting leaves it unchanged. */
  lemma {:induction false} FormatPlain(s: string)
    requires NoBraces(s)
    ensures Holes(s, 0) && Format(s, []) == s
    decreases |s|
  {
    if s != [] {
      FormatPlain(s[1..]);
      assert [s[0]] + s[1..] == s;
    }
  }

  /** Formatting `p + "{}" + q` puts the first argument between `p` and the rest of `q`. */
  lemma {:induction false} FormatSplice(p: string, q: string, a: string, rest: seq<string>)
    requires NoBraces(p) && Holes(q, |rest|)
    ensures Holes(p + "{}" + q, 1 + |rest|)
    ensures Format(p + "{}" + q, [a] + rest) == p + a + Format(q, rest)
    decreases |p|
  {
    var s := p + "{}" + q;
    if p == [] {
      assert s[2..] == q;
      assert ([a] + rest)[1..] == rest;
    } else {
      FormatSplice(p[1..], q, a, rest);
      assert s[1..] == p[1..] + "{}" + q;
      assert [p[0]] + (p[1..] + a + Format(q, rest)) == p + a + Format(q, rest);
    }
  }

  lemma NoBracesTail(p: string)
    requires p != [] && NoBraces(p)
    ensures p[0] != '{' && p[0] != '}' && NoBraces(p[1..])
  {
    assert p[0] in p;
    forall c | c in p[1..] ensures c in p { }
  }

  /** Brace-free text in front of a template adds no replacement field. */
  lemma {:induction false} HolesPrefix(p: string, s: string, n: nat)
    requires NoBraces(p) && Holes(s, n)
    ensures Holes(p + s, n)
    decreases |p|
  {
    if p == [] {
      assert p + s == s;
    } else {
      NoBracesTail(p);
      HolesPrefix(p[1..], s, n);
      assert (p + s)[0] == p[0] && (p + s)[1..] == p[1..] + s;
    }
  }

  /** Formatting keeps brace-free text in front of a template as it is. */
  lemma {:induction false} FormatPrefix(p: string, s: string, args: seq<string>)
    requires NoBraces(p) && Holes(s, |args|)
    ensures Holes(p + s, |args|)
    ensures Format(p + s, args) == p + Format(s, args)
    decreases |p|
  {
    HolesPrefix(p, s, |args|);
    if p == [] {
      assert p + s == s;
    } else {
      var t := p[1..];
      NoBracesTail(p);
      FormatPrefix(t, s, args);
      assert (p + s)[0] == p[0] && (p + s)[1..] == t + s;
      PrependTwice([p[0]], t, Format(s, args));
      assert [p[0]] + t == p;
    }
  }

  /** Filling the one field of `p + "{}" + q` (no other braces) with `a` gives `p + a + q`. */
  lemma FormatOne(p: string, q: string, a: string)
    requires NoBraces(p) && NoBraces(q)
    ensures Holes(p + "{}" + q, 1)
    ensures Format(p + "{}" + q, [a]) == p + a + q
  {
    FormatPlain(q);
    FormatSplice(p, q, a, []);
    assert [a] + [] == [a];
  }

  // ---------------------------------------------------------------- json.dumps

  function HexDigit(n: nat): (c: char)
    requires n < 16
    ensures '0' <= c <= '9' || 'a' <= c <= 'f'
  {
    if n < 10 then ('0' as int + n) as char else ('a' as int + n - 10) as char
  }

  /** `\uXXXX` with four lower-case hex digits. */
  function UnicodeEscape(n: nat): (r: string)
    requires n < 0x1_0000
    ensures |r| == 6
  {
    "\\u" + [HexDigit(n / 0x1000), HexDigit(n / 0x100 % 16), HexDigit(n / 0x10 % 16), HexDigit(n % 16)]
  }

  /** The escape `json.dumps` writes for one character: printable ASCII other than
      `"` and `\` stays; everything else is escaped, astral characters as a surrogate pair. */
  function JsonEscapeChar(c: char): string
  {
    if c == '"' then "\\\""
    else if c == '\\' then "\\\\"
    else if c == '\n' then "\\n"
    else if c == '\r' then "\\r"
    else if c == '\t' then "\\t"
    else if c as int == 8 then "\\b"
    else if c as int == 12 then "\\f"
    else if ' ' <= c <= '~' then [c]
    else if c as int < 0x1_0000 then UnicodeEscape(c as int)
    else
      var n := c as int - 0x1_0000;
      UnicodeEscape(0xD800 + n / 0x400) + UnicodeEscape(0xDC00 + n % 0x400)
  }

  function JsonEscape(s: string): string
    decreases |s|
  {
    if s == [] then [] else JsonEscapeChar(s[0]) + JsonEscape(s[1..])
  }

  /** `json.dumps(s)` for a string `s`. */
  function JsonQuote(s: string): string
  {
    "\"" + JsonEscape(s) + "\""
  }

  predicate IsPrintableAscii(c: char)
  {
    ' ' <= c <= '~'
  }

  /** Text that `json.dumps` copies unchanged: printable ASCII without `"` or `\`. */
  predicate JsonPlain(s: string)
  {
    forall i :: 0 <= i < |s| ==> IsPrintableAscii(s[i]) && s[i] != '"' && s[i] != '\\'
  }

  /** Plain text is only wrapped in double quotes. */
  lemma {:induction false} JsonQuotePlain(s: string)
    requires JsonPlain(s)
    ensures JsonQuote(s) == "\"" + s + "\""
  {
    JsonEscapePlain(s);
  }

  lemma {:induction false} JsonEscapePlain(s: string)
    requires JsonPlain(s)
    ensures JsonEscape(s) == s
    decreases |s|
  {
    if s != [] {
      JsonEscapePlain(s[1..]);
      assert [s[0]] + s[1..] == s;
    }
  }

  /** Whatever the input, `json.dumps` output is printable ASCII: in particular it never
      holds a line break, so a quoted value never splits a generated line. */
  lemma {:induction false} JsonQuotePrintable(s: string)
    ensures forall i :: 0 <= i < |JsonQuote(s)| ==> IsPrintableAscii(JsonQuote(s)[i])
  {
    JsonEscapePrintable(s);
  }

  lemma {:induction false} JsonEscapePrintable(s: string)
    ensures forall i :: 0 <= i < |JsonEscape(s)| ==> IsPrintableAscii(JsonEscape(s)[i])
    decreases |s|
  {
    if s != [] {
      JsonEscapePrintable(s[1..]);
    }
  }

  /** An identifier is JSON-plain, so `json.dumps` of it is the identifier in quotes. */
  lemma IdentifierIsJsonPlain(s: string)
    requires IsIdentifier(s)
    ensures JsonPlain(s) && NoBraces(s)
  {
    assert forall i :: 0 <= i < |s| ==> IsIdentChar(s[i]);
  }
}
