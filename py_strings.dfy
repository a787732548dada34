/** The parts of Python's `str` semantics that the modelled code relies on:
    `str.isspace`, `str.strip()`, `str.lower()` and `str.split(sep)[-1]`. */
module PyStrings {

  /** `c.isspace()` in Python 3: the characters whose bidirectional class is
      WS, B or S, or whose general category is Zs. */
  predicate IsSpace(c: char)
  {
    var n := c as int;
    || (0x09 <= n <= 0x0D) || (0x1C <= n <= 0x20)
    || n == 0x85 || n == 0xA0 || n == 0x1680
    || (0x2000 <= n <= 0x200A)
    || n == 0x2028 || n == 0x2029 || n == 0x202F || n == 0x205F
    || n == 0x3000
  }

  predicate AllSpace(s: string)
  {
    forall k :: 0 <= k < |s| ==> IsSpace(s[k])
  }

  /** How many whitespace characters `s` starts with. */
  function LeadingSpaces(s: string): (n: nat)
    ensures n <= |s|
    ensures forall k :: 0 <= k < n ==> IsSpace(s[k])
    ensures n < |s| ==> !IsSpace(s[n])
  {
    if |s| > 0 && IsSpace(s[0]) then 1 + LeadingSpaces(s[1..]) else 0
  }

  /** How many whitespace characters `s` ends with. */
  function TrailingSpaces(s: string): (n: nat)
    ensures n <= |s|
    ensures forall k :: |s| - n <= k < |s| ==> IsSpace(s[k])
    ensures n < |s| ==> !IsSpace(s[|s| - n - 1])
  {
    if |s| > 0 && IsSpace(s[|s| - 1]) then
      var n := TrailingSpaces(s[..|s| - 1]);
      assert forall k :: |s| - 1 - n <= k < |s| - 1 ==> s[..|s| - 1][k] == s[k];
      1 + n
    else
      0
  }

  /** `s.strip()` with no argument: `s` without its leading and its trailing
      whitespace. */
  function Strip(s: string): (r: string)
    ensures var i := LeadingSpaces(s);
      && i + |r| <= |s| && r == s[i..i + |r|]
      && (forall k :: i + |r| <= k < |s| ==> IsSpace(s[k]))
    ensures r != [] ==> !IsSpace(r[0]) && !IsSpace(r[|r| - 1])
  {
    var t := s[LeadingSpaces(s)..];
    var r := t[..|t| - TrailingSpaces(t)];
    assert forall k :: LeadingSpaces(s) + |r| <= k < |s| ==> s[k] == t[k - LeadingSpaces(s)];
    r
  }

  /** The `not text.strip()` test: stripping leaves nothing exactly when every
      character is whitespace (the empty string included). */
  lemma StripEmptyIffAllSpace(s: string)
    ensures Strip(s) == [] <==> AllSpace(s)
  {
  }

  /** `c.lower()` on ASCII letters; every other character is left as it is. */
  function LowerChar(c: char): char
  {
    if 'A' <= c <= 'Z' then (c as int + 32) as char else c
  }

  /** `s.lower()`, character by character. */
  function Lower(s: string): (r: string)
    ensures |r| == |s|
    ensures forall k :: 0 <= k < |s| ==> r[k] == LowerChar(s[k])
  {
    if s == [] then [] else [LowerChar(s[0])] + Lower(s[1..])
  }

  /** Lower-casing is idempotent, so lower-cased text is its own lower case. */
  lemma LowerIdempotent(s: string)
    ensures Lower(Lower(s)) == Lower(s)
  {
  }

  /** The last field of `s.split(sep)`: the text after the final `sep`, or all
      of `s` when `sep` does not occur in it. */
  function LastField(s: string, sep: char): (r: string)
    ensures sep !in r
    ensures |r| <= |s| && r == s[|s| - |r|..]
    ensures |r| < |s| ==> s[|s| - |r| - 1] == sep
    ensures sep !in s ==> r == s
  {
    if s == [] then []
    else if s[|s| - 1] == sep then []
    else
      var r := LastField(s[..|s| - 1], sep);
      assert sep in s ==> sep in s[..|s| - 1] by {
        if sep in s {
          var k :| 0 <= k < |s| && s[k] == sep;
          assert s[..|s| - 1][k] == sep;
        }
      }
      r + [s[|s| - 1]]
  }

  /** Splitting `prefix + sep + last` at `sep` ends with `last` whenever `last`
      holds no `sep`, whatever `prefix` holds. */
  lemma {:induction false} LastFieldAfterSeparator(prefix: string, sep: char, last: string)
    requires sep !in last
    ensures LastField(prefix + [sep] + last, sep) == last
  {
    var s := prefix + [sep] + last;
    if last != [] {
      var init := last[..|last| - 1];
      assert s[..|s| - 1] == prefix + [sep] + init;
      assert sep !in init by {
        assert forall k :: 0 <= k < |init| ==> init[k] == last[k];
      }
      LastFieldAfterSeparator(prefix, sep, init);
      assert init + [last[|last| - 1]] == last;
    }
  }

  /** The quote `repr` puts around a string: a double quote when the string
      holds a single quote and no double quote, a single quote otherwise. */
  function ReprQuote(s: string): (q: char)
    ensures q == '\'' || q == '"'
  {
    if '\'' in s && '"' !in s then '"' else '\''
  }

  /** The characters up to U+00FF that `repr` writes as they are: printable
      ASCII and printable Latin-1 (no control character, no U+00A0, no soft
      hyphen). Characters above U+00FF are all taken as printable. */
  predicate ReprPrintable(c: char)
  {
    var n := c as int;
    (0x20 <= n < 0x7F) || (0xA1 <= n && n != 0xAD)
  }

  /** The lower-case hexadecimal digit of `d`. */
  function HexDigit(d: nat): char
    requires d < 16
  {
    if d < 10 then ('0' as int + d) as char else ('a' as int + d - 10) as char
  }

  /** The value of a hexadecimal digit; 0 for any other character. */
  function HexValue(c: char): (v: nat)
    ensures v < 16
  {
    if '0' <= c <= '9' then c as int - '0' as int
    else if 'a' <= c <= 'f' then c as int - 'a' as int + 10
    else 0
  }

  /** How `repr` writes one character inside quotes `quote`: a backslash and
      the quote itself are escaped, tab, newline and carriage return get their
      letter escapes, and other non-printable characters are written `\xhh`. */
  function EscapeChar(c: char, quote: char): (r: string)
    ensures r != []
  {
    var n := c as int;
    if c == '\\' then "\\\\"
    else if c == quote then ['\\', c]
    else if c == '\t' then "\\t"
    else if c == '\n' then "\\n"
    else if c == '\r' then "\\r"
    else if ReprPrintable(c) then [c]
    else "\\x" + [HexDigit(n / 16), HexDigit(n % 16)]
  }

  /** The characters of `s`, each escaped as `repr` writes it. */
  function Escape(s: string, quote: char): string
  {
    if s == [] then [] else EscapeChar(s[0], quote) + Escape(s[1..], quote)
  }

  /** `repr(s)` of a Python string. */
  function Repr(s: string): (r: string)
    ensures |r| >= 2 && r[0] == ReprQuote(s) && r[|r| - 1] == ReprQuote(s)
  {
    [ReprQuote(s)] + Escape(s, ReprQuote(s)) + [ReprQuote(s)]
  }

  /** Reading the escapes back: the inverse of Escape. */
  function Unescape(t: string): string
    decreases |t|
  {
    if t == [] then []
    else if t[0] == '\\' && |t| >= 2 then
      if t[1] == 't' then ['\t'] + Unescape(t[2..])
      else if t[1] == 'n' then ['\n'] + Unescape(t[2..])
      else if t[1] == 'r' then ['\r'] + Unescape(t[2..])
      else if t[1] == 'x' && |t| >= 4 then [(HexValue(t[2]) * 16 + HexValue(t[3])) as char] + Unescape(t[4..])
      else [t[1]] + Unescape(t[2..])
    else [t[0]] + Unescape(t[1..])
  }

  lemma HexDigitValue(d: nat)
    requires d < 16
    ensures HexValue(HexDigit(d)) == d
  {
  }

  /** One escaped character reads back as that character, whatever follows. */
  lemma UnescapeChar(c: char, quote: char, rest: string)
    requires quote == '\'' || quote == '"'
    ensures Unescape(EscapeChar(c, quote) + rest) == [c] + Unescape(rest)
  {
    var e := EscapeChar(c, quote);
    var n := c as int;
    if c != '\\' && c != quote && c != '\t' && c != '\n' && c != '\r' && !ReprPrintable(c) {
      HexDigitValue(n / 16);
      HexDigitValue(n % 16);
      assert (e + rest)[4..] == rest;
    } else if |e| == 2 {
      assert (e + rest)[2..] == rest;
    } else {
      assert (e + rest)[1..] == rest;
    }
  }

  /** Escaping loses nothing: reading the escapes back gives the string. */
  lemma {:induction false} UnescapeEscape(s: string, quote: char)
    requires quote == '\'' || quote == '"'
    ensures Unescape(Escape(s, quote)) == s
  {
    if s != [] {
      UnescapeEscape(s[1..], quote);
      UnescapeChar(s[0], quote, Escape(s[1..], quote));
    }
  }

  /** `repr` can be read back: between its quotes lies the escaped string, and
      unescaping it gives the original, so different strings have different
      `repr`s. */
  lemma ReprReadsBack(s: string)
    ensures Unescape(Repr(s)[1..|Repr(s)| - 1]) == s
  {
    var q := ReprQuote(s);
    assert Repr(s)[1..|Repr(s)| - 1] == Escape(s, q);
    UnescapeEscape(s, q);
  }

  /** A string of printable ASCII with no quote and no backslash is written
      as it is, between single quotes. */
  lemma {:induction false} EscapePlain(s: string, quote: char)
    requires forall k :: 0 <= k < |s| ==> ' ' <= s[k] <= '~' && s[k] != '\\' && s[k] != '\'' && s[k] != '"'
    requires quote == '\'' || quote == '"'
    ensures Escape(s, quote) == s
  {
    if s != [] {
      EscapePlain(s[1..], quote);
    }
  }

  lemma ReprPlain(s: string)
    requires forall k :: 0 <= k < |s| ==> ' ' <= s[k] <= '~' && s[k] != '\\' && s[k] != '\'' && s[k] != '"'
    ensures Repr(s) == "'" + s + "'"
  {
    EscapePlain(s, '\'');
  }

  /** `repr("it's")` is `"it's"`, in double quotes, since the string holds a
      single quote and no double quote. */
  lemma ReprApostrophe()
    ensures Repr("it's") == "\"it's\""
  {
    var s := "it's";
    assert s[2] == '\'';
    assert ReprQuote(s) == '"';
    assert Escape(s[3..], '"') == "s";
    assert Escape(s[2..], '"') == "'s";
    assert Escape(s, '"') == s;
  }

  /** A newline is written `\n`. */
  lemma ReprNewline()
    ensures Repr("a\nb") == "'a\\nb'"
  {
    var s := "a\nb";
    assert ReprQuote(s) == '\'';
    assert Escape(s[2..], '\'') == "b";
    assert Escape(s[1..], '\'') == "\\nb";
  }

  /** A string holding both quote kinds is single-quoted with its single
      quote escaped. */
  lemma ReprBothQuotes()
    ensures Repr("a'\"") == "'a\\'\"'"
  {
    var s := "a'\"";
    assert s[1] == '\'' && s[2] == '"';
    assert ReprQuote(s) == '\'';
    assert Escape(s[2..], '\'') == "\"";
    assert Escape(s[1..], '\'') == "\\'\"";
  }
}
