/**
 * `strconv.Quote`, which the encoder applies to every label: the label is
 * wrapped in double quotes, `"` and `\` are escaped with a backslash and ASCII
 * control characters are written as Go escapes.
 */
module Quote {

  const DoubleQuote: char := '"'
  const BackSlash: char := '\\'
  const LowerHex: string := "0123456789abcdef"

  /** The ASCII code points `strconv.Quote` does not print as themselves: below the space, and DEL. */
  predicate IsAsciiControl(c: char)
  {
    c as int < 0x20 || c as int == 0x7F
  }

  /** No character of the label is an ASCII control character. */
  predicate NoControl(s: string)
  {
    forall i :: 0 <= i < |s| ==> !IsAsciiControl(s[i])
  }

  /** How `strconv.Quote` writes one code point. */
  function EscapeRune(c: char): (e: string)
    ensures 1 <= |e| <= 4
    ensures e[0] == BackSlash <==> c == DoubleQuote || c == BackSlash || IsAsciiControl(c)
    ensures e[0] != BackSlash ==> e == [c]
    ensures c == DoubleQuote || c == BackSlash ==> e == [BackSlash, c]
    ensures IsAsciiControl(c) ==> |e| >= 2 && forall i :: 0 <= i < |e| ==> !IsAsciiControl(e[i])
  {
    var n := c as int;
    if c == DoubleQuote || c == BackSlash then [BackSlash, c]
    else if !IsAsciiControl(c) then [c]
    else if n == 0x07 then "\\a"
    else if n == 0x08 then "\\b"
    else if n == 0x0C then "\\f"
    else if n == 0x0A then "\\n"
    else if n == 0x0D then "\\r"
    else if n == 0x09 then "\\t"
    else if n == 0x0B then "\\v"
    else "\\x" + [LowerHex[n / 16], LowerHex[n % 16]]
  }

  /** The label with every code point escaped, without the surrounding quotes. */
  function Escape(s: string): (e: string)
    ensures |e| >= |s|
    ensures NoControl(e)
  {
    if s == [] then [] else EscapeRune(s[0]) + Escape(s[1..])
  }

  /** `strconv.Quote`. */
  function QuoteString(s: string): (q: string)
    ensures |q| >= 2 && q[0] == DoubleQuote && q[|q| - 1] == DoubleQuote
    ensures NoControl(q)
  {
    [DoubleQuote] + Escape(s) + [DoubleQuote]
  }

  /** Printable ASCII: from the space up to `~`. */
  predicate IsPrintableAscii(c: char)
  {
    0x20 <= c as int < 0x7F
  }

  /** Every character of the label is printable ASCII. */
  predicate PrintableAscii(s: string)
  {
    forall i :: 0 <= i < |s| ==> IsPrintableAscii(s[i])
  }

  /** A code point `strconv.Quote` copies unchanged: printable ASCII other than `"` and `\`. */
  predicate Unescaped(c: char)
  {
    IsPrintableAscii(c) && c != DoubleQuote && c != BackSlash
  }

  /** Escaping works code point by code point, so it distributes over concatenation. */
  lemma {:induction false} EscapeConcat(a: string, b: string)
    ensures Escape(a + b) == Escape(a) + Escape(b)
  {
    if a == [] {
      assert a + b == b;
    } else {
      assert (a + b)[0] == a[0] && (a + b)[1..] == a[1..] + b;
      EscapeConcat(a[1..], b);
    }
  }

  /** Every character of `s` is copied unchanged by `strconv.Quote`. */
  predicate Plain(s: string)
  {
    forall i :: 0 <= i < |s| ==> Unescaped(s[i])
  }

  /** A label with nothing to escape is quoted by wrapping it in double quotes. */
  lemma {:induction false} QuotePlain(s: string)
    requires Plain(s)
    ensures Escape(s) == s && QuoteString(s) == [DoubleQuote] + s + [DoubleQuote]
  {
    if s != [] {
      QuotePlain(s[1..]);
      assert s == [s[0]] + s[1..];
    }
  }
}
