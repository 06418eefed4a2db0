/**
 * The JSON list-of-strings format that `Tags` writes and reads: the encoder
 * behind `quotedTags` and `MarshalJSON`, `String`'s display join, and the
 * specification of the word scanner that `UnmarshalJSON` runs.
 */
module Codec {
  import opened Maps
  import opened Trim
  import opened Quote

  const LeftBracket: char := '['
  const RightBracket: char := ']'

  /** `parts` written one after the other with `sep` between neighbours. */
  function Join(parts: seq<string>, sep: string): (r: string)
    ensures parts != [] ==> parts[0] <= r
  {
    if parts == [] then ""
    else if |parts| == 1 then parts[0]
    else parts[0] + sep + Join(parts[1..], sep)
  }

  /** Joining grows at the end the way the accumulating loops of `String` and `quotedTags` do. */
  lemma {:induction false} JoinSnoc(parts: seq<string>, p: string, sep: string)
    requires parts != []
    ensures Join(parts + [p], sep) == Join(parts, sep) + sep + p
  {
    if |parts| > 1 {
      assert (parts + [p])[1..] == parts[1..] + [p];
      JoinSnoc(parts[1..], p, sep);
    } else {
      assert (parts + [p])[1..] == [p];
    }
  }

  /** What the accumulating loops hold before cutting the leading separator. */
  function Prefixed(parts: seq<string>, sep: string): string
  {
    if parts == [] then "" else sep + Join(parts, sep)
  }

  /** Cutting the leading separator off leaves the joined parts. */
  lemma {:induction false} PrefixedCut(parts: seq<string>, sep: string)
    requires parts != []
    ensures |sep| <= |Prefixed(parts, sep)| && Prefixed(parts, sep)[|sep|..] == Join(parts, sep)
  {
  }

  /** One more part appends the separator and the part. */
  lemma {:induction false} PrefixedSnoc(parts: seq<string>, p: string, sep: string)
    ensures Prefixed(parts + [p], sep) == Prefixed(parts, sep) + sep + p
  {
    if parts == [] {
      assert parts + [p] == [p];
    } else {
      var j := Join(parts, sep);
      JoinSnoc(parts, p, sep);
      assert sep + (j + sep + p) == (sep + j) + sep + p;
    }
  }

  /** Each label quoted by `strconv.Quote`, in the same order. */
  function QuoteAll(labels: seq<string>): (quoted: seq<string>)
    ensures |quoted| == |labels|
  {
    if labels == [] then [] else [QuoteString(labels[0])] + QuoteAll(labels[1..])
  }

  /** Quoting one more label adds its quoted form at the end. */
  lemma {:induction false} QuoteAllSnoc(labels: seq<string>, l: string)
    ensures QuoteAll(labels + [l]) == QuoteAll(labels) + [QuoteString(l)]
  {
    if labels == [] {
      assert [l][1..] == [];
    } else {
      assert (labels + [l])[1..] == labels[1..] + [l];
      QuoteAllSnoc(labels[1..], l);
    }
  }

  /** The input starts with `[` and ends with `]`: the only check `UnmarshalJSON` makes. */
  predicate IsList(json: string): (b: bool)
    ensures b ==> 2 <= |json|
  {
    |json| > 0 && json[0] == LeftBracket && json[|json| - 1] == RightBracket
  }

  /** What `MarshalJSON` returns when `All` lists the labels in `order`. */
  function Encode(order: seq<string>): (json: string)
    ensures IsList(json)
    ensures order == [] ==> json == "[]"
  {
    [LeftBracket] + Join(QuoteAll(order), ",") + [RightBracket]
  }

  /**
   * The words the scanner finds in `s`, starting outside a word: every
   * character but `"` is skipped, and `"` opens a word.
   */
  function Outside(s: string): (words: seq<string>)
    decreases |s|, 1
  {
    if s == [] then []
    else if s[0] == DoubleQuote then Inside(s[1..], [])
    else Outside(s[1..])
  }

  /**
   * The words the scanner finds in `s`, starting inside a word that has
   * collected `word` so far: a backslash makes the next character literal, an
   * unescaped `"` closes the word, and a word still open at the end is dropped.
   */
  function Inside(s: string, word: string): (words: seq<string>)
    decreases |s|, 0
  {
    if s == [] then []
    else if s[0] == DoubleQuote then [word] + Outside(s[1..])
    else if s[0] == BackSlash && |s| > 1 then Inside(s[2..], word + [s[1]])
    else Inside(s[1..], word + [s[0]])
  }

  /** Every word the scanner finds outside a word costs at least its two quotes. */
  lemma {:induction false} OutsideBound(s: string)
    ensures 2 * |Outside(s)| <= |s|
    decreases |s|, 1
  {
    if s != [] {
      if s[0] == DoubleQuote {
        InsideBound(s[1..], []);
      } else {
        OutsideBound(s[1..]);
      }
    }
  }

  /** Inside a word only the closing quote of the open word is owed; every later word costs two quotes. */
  lemma {:induction false} InsideBound(s: string, word: string)
    ensures 2 * |Inside(s, word)| <= |s| + 1
    decreases |s|, 0
  {
    if s != [] {
      if s[0] == DoubleQuote {
        OutsideBound(s[1..]);
      } else if s[0] == BackSlash && |s| > 1 {
        InsideBound(s[2..], word + [s[1]]);
      } else {
        InsideBound(s[1..], word + [s[0]]);
      }
    }
  }

  /** The words still to be found in `s`, inside a word holding `word` or outside any word. */
  function Pending(s: string, inWord: bool, word: string): seq<string>
  {
    if inWord then Inside(s, word) else Outside(s)
  }

  /**
   * The scanner read from position `i` of `s` on, the way `UnmarshalJSON`'s
   * loop reads it through its cursor `pos`. It reads by index rather than by
   * slicing, which keeps the proof of that loop small; `ScanFromSuffix`
   * proves it finds the same words as `Pending` on the rest of the input.
   */
  function ScanFrom(s: string, i: nat, inWord: bool, word: string): (words: seq<string>)
    decreases |s| - i
  {
    if i >= |s| then []
    else if !inWord then
      if s[i] == DoubleQuote then ScanFrom(s, i + 1, true, []) else ScanFrom(s, i + 1, false, word)
    else if s[i] == DoubleQuote then [word] + ScanFrom(s, i + 1, false, word)
    else if s[i] == BackSlash && i + 1 < |s| then ScanFrom(s, i + 2, true, word + [s[i + 1]])
    else ScanFrom(s, i + 1, true, word + [s[i]])
  }

  /**
   * The backslash run of the decoder's loop: starting at a backslash inside a
   * word, counts backslashes in pairs, appending one backslash per pair, and
   * then either appends the character after an odd run or steps back onto the
   * last backslash of an even one. `last` is where the outer loop resumes
   * (before its own increment); the words still to come are unchanged.
   */
  method ReadBackslashRun(json: string, pos: nat, word: string) returns (last: nat, read: string)
    requires pos < |json| && json[pos] == BackSlash && json[|json| - 1] != BackSlash
    ensures pos < last < |json|
    ensures ScanFrom(json, last + 1, true, read) == ScanFrom(json, pos, true, word)
  {
    ghost var scanning := ScanFrom(json, pos, true, word);
    read := word;
    var slashes := 1;
    last := pos + 1;
    while json[last] == BackSlash
      invariant pos < last < |json|
      invariant slashes == 0 || slashes == 1
      invariant slashes == 0 ==> pos + 2 <= last && ScanFrom(json, last, true, read) == scanning
      invariant slashes == 1 ==> json[last - 1] == BackSlash && ScanFrom(json, last - 1, true, read) == scanning
      decreases |json| - last
    {
      slashes := slashes + 1;
      if slashes == 2 {
        EscapeStep(json, last - 1, read);
        read := read + [BackSlash];
        slashes := 0;
      }
      last := last + 1;
    }
    if slashes == 0 {
      last := last - 1;
    } else {
      EscapeStep(json, last - 1, read);
      read := read + [json[last]];
    }
  }

  /** A closing quote inside a word moves that word to the words already found. */
  lemma {:induction false} CloseStep(found: seq<string>, s: string, i: nat, word: string, target: seq<string>)
    requires i < |s| && s[i] == DoubleQuote
    requires found + ScanFrom(s, i, true, word) == target
    ensures (found + [word]) + ScanFrom(s, i + 1, false, word) == target
  {
    var rest := ScanFrom(s, i + 1, false, word);
    assert ScanFrom(s, i, true, word) == [word] + rest;
    assert (found + [word]) + rest == found + ([word] + rest);
  }

  /** Inside a word, a backslash makes the character after it part of the word. */
  lemma {:induction false} EscapeStep(s: string, i: nat, word: string)
    requires i + 1 < |s| && s[i] == BackSlash
    ensures ScanFrom(s, i, true, word) == ScanFrom(s, i + 2, true, word + [s[i + 1]])
  {
  }

  /** Reading `s` from position `i` finds the same words as scanning the suffix `s[i..]`. */
  lemma {:induction false} ScanFromSuffix(s: string, i: nat, inWord: bool, word: string)
    requires i <= |s|
    ensures ScanFrom(s, i, inWord, word) == Pending(s[i..], inWord, word)
    decreases |s| - i
  {
    if i < |s| {
      var t := s[i..];
      assert t[0] == s[i] && t[1..] == s[i + 1..];
      if !inWord {
        if s[i] == DoubleQuote {
          ScanFromSuffix(s, i + 1, true, []);
        } else {
          ScanFromSuffix(s, i + 1, false, word);
        }
      } else if s[i] == DoubleQuote {
        ScanFromSuffix(s, i + 1, false, word);
      } else if s[i] == BackSlash && i + 1 < |s| {
        assert t[1] == s[i + 1] && t[2..] == s[i + 2..];
        ScanFromSuffix(s, i + 2, true, word + [s[i + 1]]);
      } else {
        ScanFromSuffix(s, i + 1, true, word + [s[i]]);
      }
    }
  }

  /** The words `UnmarshalJSON` adds: a scan of everything after the leading `[`. */
  function Words(json: string): (words: seq<string>)
    requires |json| > 0
  {
    Outside(json[1..])
  }

  /** The labels that adding `words` one by one through `Add` stores. */
  function TrimAll(words: seq<string>): set<string>
  {
    set w | w in words :: TrimSpace(w)
  }

  lemma {:induction false} TrimAllSnoc(words: seq<string>, w: string)
    ensures TrimAll(words + [w]) == TrimAll(words) + {TrimSpace(w)}
  {
    assert forall x :: x in words + [w] <==> x in words || x == w;
  }

  lemma {:induction false} TrimAllPrefix(words: seq<string>, i: nat)
    requires i < |words|
    ensures TrimAll(words[..i + 1]) == TrimAll(words[..i]) + {TrimSpace(words[i])}
  {
    assert words[..i + 1] == words[..i] + [words[i]];
    TrimAllSnoc(words[..i], words[i]);
  }

  function Backslashes(k: nat): (s: string)
    ensures |s| == k && forall i :: 0 <= i < k ==> s[i] == BackSlash
  {
    if k == 0 then [] else [BackSlash] + Backslashes(k - 1)
  }

  /**
   * The escape rule as `UnmarshalJSON` states it: inside a word, a run of `k`
   * backslashes before a character `x` that is not a backslash adds `k / 2`
   * backslashes; when `k` is odd, `x` is then added literally, and when `k` is
   * even, `x` is read as usual.
   */
  lemma {:induction false} BackslashRun(k: nat, x: char, rest: string, word: string)
    requires x != BackSlash
    ensures Inside(Backslashes(k) + [x] + rest, word) ==
            if k % 2 == 0 then Inside([x] + rest, word + Backslashes(k / 2))
            else Inside(rest, word + Backslashes(k / 2) + [x])
  {
    var s := Backslashes(k) + [x] + rest;
    if k == 0 {
      assert s == [x] + rest;
      assert word + Backslashes(0) == word;
    } else if k == 1 {
      assert s[0] == BackSlash && s[1] == x && s[2..] == rest;
      assert word + Backslashes(0) + [x] == word + [x];
    } else {
      assert s[0] == BackSlash && s[1] == BackSlash;
      assert s[2..] == Backslashes(k - 2) + [x] + rest by {
        assert Backslashes(k)[2..] == Backslashes(k - 2);
      }
      BackslashRun(k - 2, x, rest, word + [BackSlash]);
      assert word + [BackSlash] + Backslashes((k - 2) / 2) == word + Backslashes(k / 2) by {
        assert [BackSlash] + Backslashes((k - 2) / 2) == Backslashes(k / 2);
      }
    }
  }

  /** Outside a word, separators such as commas and spaces are skipped. */
  lemma {:induction false} OutsideSkips(p: string, s: string)
    requires DoubleQuote !in p
    ensures Outside(p + s) == Outside(s)
  {
    if p == [] {
      assert p + s == s;
    } else {
      assert p[0] in p && (p + s)[0] == p[0] && (p + s)[1..] == p[1..] + s;
      assert DoubleQuote !in p[1..] by {
        forall i | 0 <= i < |p[1..]| ensures p[1..][i] != DoubleQuote { assert p[1..][i] in p; }
      }
      OutsideSkips(p[1..], s);
    }
  }

  /** With no `"` left before the end of the input, the open word is never added. */
  lemma {:induction false} UnterminatedDropped(s: string, word: string)
    requires DoubleQuote !in s
    ensures Inside(s, word) == []
  {
    if s != [] {
      if s[0] == BackSlash && |s| > 1 {
        UnterminatedDropped(s[2..], word + [s[1]]);
      } else {
        UnterminatedDropped(s[1..], word + [s[0]]);
      }
    }
  }

  /** Inside a word, one printable ASCII code point as `strconv.Quote` writes it is read back as itself. */
  lemma {:induction false} EscapedRuneStep(c: char, rest: string, word: string)
    requires IsPrintableAscii(c)
    ensures Inside(EscapeRune(c) + rest, word) == Inside(rest, word + [c])
  {
    if c == DoubleQuote || c == BackSlash {
      assert (EscapeRune(c) + rest)[2..] == rest;
    } else {
      assert (EscapeRune(c) + rest)[1..] == rest;
    }
  }

  lemma {:induction false} InsideEscaped(s: string, word: string, u: string)
    requires PrintableAscii(s)
    requires u != [] && u[0] == DoubleQuote
    ensures Inside(Escape(s) + u, word) == [word + s] + Outside(u[1..])
  {
    if s == [] {
      assert Escape(s) + u == u;
      assert word + s == word;
    } else {
      var c := s[0];
      var rest := Escape(s[1..]) + u;
      assert Escape(s) + u == EscapeRune(c) + rest;
      assert PrintableAscii(s[1..]) by {
        forall i | 0 <= i < |s[1..]| ensures IsPrintableAscii(s[1..][i]) { assert s[1..][i] == s[i + 1]; }
      }
      InsideEscaped(s[1..], word + [c], u);
      assert word + [c] + s[1..] == word + s;
      if c == DoubleQuote || c == BackSlash {
        assert (EscapeRune(c) + rest)[2..] == rest;
      } else {
        assert (EscapeRune(c) + rest)[1..] == rest;
      }
    }
  }

  /** One quoted label, opened from outside a word, scans to that label. */
  lemma {:induction false} QuotedWord(l: string, t: string)
    requires PrintableAscii(l)
    ensures Outside(QuoteString(l) + t) == [l] + Outside(t)
  {
    var u := [DoubleQuote] + t;
    var body := Escape(l) + u;
    assert QuoteString(l) + t == [DoubleQuote] + body;
    assert ([DoubleQuote] + body)[1..] == body;
    InsideEscaped(l, [], u);
    assert u[1..] == t;
    assert [] + l == l;
  }

  /** Scanning the quoted labels joined by commas, and the closing `]`, gives the labels back. */
  lemma {:induction false} OutsideQuoted(order: seq<string>)
    requires forall i :: 0 <= i < |order| ==> PrintableAscii(order[i])
    ensures Outside(Join(QuoteAll(order), ",") + [RightBracket]) == order
  {
    if order == [] {
      assert Join(QuoteAll(order), ",") + [RightBracket] == [RightBracket];
    } else if |order| == 1 {
      assert Join(QuoteAll(order), ",") == QuoteString(order[0]);
      QuotedWord(order[0], [RightBracket]);
      assert Outside([RightBracket]) == [];
    } else {
      var tail := Join(QuoteAll(order[1..]), ",") + [RightBracket];
      JoinQuotedCons(order);
      QuotedWord(order[0], "," + tail);
      OutsideSkips(",", tail);
      assert forall i :: 0 <= i < |order[1..]| ==> PrintableAscii(order[1..][i]) by {
        forall i | 0 <= i < |order[1..]| ensures PrintableAscii(order[1..][i]) { assert order[1..][i] == order[i + 1]; }
      }
      OutsideQuoted(order[1..]);
      assert order == [order[0]] + order[1..];
    }
  }

  /** The joined quoted labels, closed by `]`, are the first quoted label, a comma, and the rest. */
  lemma {:induction false} JoinQuotedCons(order: seq<string>)
    requires |order| > 1
    ensures Join(QuoteAll(order), ",") + [RightBracket]
         == QuoteString(order[0]) + ("," + (Join(QuoteAll(order[1..]), ",") + [RightBracket]))
  {
    var q := QuoteAll(order);
    assert q[0] == QuoteString(order[0]) && q[1..] == QuoteAll(order[1..]);
    assert Join(q, ",") == q[0] + "," + Join(q[1..], ",");
    Regroup(q[0], ",", Join(q[1..], ","), [RightBracket]);
  }

  /** Concatenation regrouped to the right. */
  lemma Regroup(a: string, b: string, c: string, d: string)
    ensures a + b + c + d == a + (b + (c + d))
  {
  }

  /** The list that `MarshalJSON` writes passes `UnmarshalJSON`'s check and scans back to the same labels in the same order. */
  lemma {:induction false} DecodeEncode(order: seq<string>)
    requires forall i :: 0 <= i < |order| ==> PrintableAscii(order[i])
    ensures IsList(Encode(order)) && Words(Encode(order)) == order
  {
    assert Encode(order)[1..] == Join(QuoteAll(order), ",") + [RightBracket];
    OutsideQuoted(order);
  }

  /**
   * Round trip of a label set: when every stored label is printable ASCII
   * with no white space at either end, unmarshalling what `MarshalJSON`
   * writes for any enumeration of the set adds exactly that set.
   */
  lemma {:induction false} RoundTrip(order: seq<string>, labels: set<string>)
    requires Enumerates(order, labels)
    requires forall l :: l in labels ==> Trimmed(l) && PrintableAscii(l)
    ensures IsList(Encode(order)) && TrimAll(Words(Encode(order))) == labels
  {
    DecodeEncode(order);
    forall l | l in labels ensures TrimSpace(l) == l { TrimmedIsFixpoint(l); }
  }

  /** Inside a word, characters other than `"` and `\` are collected as they are. */
  lemma {:induction false} InsidePlain(p: string, r: string, word: string)
    requires DoubleQuote !in p && BackSlash !in p
    ensures Inside(p + r, word) == Inside(r, word + p)
  {
    if p == [] {
      assert p + r == r && word + p == word;
    } else {
      assert (p + r)[0] == p[0] && (p + r)[1..] == p[1..] + r;
      assert p[0] in p;
      assert DoubleQuote !in p[1..] && BackSlash !in p[1..] by {
        forall i | 0 <= i < |p[1..]| ensures p[1..][i] != DoubleQuote && p[1..][i] != BackSlash {
          assert p[1..][i] == p[i + 1];
        }
      }
      InsidePlain(p[1..], r, word + [p[0]]);
      assert word + [p[0]] + p[1..] == word + p;
    }
  }

  /**
   * A word whose only `"` is escaped has no closing quote either: the
   * escaped quote is collected and the word is dropped at the end.
   */
  lemma {:induction false} EscapedQuoteDropped(p: string, q: string, word: string)
    requires DoubleQuote !in p && BackSlash !in p && DoubleQuote !in q
    ensures Inside(p + [BackSlash, DoubleQuote] + q, word) == []
  {
    assert p + [BackSlash, DoubleQuote] + q == p + ([BackSlash, DoubleQuote] + q);
    InsidePlain(p, [BackSlash, DoubleQuote] + q, word);
    var u := [BackSlash, DoubleQuote] + q;
    assert u[0] == BackSlash && |u| > 1 && u[1] == DoubleQuote && u[2..] == q;
    UnterminatedDropped(q, word + p + [DoubleQuote]);
  }

  /** `strconv.Quote` writes a tab between plain text as `\t`. */
  lemma {:induction false} EscapeTab(p: string, q: string)
    requires Plain(p) && Plain(q)
    ensures Escape(p + "\t" + q) == p + ("\\t" + q)
  {
    QuotePlain(p);
    QuotePlain(q);
    assert p + "\t" + q == p + ("\t" + q);
    EscapeConcat(p, "\t" + q);
    EscapeConcat("\t", q);
    assert Escape("\t") == "\\t" by { assert "\t"[1..] == []; }
  }

  /**
   * The decoder knows only the escapes `\"` and `\\`: a label holding a tab,
   * which `strconv.Quote` writes as `\t`, comes back with a `t` in its place.
   */
  lemma {:induction false} TabComesBackAsT(p: string, q: string)
    requires Plain(p) && Plain(q)
    ensures Words(Encode([p + "\t" + q])) == [p + "t" + q]
  {
    var l := p + "\t" + q;
    var rest := [DoubleQuote] + [RightBracket];
    EscapeTab(p, q);
    assert Join(QuoteAll([l]), ",") == QuoteString(l) by { assert [l][1..] == []; }
    var tail := "\\t" + (q + rest);
    var w := p + "t" + q;
    assert Encode([l])[1..] == [DoubleQuote] + (p + tail) by {
      var e := Escape(l);
      assert Encode([l]) == [LeftBracket] + ([DoubleQuote] + e + [DoubleQuote]) + [RightBracket];
      assert Encode([l])[1..] == [DoubleQuote] + e + rest;
      assert e + rest == p + tail;
    }
    assert Outside([DoubleQuote] + (p + tail)) == Inside(p + tail, []) by {
      assert ([DoubleQuote] + (p + tail))[1..] == p + tail;
    }
    InsidePlain(p, tail, []);
    assert Inside(tail, [] + p) == Inside(q + rest, [] + p + "t") by {
      assert tail[0] == BackSlash && tail[1] == 't' && tail[2..] == q + rest;
    }
    InsidePlain(q, rest, [] + p + "t");
    assert [] + p + "t" + q == w;
    assert Inside(rest, w) == [w] + Outside([RightBracket]);
    assert Outside([RightBracket]) == [];
  }
}
