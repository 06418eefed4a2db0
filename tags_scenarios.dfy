/**
 * Runs of `Tags` from a fresh set, stated for any labels of the right shape:
 * each method states the outcome the set promises for that run.
 */
module TagScenarios {
  import opened Wrappers
  import opened Maps
  import opened Trim
  import opened Quote
  import opened Codec
  import opened TagSet

  /** Three distinct labels added to a zero `Tags` count three. */
  method AddThreeCount(a: string, b: string, c: string) returns (n: int)
    requires Trimmed(a) && Trimmed(b) && Trimmed(c)
    requires a != b && b != c && a != c
    ensures n == 3
  {
    var t := new Tags.Zero();
    TrimmedIsFixpoint(a);
    TrimmedIsFixpoint(b);
    TrimmedIsFixpoint(c);
    t.Add(a);
    t.Add(b);
    t.Add(c);
    assert t.Contents() == {a} + {b} + {c};
    assert |{a} + {b}| == 2 && c !in {a} + {b};
    n := t.Count();
  }

  /** Spaces or a tab around a trimmed label are cut off again. */
  lemma {:induction false} PaddedTrims(w: string)
    requires Trimmed(w)
    ensures TrimSpace(" " + w + " ") == w && TrimSpace(" " + w) == w
    ensures TrimSpace("\t" + w) == w && TrimSpace(w + "  ") == w
  {
    var both, leading, tabbed, trailing := " " + w + " ", " " + w, "\t" + w, w + "  ";
    assert CutAt(both, w, 1) by { assert both[1..1 + |w|] == w; }
    assert CutAt(leading, w, 1) by { assert leading[1..1 + |w|] == w; }
    assert CutAt(tabbed, w, 1) by { assert tabbed[1..1 + |w|] == w; }
    assert CutAt(trailing, w, 0) by { assert trailing[0..|w|] == w; }
    TrimSpaceUnique(both, w, 1);
    TrimSpaceUnique(leading, w, 1);
    TrimSpaceUnique(tabbed, w, 1);
    TrimSpaceUnique(trailing, w, 0);
  }

  /** The trimmed labels of `[w, " w ", other]`. */
  lemma {:induction false} TrimAllPadded(w: string, other: string)
    requires Trimmed(w) && Trimmed(other)
    ensures TrimAll([w, " " + w + " ", other]) == {w, other}
  {
    PaddedTrims(w);
    TrimmedIsFixpoint(w);
    TrimmedIsFixpoint(other);
    var labels := [w, " " + w + " ", other];
    assert forall l :: l in labels <==> l == w || l == " " + w + " " || l == other;
  }

  /** `w` padded with white space is the label `w`: `NewTags` stores it once, and `Has` finds it however it is padded. */
  method NewTagsTrims(w: string, other: string) returns (n: int, has: bool)
    requires Trimmed(w) && Trimmed(other) && w != other
    ensures n == 2 && has
  {
    TrimAllPadded(w, other);
    PaddedTrims(w);
    var t := new Tags.NewTags([w, " " + w + " ", other]);
    n := t.Count();
    has := t.Has("\t" + w);
  }

  /** After `Add(" w ")`, `Has` finds `w` bare or padded, and no other label. */
  method AddThenHas(w: string, other: string) returns (has: bool, padded: bool, found: bool)
    requires Trimmed(w) && Trimmed(other) && w != other
    ensures has && padded && !found
  {
    var t := new Tags.Zero();
    PaddedTrims(w);
    TrimmedIsFixpoint(w);
    TrimmedIsFixpoint(other);
    t.Add(" " + w + " ");
    has := t.Has(w);
    padded := t.Has(w + "  ");
    found := t.Has(other);
  }

  /** `Remove` deletes the trimmed label, keeps the others, and ignores an absent one. */
  method AddThenRemove(w: string, other: string, absent: string) returns (before: bool, after: bool, kept: bool, n: int)
    requires Trimmed(w) && Trimmed(other) && Trimmed(absent)
    requires w != other && absent != w && absent != other
    ensures before && !after && kept && n == 1
  {
    var t := new Tags.Zero();
    TrimmedIsFixpoint(w);
    TrimmedIsFixpoint(other);
    TrimmedIsFixpoint(absent);
    PaddedTrims(w);
    t.Add(w);
    t.Add(other);
    before := t.Has(w);
    t.Remove(" " + w);
    t.Remove(absent);
    assert t.Contents() == {other};
    after := t.Has(w);
    kept := t.Has(other);
    n := t.Count();
  }

  /** A set with no labels prints as "" and marshals to `[]`. */
  method EmptyOutputs() returns (text: string, data: string)
    ensures text == "" && data == "[]"
  {
    var z := new Tags.Zero();
    text := z.String();
    ghost var none :| Enumerates(none, {}) && text == Join(none, ", ");
    EnumerationLength(none, {});
    var err;
    data, err := z.MarshalJSON();
    ghost var again :| Enumerates(again, {}) && data == Encode(again);
    EnumerationLength(again, {});
  }

  /** Two labels joined: the first, the separator, the second. */
  lemma JoinPair(a: string, b: string, sep: string)
    ensures Join([a, b], sep) == a + sep + b
  {
    assert [a, b][1..] == [b];
  }

  /** `String` joins the raw labels, quotes included, with ", " in either order. */
  method StringOfTwo(a: string, b: string) returns (s: string)
    requires Trimmed(a) && Trimmed(b) && a != b
    ensures s == a + ", " + b || s == b + ", " + a
  {
    var t := new Tags.Zero();
    TrimmedIsFixpoint(a);
    TrimmedIsFixpoint(b);
    t.Add(a);
    t.Add(b);
    s := t.String();
    ghost var order :| Enumerates(order, {a, b}) && s == Join(order, ", ");
    EnumerationPair(order, a, b);
    JoinPair(a, b, ", ");
    JoinPair(b, a, ", ");
  }

  /** The text of `["a","b"]`, cut at the quoted labels. */
  lemma PairText(a: string, b: string)
    ensures [LeftBracket] + (("\"" + a + "\"") + "," + ("\"" + b + "\"")) + [RightBracket] == "[\"" + a + "\",\"" + b + "\"]"
  {
  }

  /** The list `MarshalJSON` writes for two labels with nothing to escape. */
  lemma {:induction false} EncodePair(a: string, b: string)
    requires Plain(a) && Plain(b)
    ensures Encode([a, b]) == "[\"" + a + "\",\"" + b + "\"]"
  {
    QuotePlain(a);
    QuotePlain(b);
    assert QuoteAll([a, b]) == [QuoteString(a), QuoteString(b)] by {
      assert [a, b][1..] == [b];
      assert QuoteAll([b]) == [QuoteString(b)];
    }
    JoinPair(QuoteString(a), QuoteString(b), ",");
    PairText(a, b);
  }

  /** `MarshalJSON` writes `["a","b"]` or `["b","a"]` for labels with nothing to escape. */
  method MarshalTwo(a: string, b: string) returns (data: string, err: Option<string>)
    requires Trimmed(a) && Trimmed(b) && a != b && Plain(a) && Plain(b)
    ensures err == None
    ensures data == "[\"" + a + "\",\"" + b + "\"]" || data == "[\"" + b + "\",\"" + a + "\"]"
  {
    var t := new Tags.Zero();
    TrimmedIsFixpoint(a);
    TrimmedIsFixpoint(b);
    t.Add(a);
    t.Add(b);
    data, err := t.MarshalJSON();
    ghost var order :| Enumerates(order, {a, b}) && data == Encode(order);
    EnumerationPair(order, a, b);
    EncodePair(a, b);
    EncodePair(b, a);
  }

  /** The text of `["a", "b"]` after its `[`, cut into the pieces the scanner meets. */
  lemma TwoWordText(a: string, b: string)
    ensures ("[\"" + a + "\", \"" + b + "\"]")[1..] == ("\"" + a + "\"") + (", " + (("\"" + b + "\"") + "]"))
  {
  }

  /** The words of `["a", "b"]`: the separator ", " is skipped. */
  lemma {:induction false} PlainListWords(a: string, b: string)
    requires Plain(a) && Plain(b)
    ensures Words("[\"" + a + "\", \"" + b + "\"]") == [a, b]
  {
    QuotePlain(a);
    QuotePlain(b);
    TwoWordText(a, b);
    var tail := QuoteString(b) + "]";
    QuotedWord(a, ", " + tail);
    OutsideSkips(", ", tail);
    QuotedWord(b, "]");
    assert Outside("]") == [];
  }

  /** Unmarshalling `["a", "b"]` into an empty set adds both words. */
  method UnmarshalPlain(a: string, b: string) returns (err: Option<string>, labels: set<string>)
    requires Trimmed(a) && Trimmed(b) && Plain(a) && Plain(b)
    ensures err == None && labels == {a, b}
  {
    var t := new Tags.NewTags([]);
    assert TrimAll([]) == {};
    PlainListWords(a, b);
    TrimmedIsFixpoint(a);
    TrimmedIsFixpoint(b);
    err := t.UnmarshalJSON("[\"" + a + "\", \"" + b + "\"]");
    labels := t.Contents();
  }

  /** The text of `["p\xq", "b"]` after its `[`, cut into the pieces the scanner meets. */
  lemma EscapedText(p: string, x: char, q: string, b: string)
    ensures ("[\"" + p + [BackSlash, x] + q + "\", \"" + b + "\"]")[1..]
         == ("\"" + (p + ([BackSlash, x] + q)) + "\"") + (", " + (("\"" + b + "\"") + "]"))
  {
  }

  /** Quoting a word that holds one `"` or `\` escapes just that character. */
  lemma {:induction false} QuoteEscapedWord(p: string, x: char, q: string)
    requires Plain(p) && Plain(q)
    requires x == DoubleQuote || x == BackSlash
    ensures QuoteString(p + [x] + q) == "\"" + (p + ([BackSlash, x] + q)) + "\""
    ensures PrintableAscii(p + [x] + q)
  {
    var word := p + [x] + q;
    assert word == p + ([x] + q);
    assert Escape(word) == p + ([BackSlash, x] + q) by {
      QuotePlain(p);
      QuotePlain(q);
      EscapeConcat(p, [x] + q);
      EscapeConcat([x], q);
      assert Escape([x]) == [BackSlash, x] by { assert [x][1..] == []; }
    }
    assert PrintableAscii(word) by {
      forall i | 0 <= i < |word| ensures IsPrintableAscii(word[i]) {
        if i < |p| {
          assert word[i] == p[i];
        } else if i > |p| {
          assert word[i] == q[i - |p| - 1];
        }
      }
    }
  }

  /** The words of a list whose first word holds `x`, a `"` or `\`, escaped by a backslash. */
  lemma {:induction false} EscapedListWords(p: string, x: char, q: string, b: string)
    requires Plain(p) && Plain(q) && Plain(b)
    requires x == DoubleQuote || x == BackSlash
    ensures Words("[\"" + p + [BackSlash, x] + q + "\", \"" + b + "\"]") == [p + [x] + q, b]
  {
    var word := p + [x] + q;
    QuotePlain(b);
    QuoteEscapedWord(p, x, q);
    EscapedText(p, x, q, b);
    var tail := QuoteString(b) + "]";
    QuotedWord(word, ", " + tail);
    OutsideSkips(", ", tail);
    QuotedWord(b, "]");
    assert Outside("]") == [];
  }

  /** `["suc\"h", "wow"]`-shaped input: an escaped `"` or `\` inside a word is stored as itself. */
  method UnmarshalEscaped(p: string, x: char, q: string, b: string) returns (err: Option<string>, labels: set<string>)
    requires Plain(p) && Plain(q) && Plain(b)
    requires x == DoubleQuote || x == BackSlash
    requires Trimmed(p + [x] + q) && Trimmed(b)
    ensures err == None && labels == {p + [x] + q, b}
  {
    var t := new Tags.NewTags([]);
    assert TrimAll([]) == {};
    EscapedListWords(p, x, q, b);
    TrimmedIsFixpoint(p + [x] + q);
    TrimmedIsFixpoint(b);
    err := t.UnmarshalJSON("[\"" + p + [BackSlash, x] + q + "\", \"" + b + "\"]");
    labels := t.Contents();
  }

  /** A bare JSON string is not a list: the error is returned and the set keeps its labels. */
  method UnmarshalString(w: string, s: string) returns (err: Option<string>, labels: set<string>)
    requires Trimmed(w)
    ensures err == Some(NotAList) && labels == {w}
  {
    var t := new Tags.Zero();
    TrimmedIsFixpoint(w);
    t.Add(w);
    err := t.UnmarshalJSON("\"" + s + "\"");
    labels := t.Contents();
  }

  /**
   * Marshalling a set made by `NewTags` and unmarshalling the result into a
   * zero `Tags` gives the same set back: the distinct trimmed initial labels.
   * Every trimmed label must be printable ASCII: `strconv.Quote` escapes
   * control characters and non-printable code points in ways the decoder
   * does not undo.
   */
  method JsonRoundTrip(initial: seq<string>) returns (err: Option<string>, sent: set<string>, received: set<string>)
    requires forall i :: 0 <= i < |initial| ==> PrintableAscii(TrimSpace(initial[i]))
    ensures err == None
    ensures sent == TrimAll(initial) && received == sent
  {
    var source := new Tags.NewTags(initial);
    sent := source.Contents();
    var data, _ := source.MarshalJSON();
    ghost var order :| Enumerates(order, sent) && data == Encode(order);
    assert forall l :: l in sent ==> Trimmed(l) && PrintableAscii(l);
    RoundTrip(order, sent);
    var target := new Tags.Zero();
    err := target.UnmarshalJSON(data);
    received := target.Contents();
  }
}
