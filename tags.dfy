/**
 * `Tags`: a set of labels, each stored with the white space at its ends cut
 * off, that marshals to and from a JSON list of strings.
 */
module TagSet {
  import opened Wrappers
  import opened Maps
  import opened Trim
  import opened Quote
  import opened Codec

  /** The error `UnmarshalJSON` returns for input that is not bracketed. */
  const NotAList: string := "provided JSON is not a list"

  class Tags {
    /** The label map; `Nil` until the first method call makes it. */
    var tags: PresenceMap

    /** Every stored label is its own trim. */
    ghost predicate Valid()
      reads this
    {
      forall l :: l in tags.Elements() ==> Trimmed(l)
    }

    /** The labels currently stored. */
    function Contents(): set<string>
      reads this
    {
      tags.Elements()
    }

    /** The zero value of `Tags`, as `new(Tags)` gives it: no map yet, no labels. */
    constructor Zero()
      ensures Valid() && tags == Nil && Contents() == {}
    {
      tags := Nil;
    }

    /** `NewTags`: a set made eagerly and holding the trimmed initial labels. */
    constructor NewTags(labels: seq<string>)
      ensures Valid() && tags == Made(TrimAll(labels))
    {
      tags := Nil;
      new;
      InitTags();
      for i := 0 to |labels|
        invariant Valid() && tags == Made(TrimAll(labels[..i]))
      {
        Add(labels[i]);
        TrimAllPrefix(labels, i);
      }
      assert labels[..|labels|] == labels;
    }

    /** `initTags`: makes the map when it is nil; the labels do not change. */
    method InitTags()
      modifies this
      ensures tags == Made(old(Contents()))
    {
      if tags == Nil {
        tags := Made({});
      }
    }

    /** `All`: every label once, in an order that may differ between calls. */
    method All() returns (labels: seq<string>)
      modifies this
      ensures tags == Made(old(Contents()))
      ensures Enumerates(labels, Contents()) && |labels| == |Contents()|
    {
      InitTags();
      labels := Keys(tags.keys);
    }

    /** `Has`: whether the trim of `tag` is stored. */
    method Has(tag: string) returns (ok: bool)
      modifies this
      ensures tags == Made(old(Contents()))
      ensures ok <==> TrimSpace(tag) in Contents()
    {
      InitTags();
      ok := TrimSpace(tag) in tags.keys;
    }

    /** `Add`: stores the trim of `tag`; adding a stored label changes nothing. */
    method Add(tag: string)
      requires Valid()
      modifies this
      ensures Valid()
      ensures tags == Made(old(Contents()) + {TrimSpace(tag)})
    {
      InitTags();
      tags := Made(tags.keys + {TrimSpace(tag)});
    }

    /** `Remove`: deletes the trim of `tag`, if stored; no other label changes. */
    method Remove(tag: string)
      requires Valid()
      modifies this
      ensures Valid()
      ensures tags == Made(old(Contents()) - {TrimSpace(tag)})
    {
      InitTags();
      tags := Made(tags.keys - {TrimSpace(tag)});
    }

    /** `Count`: the number of distinct labels. */
    method Count() returns (n: int)
      modifies this
      ensures tags == Made(old(Contents()))
      ensures n == |Contents()|
    {
      var labels := All();
      n := |labels|;
    }

    /** `String`: the labels joined by ", " in some order, without any escaping; "" when empty. */
    method String() returns (res: string)
      modifies this
      ensures tags == Made(old(Contents()))
      ensures exists order :: Enumerates(order, Contents()) && res == Join(order, ", ")
    {
      var all := All();
      if |all| <= 0 {
        assert Join(all, ", ") == "";
        return "";
      }
      res := "";
      var labels := All();
      for i := 0 to |labels|
        invariant tags == Made(old(Contents()))
        invariant res == Prefixed(labels[..i], ", ")
      {
        PrefixedSnoc(labels[..i], labels[i], ", ");
        assert labels[..i + 1] == labels[..i] + [labels[i]];
        res := res + ", " + labels[i];
      }
      assert labels[..|labels|] == labels;
      PrefixedCut(labels, ", ");
      res := res[2..];
    }

    /** `quotedTags`: the labels, each quoted by `strconv.Quote`, joined by commas in some order. */
    method QuotedTags() returns (res: string)
      modifies this
      ensures tags == Made(old(Contents()))
      ensures exists order :: Enumerates(order, Contents()) && res == Join(QuoteAll(order), ",")
    {
      var all := All();
      if |all| <= 0 {
        assert Join(QuoteAll(all), ",") == "";
        return "";
      }
      res := "";
      var labels := All();
      for i := 0 to |labels|
        invariant tags == Made(old(Contents()))
        invariant res == Prefixed(QuoteAll(labels[..i]), ",")
      {
        QuoteAllSnoc(labels[..i], labels[i]);
        PrefixedSnoc(QuoteAll(labels[..i]), QuoteString(labels[i]), ",");
        assert labels[..i + 1] == labels[..i] + [labels[i]];
        res := res + "," + QuoteString(labels[i]);
      }
      assert labels[..|labels|] == labels;
      PrefixedCut(QuoteAll(labels), ",");
      res := res[1..];
    }

    /** `MarshalJSON`: the quoted labels in brackets; the error is always nil. */
    method MarshalJSON() returns (data: string, err: Option<string>)
      modifies this
      ensures tags == Made(old(Contents()))
      ensures err == None
      ensures exists order :: Enumerates(order, Contents()) && data == Encode(order)
    {
      var quoted := QuotedTags();
      ghost var order :| Enumerates(order, Contents()) && quoted == Join(QuoteAll(order), ",");
      data := [LeftBracket] + quoted + [RightBracket];
      assert data == Encode(order);
      err := None;
    }

    /**
     * `UnmarshalJSON`: rejects input that does not start with `[` and end
     * with `]` before touching the set; otherwise adds, through `Add`, every
     * word the scanner finds and removes nothing. The input must not be empty
     * (Go indexes `json[0]` unchecked).
     */
    method UnmarshalJSON(json: string) returns (err: Option<string>)
      requires |json| > 0
      requires Valid()
      modifies this
      ensures Valid()
      ensures err.Some? <==> !IsList(json)
      ensures err.Some? ==> err.value == NotAList && tags == old(tags)
      ensures err.None? ==> Contents() == old(Contents()) + TrimAll(Words(json))
    {
      if json[0] != LeftBracket || json[|json| - 1] != RightBracket {
        return Some(NotAList);
      }
      err := None;
      var wordBytes: string := [];
      var inWord := false;
      ghost var found: seq<string> := [];
      ghost var target := Words(json);
      var pos := 1;
      ScanFromSuffix(json, 1, false, []);
      while pos < |json|
        invariant 1 <= pos <= |json|
        invariant Valid()
        invariant Contents() == old(Contents()) + TrimAll(found)
        invariant found + ScanFrom(json, pos, inWord, wordBytes) == target
        decreases |json| - pos
      {
        ghost var scanning := ScanFrom(json, pos, inWord, wordBytes);
        if inWord {
          if json[pos] == BackSlash {
            pos, wordBytes := ReadBackslashRun(json, pos, wordBytes);
            assert ScanFrom(json, pos + 1, true, wordBytes) == scanning;
            assert found + ScanFrom(json, pos + 1, inWord, wordBytes) == target;
          } else if json[pos] == DoubleQuote {
            inWord := false;
            Add(wordBytes);
            TrimAllSnoc(found, wordBytes);
            CloseStep(found, json, pos, wordBytes, target);
            found := found + [wordBytes];
            assert found + ScanFrom(json, pos + 1, inWord, wordBytes) == target;
          } else {
            assert scanning == ScanFrom(json, pos + 1, true, wordBytes + [json[pos]]);
            wordBytes := wordBytes + [json[pos]];
            assert found + ScanFrom(json, pos + 1, inWord, wordBytes) == target;
          }
        } else if json[pos] == DoubleQuote {
          assert scanning == ScanFrom(json, pos + 1, true, []);
          wordBytes := [];
          inWord := true;
          assert found + ScanFrom(json, pos + 1, inWord, wordBytes) == target;
        } else {
          assert scanning == ScanFrom(json, pos + 1, false, wordBytes);
          assert found + ScanFrom(json, pos + 1, inWord, wordBytes) == target;
        }
        pos := pos + 1;
      }
      assert found == target;
    }
  }
}
