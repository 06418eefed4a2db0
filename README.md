# tagit in Dafny

A model of the Go package `tagit`: two label sets backed by a
`map[string]struct{}` and a hand-written codec between a `Tags` set and a JSON
list of strings.

- `Tags` (module `TagSet`, `tags.dfy`) stores every label with the white space
  at its ends cut off (`strings.TrimSpace`). It prints as the labels joined by
  `", "`, marshals to `[` + the `strconv.Quote`d labels joined by `,` + `]`, and
  unmarshals with a byte-level state machine. The machine knows two states,
  inside and outside a word, and counts runs of backslashes inside a word.
- `Taggable` (module `TaggableSet`, `taggable.dfy`) is the same kind of set
  without trimming and without a codec.
- `keys` (module `Maps`, `keys.dfy`) copies the key set of a map into a slice.
  Both sets list their labels through it.

How the Go program is represented:

- **Strings.** A Go string is a `string`, one character per code point. The
  decoder reads bytes in Go. `"`, `\`, `[` and `]` never occur inside a
  multi-byte UTF-8 sequence, so scanning code points finds the same words.
- **Nil maps.** The map field is a `PresenceMap`: `Nil` for the zero value,
  `Made(keys)` once `initTags`/`initTaggable` has run. So the zero value of
  either set, which every method makes usable on first use, is modelled as it
  is.
- **Map order.** Go's map iteration order is unspecified. `Maps.Keys` picks any
  key it has not yet visited at each step. The methods that list or print the
  set promise a result for *some* duplicate-free enumeration of the labels
  (`Enumerates`), never for a fixed order.
- **`strings.TrimSpace`** cuts the code points for which `unicode.IsSpace`
  holds from both ends (`Trim.TrimSpace`).
- **`strconv.Quote`** is modelled code point by code point (`Quote.EscapeRune`):
  - `"` and `\` get a backslash;
  - the ASCII control characters become `\a \b \f \n \r \t \v` or `\xHH`;
  - everything else is copied, including the non-printable code points from
    U+0080 up that Go writes as `\u` escapes (see "## Left out").
- **The decoder.** It is specified by two mutually recursive functions,
  `Codec.Outside` and `Codec.Inside`. Inside a word, a backslash makes the next
  character part of the word. `UnmarshalJSON` keeps the Go loop, including the
  counting of a backslash run and the step back after an even run. Its loop
  invariant ties the loop to that specification.
- **The inner loop.** The backslash-run loop (tags.go:114-128) is the method
  `Codec.ReadBackslashRun`, which `UnmarshalJSON` calls at that point. It takes
  the same steps on the same variables.

Two consequences of the code that limit the round trip:

- `MarshalJSON` quotes every label with `strconv.Quote`. That function also
  escapes control characters, and non-printable code points from U+0080 up.
  The decoder undoes only `\"` and `\\`, so a label with a tab comes back with a
  `t` in its place (`Codec.TabComesBackAsT`). The round trip is therefore
  proved for labels of printable ASCII only.
- After an odd run of backslashes, the decoder appends the next byte to the
  word without examining it (tags.go:125-134), so `\"` does not close the word.

## Model

| member | source | states |
|---|---|---|
| Maps.Keys | bson/keys.go:3-11 | the slice has as many entries as the map has keys, every entry is a key, every key is an entry, and no key appears twice |
| Maps.EnumerationLength | bson/keys.go:4-9 | any duplicate-free listing of a set is exactly as long as the set, so `len(All())` is the number of labels |
| Maps.EnumerationSingleton | taggable.go:16-21 | the only listing of a one-label set is that label |
| Maps.EnumerationPair | tags.go:37-42 | a two-label set has exactly two listings, one per order |
| Trim.IsSpace | tags.go:48 | `unicode.IsSpace`: the White_Space code points; among the first 256 exactly tab, line feed, vertical tab, form feed, carriage return, space, U+0085 and U+00A0 |
| Trim.SkipSpaces | tags.go:48 | the scan from the left stops at the first code point that is not white space, or at the end |
| Trim.SkipSpacesBack | tags.go:48 | the scan from the right, never passing the left cut, stops after the last code point that is not white space |
| Trim.TrimSpace | tags.go:48 | a trimmed label has no white space at either end |
| Trim.TrimSpaceCuts | tags.go:55 | trimming only removes white space, and only from the two ends |
| Trim.TrimSpaceUnique | tags.go:53-56 | the trim of `s` is the one infix with no white space at its ends outside which `s` is all white space |
| Trim.TrimmedIsFixpoint | tags.go:46-50 | a label with no white space at its ends is its own trim, so a stored label is found as it is |
| Trim.TrimSpaceIdempotent | tags.go:53-56 | trimming twice is trimming once, so adding a label again stores nothing new |
| Quote.EscapeRune | tags.go:89 | `strconv.Quote` writes `"` and `\` as a backslash pair, an ASCII control character as an escape with no control characters, and copies any other code point |
| Quote.Escape | tags.go:89 | the escaped label is at least as long as the label and holds no ASCII control character |
| Quote.QuoteString | tags.go:89 | a quoted label starts and ends with `"` and holds no ASCII control character |
| Quote.EscapeConcat | tags.go:89 | escaping works code point by code point: it distributes over concatenation |
| Quote.QuotePlain | tags.go:89 | a label of printable ASCII without `"` or `\` is quoted by wrapping it in `"` |
| Codec.Join | tags.go:76-80 | the parts with the separator between neighbours; a non-empty join starts with the first part |
| Codec.JoinSnoc | tags.go:76-78 | joining one more part appends the separator and the part |
| Codec.PrefixedSnoc | tags.go:88-90 | the accumulator of `String`/`quotedTags` grows by the separator and the next part |
| Codec.PrefixedCut | tags.go:80 | cutting the leading separator off the accumulator leaves the parts joined |
| Codec.QuoteAll | tags.go:88-90 | one quoted label per label |
| Codec.QuoteAllSnoc | tags.go:88-90 | quoting one more label appends its quoted form |
| Codec.Encode | tags.go:97-99 | the marshalled text starts with `[` and ends with `]`, and is `[]` for no labels |
| Codec.IsList | tags.go:107 | the bracket check: the first byte is `[` and the last is `]`, which needs at least two bytes |
| Codec.Outside | tags.go:135-140 | the decoder's state outside a word: every character but `"` is skipped, and `"` opens a word |
| Codec.Inside | tags.go:113-134 | the decoder's state inside a word: a backslash takes the next character literally, `"` closes the word, and a word still open at the end is dropped |
| Codec.OutsideBound | tags.go:135-140 | outside a word, every word found costs at least its two quotes, so at most half the input's length in words |
| Codec.InsideBound | tags.go:113-134 | inside a word, only the open word's closing quote is owed, and every later word costs two quotes |
| Codec.Words | tags.go:110-112 | the words the decoder finds after the leading `[`, starting outside a word |
| Codec.ScanFrom | tags.go:112-141 | the same scanner read from cursor position `i`, the way the loop reads it |
| Codec.EscapeStep | tags.go:114-124 | inside a word, a backslash and the character after it add that character and nothing else |
| Codec.ReadBackslashRun | tags.go:114-128 | the backslash-run loop ends inside the input, past its start, and the words still to come are the same as before it |
| Codec.CloseStep | tags.go:129-132 | an unescaped `"` inside a word moves the word to the found words |
| Codec.ScanFromSuffix | tags.go:112-141 | the cursor-based scan from position `i` finds the same words as the scanner run on the rest of the input |
| Codec.TrimAllSnoc | tags.go:131 | adding one more word adds its trim to the stored labels |
| Codec.TrimAllPrefix | tags.go:24-26 | adding the initial labels one at a time stores the trims of the labels seen so far |
| Codec.BackslashRun | tags.go:114-128 | inside a word, a run of `k` backslashes adds `k/2` backslashes; when `k` is odd the next character is added literally, and when `k` is even it is read as usual |
| Codec.OutsideSkips | tags.go:135-140 | outside a word every character except `"` (commas, spaces) is skipped |
| Codec.UnterminatedDropped | tags.go:112-141 | with no `"` left before the end of the input, the open word is never added |
| Codec.EscapedQuoteDropped | tags.go:114-134 | a word whose only `"` is escaped (`\"`) is not closed by it and is never added |
| Codec.EscapedRuneStep | tags.go:114-134 | inside a word, a printable ASCII code point as `strconv.Quote` writes it (`\"`, `\\` or itself) adds exactly that code point |
| Codec.InsideEscaped | tags.go:89 | the scanner reads a `strconv.Quote`-escaped label of printable ASCII up to its closing quote back as that label |
| Codec.QuotedWord | tags.go:129-138 | one quoted label of printable ASCII, opened from outside a word, scans to exactly that label |
| Codec.JoinQuotedCons | tags.go:88-92 | the marshalled list body is the first quoted label, a comma, and the body for the other labels |
| Codec.OutsideQuoted | tags.go:83-93 | quoted labels of printable ASCII, joined by commas and closed by `]`, scan back to the labels in order |
| Codec.DecodeEncode | tags.go:97-143 | for labels of printable ASCII, the text `MarshalJSON` writes passes the bracket check and scans back to the same labels in the same order |
| Codec.RoundTrip | tags.go:9-11 | for labels of printable ASCII with no white space at the ends, unmarshalling what `MarshalJSON` writes adds exactly the marshalled set |
| Codec.InsidePlain | tags.go:134 | inside a word, characters other than `"` and `\` are appended as they are |
| Codec.EscapeTab | tags.go:89 | `strconv.Quote` writes a tab between printable ASCII text as `\t` |
| Codec.TabComesBackAsT | tags.go:114-134 | a printable ASCII label holding a tab is marshalled as `\t` and unmarshalled with `t` in its place |
| TagSet.Tags.Zero | tags.go:12-14 | the zero value has a nil map and no labels |
| TagSet.Tags.NewTags | tags.go:20-29 | the new set's map is made and holds exactly the trims of the initial labels |
| TagSet.Tags.InitTags | tags.go:31-35 | the map is made if it was nil, and the labels do not change |
| TagSet.Tags.All | tags.go:39-42 | every label exactly once, in some order, and the set is unchanged |
| TagSet.Tags.Has | tags.go:46-50 | true exactly when the trim of the argument is stored |
| TagSet.Tags.Add | tags.go:53-56 | the stored labels become the old ones plus the trim of the argument, and every label stays trimmed |
| TagSet.Tags.Remove | tags.go:59-62 | the stored labels become the old ones minus the trim of the argument, and nothing else changes |
| TagSet.Tags.Count | tags.go:65-67 | the number of distinct labels |
| TagSet.Tags.String | tags.go:71-81 | the labels joined by `", "` in some listing order, unescaped; `""` for no labels |
| TagSet.Tags.QuotedTags | tags.go:83-93 | the quoted labels joined by `,` in some listing order |
| TagSet.Tags.MarshalJSON | tags.go:97-99 | no error, and the text is the encoding of some listing of the labels |
| TagSet.Tags.UnmarshalJSON | tags.go:104-143 | an error exactly when the input does not start with `[` and end with `]`, and then the set is untouched; otherwise the set gains the trims of the scanned words and loses nothing |
| TaggableSet.Taggable.Zero | taggable.go:6-8 | the zero value has a nil map and no tags |
| TaggableSet.Taggable.InitTaggable | taggable.go:10-14 | the map is made if it was nil, and the tags do not change |
| TaggableSet.Taggable.Tags | taggable.go:18-21 | every tag exactly once, in some order |
| TaggableSet.Taggable.HasTag | taggable.go:24-28 | true exactly when the argument itself, untrimmed, is stored |
| TaggableSet.Taggable.Tag | taggable.go:31-34 | the tags become the old ones plus the argument as given |
| TaggableSet.Taggable.Untag | taggable.go:37-40 | the tags become the old ones minus the argument, and nothing else changes |
| TaggableSet.Taggable.NumTags | taggable.go:43-45 | the number of distinct tags |
| TaggableSet.TagThenList | taggable_test.go:13-21 | a zero `Taggable` tagged with `wow` lists exactly `["wow"]` |
| TaggableSet.TagThreeCount | taggable_test.go:23-33 | three distinct tags count three, and tagging one again keeps three |
| TaggableSet.HasTagAfterTag | taggable_test.go:35-45 | a tagged label is found, and one never tagged is not |
| TaggableSet.UntagAfterTag | taggable_test.go:47-60 | untagging removes the tag and keeps the other one, and untagging an absent tag changes nothing |
| TaggableSet.SpacesKept | taggable.go:24-34 | `" wow "` is stored as given, `"wow"` is a different tag, and the two count two |
| TagScenarios.AddThreeCount | tags_test.go:55-65 | any three distinct trimmed labels added to a zero `Tags` count three |
| TagScenarios.PaddedTrims | tags.go:55 | spaces or a tab around a trimmed label are cut off |
| TagScenarios.TrimAllPadded | tags.go:24-26 | a label and its padded copy store as one label |
| TagScenarios.NewTagsTrims | tags.go:20-29 | `NewTags(w, " w ", other)` counts two, and `Has("\tw")` is true |
| TagScenarios.AddThenHas | tags_test.go:67-77 | after `Add(" w ")`, `Has` finds `w` bare or padded and does not find another label |
| TagScenarios.AddThenRemove | tags_test.go:79-92 | `Remove(" w")` deletes `w`, keeps the other label, and removing an absent label changes nothing |
| TagScenarios.EmptyOutputs | tags.go:71-99 | a set with no labels prints as `""` and marshals to `[]` |
| TagScenarios.JoinPair | tags.go:76-80 | two labels print as the first, `", "`, and the second |
| TagScenarios.StringOfTwo | tags_test.go:94-106 | two labels print as `a, b` or `b, a`, with quotes in a label left as they are |
| TagScenarios.EncodePair | tags.go:83-99 | two printable ASCII labels without `"` or `\` marshal as `["a","b"]` |
| TagScenarios.MarshalTwo | tags_test.go:108-123 | two printable ASCII labels without `"` or `\` marshal as `["a","b"]` or `["b","a"]`, with no error |
| TagScenarios.PlainListWords | tags.go:112-141 | the words of `["a", "b"]` are `a` and `b` |
| TagScenarios.UnmarshalPlain | tags_test.go:143-156 | unmarshalling `["a", "b"]` into an empty set gives exactly `{a, b}` and no error |
| TagScenarios.QuoteEscapedWord | tags.go:89 | quoting a printable ASCII word with one `"` or `\` escapes just that character |
| TagScenarios.EscapedListWords | tags.go:114-134 | the words of `["p\xq", "b"]`, with `x` a `"` or `\`, are `pxq` and `b` |
| TagScenarios.UnmarshalEscaped | tags_test.go:158-188 | an escaped `"` or `\` inside a word is stored as that character |
| TagScenarios.UnmarshalString | tags_test.go:190-197 | a bare JSON string is rejected with the error, and the set keeps its labels |
| TagScenarios.JsonRoundTrip | tags.go:9-11 | marshalling a `NewTags` set and unmarshalling the text into a zero `Tags` gives back exactly the distinct trimmed initial labels, when each of them is printable ASCII |

## Left out

- Quote.EscapeRune: copies every code point from U+0080 up. `strconv.Quote` also escapes the non-printable ones (`\u`, `\U`), and writes invalid UTF-8 as `\x`. The model has no Unicode printability table.
- Codec.InsideEscaped, Codec.QuotedWord, Codec.OutsideQuoted, Codec.DecodeEncode, Codec.RoundTrip, TagScenarios.JsonRoundTrip: require printable ASCII labels. Go's round trip also holds for printable code points from U+0080 up, which `strconv.Quote` copies. Without Unicode's printability table the model cannot tell those from the non-printable ones, which Go escapes as `\u` and the decoder does not read back.
- Byte strings that are not valid UTF-8 are not modelled, because a Dafny `string` holds code points.
- TagSet.Tags.UnmarshalJSON: requires a non-empty input. Go indexes `json[0]` unchecked and panics on empty input, and a panic is not modelled.
- TagSet.Tags.UnmarshalJSON: the inner backslash loop is the separate method `Codec.ReadBackslashRun` rather than inline code.
- TagSet.Tags.String, TagSet.Tags.QuotedTags: each calls `All` twice, as Go does. The model proves its result for the second listing and does not relate the two orders, which Go leaves unrelated too.
- The `encoding/json` glue is not modelled. `json.Marshal` and `json.Unmarshal` reach `MarshalJSON` and `UnmarshalJSON` through a struct field, and that code belongs to the standard library.
- The BSON adapter (`SetBSON`, `GetBSON` and the mgo library) is not part of this model. Its source is not among the modelled files, and it wraps an external library.
- `doc.go` and `bson/doc.go` are not modelled, because they hold package documentation only.
- The `TagScenarios` runs of the `Tags` tests are stated for any labels of the same shape, not for the literal strings of the tests (the `TaggableSet` scenarios do use the literal strings). For example, `TagScenarios.UnmarshalEscaped` covers `["suc\"h", "wow"]` with `p = "suc"`, `x = '"'`, `q = "h"` and `b = "wow"`.
