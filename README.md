# Schema-to-JSON extractor, modelled in Dafny

`convert/convert.go` reads a Prisma-style schema and turns each `model`
block into a record: a map holding `"model" -> name` and then one entry per
`key: value` declaration of the block body. The records are collected in
source order. The program does this with two Go regular expressions and
two nested loops. This project models those pieces:

- **Chars**: the RE2 character classes the patterns use. `\w` is
  `[0-9A-Za-z_]`; `\s` is `[\t\n\f\r ]`; `[^}]` and `[^"]` include the
  newline. `RunEnd` gives the end of a greedy run of one class.
- **Regexp**: Go's `FindAllStringSubmatch(s, -1)` over any anchored matcher.
  It takes the successive leftmost matches and resumes each search where
  the previous match ended. `IsFindAll` states this declaratively, and
  `FindAll` is proved to be the only sequence that satisfies it.
- **BlockPattern**: `(?m)^model\s+(\w+)\s+\{([^}]+)\}`. Neighbouring
  classes are disjoint, so each start has at most one reading, and the
  matcher is proved to find it.
- **FieldPattern**: `(\w+):\s+"?([^"]+)"?,?`. This pattern can be read in
  several ways from one start. `Prefers` is the order in which a
  backtracking engine tries them: greedy runs and optional items first,
  from left to right. The matcher is proved to return the reading
  preferred over every other, which reproduces the engine's corner cases.
- **Convert**: `ScanBlocks` and `ExtractFields` (the two `FindAll` calls);
  `Record`, `RecordOf` and `Document` (the specification of the records);
  and the method `Assemble`. `Assemble` keeps the two loops of the source,
  writes each field into the map by assignment and appends each map. It is
  proved to return `Document(content)`. The lemmas beside it state what a
  document, a record, a key and a value can be.
- **Examples**: short schema texts with their exact output proved. Among
  them is a `User` model declaring `email: "string", age: number,
  active: true`, which yields two fields rather than three
  (`Examples.UserModel`).

Text is a sequence of decoded characters (`string`). The program's maps are
`map[string]interface{}` (convert/convert.go:37 and 42), but every value it
stores is a capture string, so the model uses `map<string, string>`.

The code behaves as follows on points where a reader of a schema might
expect otherwise; the model does the same:

- `\s+` demands at least one blank before the `{` of a block and after the
  colon of a field.
- `[^}]+` refuses an empty body, so `model A {}` gives no record
  (`Examples.EmptyBody`).
- An unquoted value runs to the next `"` or the end of the body. It takes
  in commas and later declarations (`Examples.Swallow`), so
  `email: "string", age: number, active: true` gives two entries, not three.
- A value is never empty (`k:  ""` gives a blank, `k: ""` gives nothing).
  Values are not trimmed.
- Duplicate keys are last-write-wins, including a field named `model`,
  which overwrites the block's name.

## Model

| member | source | states |
|---|---|---|
| Chars.In | convert/convert.go:31 | definition, no contract: the RE2 classes of the two patterns (lines 31 and 50), `\w` = `[0-9A-Za-z_]`, `\s` = `[\t\n\f\r ]` (no vertical tab), `[^}]` and `[^"]` with the newline included; `Chars.Class` names the four |
| Chars.RunEnd | convert/convert.go:31 | a greedy run of one RE2 class from i ends at r: every character in between is in the class, and the character at r is not (or r is the end of the text) |
| Chars.RunEndExact | convert/convert.go:31 | a run that fills [i, j) and stops at j is exactly the greedy run: RunEnd(t, i, cls) == j |
| Regexp.Leftmost | convert/convert.go:34 | the search from `from` returns the first start at which the matcher succeeds, with no match in between, or None when there is none up to the end |
| Regexp.FindAllSpec | convert/convert.go:34 | FindAll is a FindAll sequence: each element is the match at its start, and no match starts in a searched gap (from every previous end to the next start, and after the last match) |
| Regexp.FindAllUnique | convert/convert.go:34 | the FindAll sequence is unique: any sequence with those properties equals FindAll |
| Regexp.FindAll | convert/convert.go:34 | Go's `FindAllStringSubmatch(s, -1)` (also at line 51): the leftmost match, then the search resumed at its end; no contract of its own, its meaning is stated by FindAllSpec and FindAllUnique |
| Regexp.FindAllInText | convert/convert.go:34 | each match starts at or after the search start and ends inside the text |
| Regexp.FindAllOrdered | convert/convert.go:34 | the matches run left to right without overlapping: each ends no later than any later one starts |
| Regexp.FindAllNone | convert/convert.go:34 | a text with no match anywhere gives no matches |
| Regexp.FindAllOne | convert/convert.go:34 | a text whose only match is m, with empty gaps around it, gives [m] |
| Regexp.FindAllTwo | convert/convert.go:34 | a text whose only matches are m1 and then m2 gives [m1, m2] |
| BlockPattern.LineStart | convert/convert.go:31 | definition, no contract: `^` under the `(?m)` flag, true at the start of the text and just after a `\n` |
| BlockPattern.ToSubmatch | convert/convert.go:31 | definition, no contract: the groups of a block reading as Go reports them, `match[0]` the whole match, `match[1]` the name (read at line 45) and `match[2]` the body (read at line 49) |
| BlockPattern.IsParse | convert/convert.go:31 | the declarative reading of the block pattern, piece by piece: line start, `model`, `\s+`, `(\w+)`, `\s+`, `{`, `([^}]+)`, `}`; no contract of its own, ParseAt and ParseAtComplete relate the matcher to it |
| BlockPattern.ParseAt | convert/convert.go:31 | the matcher at p yields only readings of the block pattern from p |
| BlockPattern.ParseAtComplete | convert/convert.go:31 | every reading of the block pattern from p is the one ParseAt returns, so a reading is unique |
| BlockPattern.ParseAtRuns | convert/convert.go:31 | with the ends of the four greedy runs known and the keyword and `{` in place, the matcher returns the reading they delimit |
| BlockPattern.BlockAt | convert/convert.go:31 | a block match at p starts at p, ends inside the text and has three groups, the first being the matched text |
| BlockPattern.BlockAtIffParse | convert/convert.go:31 | a block matches at p exactly when the pattern can be read there, and the match is that reading's submatch |
| BlockPattern.BlockAtShape | convert/convert.go:31 | a block match starts at a line start and reads `model`, blanks, a word name, blanks, `{`, a non-empty body without `}`, and `}` |
| BlockPattern.ParseShape | convert/convert.go:31 | the text of a reading is the keyword, the two blank runs, the name, the braces and the body joined in that order |
| BlockPattern.ParseBlanks | convert/convert.go:31 | both blank runs of a reading, after `model` and after the name, are non-empty white space |
| BlockPattern.NoSpaceBeforeBrace | convert/convert.go:31 | `model User{` (a name directly followed by `{`) is no block |
| BlockPattern.KeywordNeedsSpace | convert/convert.go:31 | `models X {` (no blank after `model`) is no block |
| BlockPattern.EmptyBodyNoBlock | convert/convert.go:31 | `model A {}` (an empty body) is no block |
| BlockPattern.UnclosedNoBlock | convert/convert.go:31 | with no `}` after p, no block starts at p |
| FieldPattern.IsParse | convert/convert.go:50 | the declarative reading of the field pattern, piece by piece: `(\w+)`, `:`, `\s+`, `"?`, `([^"]+)`, `"?`, `,?`; no contract of its own, ParseAt and ParseAtPreferred relate the matcher to it |
| FieldPattern.Prefers | convert/convert.go:50 | the order in which a backtracking engine tries the readings, greedy choices first from left to right; no contract of its own, PrefersStrict proves it a strict order and ParseAtPreferred shows the matcher returns its maximum |
| FieldPattern.ToSubmatch | convert/convert.go:50 | definition, no contract: the groups of a field reading as Go reports them, `propMatch[0]` the whole match, `propMatch[1]` the key (read at line 55) and `propMatch[2]` the value between the optional quotes (read at line 56) |
| FieldPattern.Rest | convert/convert.go:50 | once key, blanks and the opening quote are chosen, the greedy tail is a reading that ends at the end, after a quote or after a comma |
| FieldPattern.ParseAt | convert/convert.go:50 | the field matcher at p yields only readings of the field pattern from p, ending at the end, after a quote or after a comma |
| FieldPattern.RestPreferred | convert/convert.go:50 | with the first three choices fixed, the greedy tail is preferred over any other tail |
| FieldPattern.NoReadingToBlankEnd | convert/convert.go:50 | when no value can follow the full run of blanks, no reading takes that full run |
| FieldPattern.PreferredAllBlanks | convert/convert.go:50 | a reading that takes the full key and every blank is the one the matcher returns or is less preferred |
| FieldPattern.PreferredOneBlankBack | convert/convert.go:50 | when no value follows the full run of blanks, a reading that gives one blank back is the one the matcher returns or is less preferred |
| FieldPattern.PreferredMoreBlanks | convert/convert.go:50 | a reading that takes fewer blanks than the matcher does is strictly less preferred |
| FieldPattern.ParseAtPreferred | convert/convert.go:50 | whenever the field pattern can be read from p, ParseAt finds a reading, and it is preferred over every other (leftmost-first) |
| FieldPattern.FieldAt | convert/convert.go:50-51 | a field match starts at p, has a word key and a non-empty value with no quote, and ends at the end, after a quote or after a comma |
| FieldPattern.ToSubmatchGroups | convert/convert.go:50 | the key a reading captures is a word, and its value is non-empty and holds no quote |
| FieldPattern.ReadAt | convert/convert.go:50 | with maximal key and blank runs and a value character after the blanks (behind a quote or not), the matcher takes the greedy tail from there |
| FieldPattern.FieldAtKey | convert/convert.go:50 | the text of a field match begins with its key directly followed by the colon |
| FieldPattern.FieldAtLeftmostFirst | convert/convert.go:50 | a field matches at p exactly when a reading exists, and the match is the reading preferred over every other |
| FieldPattern.PrefersStrict | convert/convert.go:50 | the backtracking order is irreflexive, asymmetric and transitive, so the preferred reading is unique |
| FieldPattern.NoBlankNoMatch | convert/convert.go:50 | `a:1` (no blank after the colon) gives no match at the key |
| FieldPattern.EmptyQuotesAfterOneBlank | convert/convert.go:50 | `k: ""` with exactly one blank gives no match at the key |
| FieldPattern.EmptyQuotesAfterBlanks | convert/convert.go:50 | `k:  ""` with two or more blanks gives the last blank as the value and consumes the first quote |
| FieldPattern.QuotedValue | convert/convert.go:50 | a quoted value is the text between the quote and the next quote, stored unchanged, and the closing quote is consumed |
| FieldPattern.UnquotedValue | convert/convert.go:50 | an unquoted value is everything up to the next quote or the end, commas and blanks included, and that quote is consumed |
| FieldPattern.FieldAtExtendsLeft | convert/convert.go:50 | a match preceded by a word character also matches one character earlier |
| FieldPattern.FieldAtAfterMatch | convert/convert.go:51 | a match starting where the previous match ended is not preceded by a word character |
| Convert.ScanBlocks | convert/convert.go:31-34 | the block matches are non-empty, lie inside the text and have three groups |
| Convert.ScanBlocksAt | convert/convert.go:31-34 | the i-th block match is the block match at its own start, and its first group is the matched text |
| Convert.ScanBlocksSpec | convert/convert.go:31-34 | the block matches are exactly the successive leftmost block matches of the text |
| Convert.ExtractFields | convert/convert.go:49-51 | every field match of a body is non-empty, lies inside it and has three groups |
| Convert.ExtractFieldsGood | convert/convert.go:49-51 | every field match has a word key and a non-empty value without quotes |
| Convert.ExtractFieldsSpec | convert/convert.go:49-51 | the field matches are exactly the successive leftmost-first field matches of the body |
| Convert.Overlay | convert/convert.go:54-58 | the inner loop's writes `model[key] = value`, one pair after another into a map; no contract of its own, its meaning is stated by OverlayKeys, OverlayLast, OverlayUntouched and OverlayLookup |
| Convert.Record | convert/convert.go:42-58 | a fresh map with "model" -> name and then the fields written in order; no contract of its own, RecordLookup states its keys and values |
| Convert.RecordOf | convert/convert.go:45-58 | the record of one block match: its name (group 1) and the fields extracted from its body (group 2); no contract of its own, RecordLookup and RecordEntriesGood state what it holds |
| Convert.Document | convert/convert.go:37-62 | one record per block match |
| Convert.Assemble | convert/convert.go:37-62 | the loops return exactly Document(content): for each block, "model" -> name and then each field written in order into a fresh map, appended in order |
| Convert.RecordStep | convert/convert.go:54-57 | writing the next field into the map gives the record of one more field: the source's `model[key] = value` |
| Convert.OverlayKeys | convert/convert.go:54-58 | after writing pairs into a map, a key is present exactly when the base or some pair has it |
| Convert.OverlayLast | convert/convert.go:54-58 | a key maps to the value of the last pair that writes it |
| Convert.OverlayUntouched | convert/convert.go:54-58 | a key of the base that no pair writes keeps its value |
| Convert.OverlayLookup | convert/convert.go:54-58 | after writing pairs into a map, a key is present if the base or a pair has it, maps to the value of its last pair, and otherwise keeps the base's value |
| Convert.OverlaySize | convert/convert.go:54-58 | writing n pairs adds at most n keys |
| Convert.OverlayGood | convert/convert.go:54-58 | writing pairs with word keys and non-empty unquoted values keeps every entry of that kind |
| Convert.DocumentRecord | convert/convert.go:40-61 | the i-th record is built from the i-th block match |
| Convert.DocumentInOrder | convert/convert.go:34-40 | the block matches behind the records run left to right without overlapping |
| Convert.EmptyDocument | convert/convert.go:34-40 | the collection is empty exactly when no block matches anywhere in the text |
| Convert.RecordLookup | convert/convert.go:42-58 | "model" is always present; the keys are "model" and the field keys and nothing else; each key has its last field's value; "model" keeps the name unless a field named model overwrote it |
| Convert.RecordEntriesGood | convert/convert.go:45-57 | every key of every record is a non-empty word, and every value is non-empty and contains no `"` |
| Convert.RecordGood | convert/convert.go:42-58 | a record built from a word name and good fields has only good entries |
| Convert.RecordSize | convert/convert.go:54-58 | a record has at most 1 + (number of field matches) entries |
| Convert.FieldKeysMaximal | convert/convert.go:50-55 | a stored key is the maximal run of word characters directly before a colon: the colon follows it and no word character precedes it |
| Convert.FieldKeyBeforeColon | convert/convert.go:50-55 | the i-th field match begins with its key followed directly by a colon |
| Convert.FieldKeyNotAfterWord | convert/convert.go:50-55 | the i-th field match is not preceded by a word character |
| Convert.ExtractedFieldAt | convert/convert.go:51 | each field match is the leftmost-first match at its own start |
| Examples.OneBlock | convert/convert.go:31-62 | `model A { x: 1 }` gives exactly [{"model": "A", "x": "1 "}]: an unquoted value keeps its trailing blank |
| Examples.Swallow | convert/convert.go:50-51 | the body ` a: "s", b: n, c: t ` gives exactly two matches: a -> "s" and b -> "n, c: t " |
| Examples.TwoBlanks | convert/convert.go:50-51 | the body ` k:  "" ` gives exactly one match, k -> " " |
| Examples.OneBlank | convert/convert.go:50-51 | the body ` k: "" ` gives no match |
| Examples.NestedBrace | convert/convert.go:31-62 | `model C { m: {a:1} }` gives exactly [{"model": "C", "m": "{a:1"}]: the body ends at the first `}` |
| Examples.EmptyBody | convert/convert.go:31-62 | `model A {}` gives the empty collection |
| Examples.DuplicateKey | convert/convert.go:42-58 | a body declaring k twice gives the record {"model": "D", "k": "2"} |
| Examples.ModelFieldOverwritesName | convert/convert.go:42-58 | a field named model replaces the block's name: {"model": "x"} |
| Examples.TwoBlocks | convert/convert.go:31-62 | two blocks on successive lines give two records in source order: [{"model": "A", "a": "1"}, {"model": "B", "b": "2"}] |
| Examples.UserModel | convert/convert.go:31-62 | a `User` model with `email: "string", age: number, active: true` gives {"model": "User", "email": "string", "age": "number, active: true "} |

## Left out

- Reading `./schema.prisma` and printing errors and results (convert/convert.go:12-29, 66-72): file I/O. `Assemble` takes the text as a parameter and returns the records.
- `json.MarshalIndent` (convert/convert.go:65): a foreign library call. The model stops at the collection of maps; key order, HTML escaping and `null` for an empty slice are the library's, so they are not modelled.
- Invalid UTF-8: Go converts the file bytes to a string and matches runes. The model starts from a sequence of characters and does not model replacement characters.
- `regexp.MustCompile` panicking: both patterns are constants that compile, so this cannot happen.
- graphql_utils.go, main.go, controllers/User/userController.go and dbinit/dbinit.go are not part of this model. They hold GraphQL configuration, the HTTP server, database client calls, password hashing and connection handling, with no extraction logic.
- Convert.Document: in the source, an input with no block gives a nil slice rather than an empty one. The difference only shows in the JSON output (`null` against `[]`), which is left out with `json.MarshalIndent`.
