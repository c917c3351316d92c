# goconf core in Dafny

A model of the core of `goconf`, a Go package that reads and writes
configuration files in the style of Python's `configparser`. A configuration
(`ConfigFile`) is a map from section names to maps from option names to
values. Section and option names are case-insensitive: they are stored
lower-cased. Values keep their case. The reserved section, named by the
package variable `DefaultSection` (`"default"` unless a client reassigns
it), is created by `NewConfigFile`, and `RemoveSection` refuses to delete
it. The model fixes that name to `"default"`.

The model has five files:

- `wrappers.dfy` holds `Option` and `Result`.
- `text.dfy` (module `Text`) holds the string primitives the code takes from
  Go's `strings` package: `ToLower`, `TrimSpace` and `Index`.
- `conf.dfy` (module `Conf`) holds the configuration itself:
  - the reason constants, and `GetError` and `ReadError` with their
    messages;
  - the class `ConfigFile`, with its `data` field and the four operations
    that change it in place. The constructor plays the part of
    `NewConfigFile`;
  - the comment stripper `StripComments` and the separator search
    `FirstIndex`.
- `read.dfy` (module `Reader`) holds the line-oriented parser `Read`:
  - `Lines` splits the input into complete lines;
  - `ParseLine` and `ParseAll` state what each line and the whole input do
    to the map, the current section and the current option;
  - `Read` is the loop that does it through `AddSection` and `AddOption`,
    proved to produce exactly what `ParseAll` describes.
- `roundtrip.dfy` (module `RoundTrip`) writes a section out as
  `[name]` and `option=value` lines and proves that reading the text back
  restores it.

Each state-changing method is specified by a pure function of the old map.
For example, `AddOption` ends with `data == WithOption(old(data), ...)`.
The properties live in those functions' contracts and in lemmas about them.
The main ones:

- `default` survives any sequence of the four operations, and every stored
  key is lower-cased.
- `stripComments` is characterised uniquely and is idempotent.
- `firstIndex` returns the first delimiter position.
- Each class of line has a proved effect. The first error stops the parse
  and keeps what the earlier lines did.
- A final fragment without a newline is dropped.
- Written sections read back under any spelling of their names.

## Model

| member | source | states |
|---|---|---|
| Conf.ConfigFile.constructor | conf.go:171-178 | a new configuration holds exactly the empty `default` section (via `NewData`) |
| Conf.NewData | conf.go:171-178 | the only key is `default`, and it maps to an empty option map |
| Conf.ConfigFile.AddSection | conf.go:101-110 | returns true exactly when the lower-cased name was absent; the new map is `WithSection` of the old one |
| Conf.WithSection | conf.go:101-110 | the lower-cased section is present; the keys grow by that name only; every existing section, including this one if it was there, keeps its options; a new section is empty |
| Conf.ConfigFile.RemoveSection | conf.go:115-131 | returns true exactly when the lower-cased name was present and is not `default`; the loop deletes the options one by one and then the section; the new map is `WithoutSection` of the old one |
| Conf.WithoutSection | conf.go:115-131 | an absent name or `default` leaves the map unchanged; otherwise exactly that key is removed; every remaining section is untouched |
| Conf.ConfigFile.AddOption | conf.go:137-147 | returns true exactly when the section or the option was absent; the new map is `WithOption` of the old one |
| Conf.WithOption | conf.go:137-147 | the section exists and the lower-cased option maps to the value; section keys grow by at most that section; the option keys grow by that option only; other options and other sections are unchanged |
| Conf.ConfigFile.RemoveOption | conf.go:153-165 | returns true exactly when the section exists and holds the option; the new map is `WithoutOption` of the old one |
| Conf.WithoutOption | conf.go:153-165 | an absent section leaves the map unchanged; otherwise only that option disappears from that section, and nothing else changes |
| Conf.WithSectionKeepsInvariants | conf.go:101-110 | adding a section keeps `default` and keeps every key lower-cased |
| Conf.WithOptionKeepsInvariants | conf.go:137-147 | adding an option keeps `default` and keeps every key lower-cased |
| Conf.ApplyKeepsInvariants | conf.go:101-165 | any one of the four operations keeps `default` and keeps every key lower-cased |
| Conf.ApplyAllKeepsInvariants | conf.go:101-165 | the same holds for any sequence of operations |
| Conf.DefaultSurvives | conf.go:121-122 | from a new configuration, `default` is present after any sequence of operations, and every key is lower-cased |
| Conf.ConfigFile.GetRawString | read.go:91 | the lookup the continuation case calls succeeds exactly when both lower-cased names are stored in `data`, and then returns the stored value |
| Conf.RawString | read.go:91 | the lookup behind `GetRawString` succeeds exactly when both lower-cased names are present; on success it returns the stored value; on failure it reports section-not-found or option-not-found |
| Conf.GetError.String | conf.go:211-224 | the fallback message appears exactly for reasons other than the four lookup reasons; the section-not-found message names the section; the could-not-parse message names the value type |
| Conf.ReadError.String | conf.go:231-240 | the fallback message appears exactly for reasons other than blank-section and could-not-parse; the could-not-parse message ends with the offending line |
| Conf.Decimal | conf.go:220 | `%d` of a natural number is a non-empty string of decimal digits |
| Conf.DecimalDepthValues | conf.go:77 | the depth limit 200 prints as `200` in the max-depth message |
| Conf.MarkerOccurrence | conf.go:183 | a marker position is exactly a position where one of `" ;"`, `"\t;"`, `" #"`, `"\t#"` occurs |
| Conf.CommentStart | conf.go:181-189 | returns the first marker position at or after `p`, or the length when there is none |
| Conf.Uncommented | conf.go:181-189 | the result is a prefix of the line, holds no marker, and is either the whole line or stops just before a marker |
| Conf.UncommentedUnique | conf.go:181-189 | any prefix with those three properties is the result: the line cut before its earliest marker |
| Conf.UncommentedIdempotent | conf.go:181-189 | stripping comments twice gives the same result as stripping once |
| Conf.UncommentedNoMarker | conf.go:181-189 | a line with no marker is returned unchanged |
| Conf.StripComments | conf.go:181-189 | the loop over the four markers returns `Uncommented(l)`, and none of the markers occurs in the result |
| Conf.FirstIndexOf | conf.go:192-201 | the result is -1 exactly when no character is a delimiter; otherwise it is the smallest index holding one |
| Conf.FirstIndex | conf.go:192-201 | the nested loops return `FirstIndexOf(s, delim)`: -1 exactly when no character is a delimiter, otherwise the first index holding one |
| Text.ToLower | conf.go:102 | lower-casing keeps the length, leaves no upper-case letter, and keeps every other character |
| Text.IsSpace | read.go:58 | every white-space character that trimming drops is the space or a control character below it, never a letter |
| Text.ToLowerIdempotent | conf.go:102 | lower-casing twice is lower-casing once, and the result counts as lower-case |
| Text.IsLowerIff | conf.go:102 | a string is its own lower-casing exactly when it has no upper-case letter |
| Text.TrimLeft | read.go:58 | the result is a suffix, what it drops is white space, and it does not start with white space |
| Text.TrimRight | read.go:58 | the result is a prefix, what it drops is white space, and it does not end with white space |
| Text.TrimSpace | read.go:58 | the result is no longer than the input and has no white space at either end; it is empty exactly when the input is all white space |
| Text.TrimSpaceOfTrimmed | read.go:58 | text without surrounding white space trims to itself |
| Text.TrimLeftPadded | read.go:58 | leading white space is exactly what left trimming drops |
| Text.TrimRightPadded | read.go:58 | trailing white space is exactly what right trimming drops |
| Text.TrimSpacePadded | read.go:58 | trimmed text padded with white space on both sides trims back to itself |
| Text.TrimSpaceOfLine | read.go:51-58 | a line read with its newline trims back to its text |
| Text.TrimSpaceIdempotent | read.go:58 | trimming twice is trimming once |
| Text.IndexFrom | conf.go:184 | the first occurrence of `sub` at or after `p`, or -1 when there is none |
| Text.Index | conf.go:184 | -1 exactly when `sub` occurs nowhere; otherwise the position of the first occurrence |
| Reader.Lines | read.go:50-56 | the input splits into complete lines, each ending in its only newline |
| Reader.LinesCover | read.go:50-56 | the lines are a prefix of the input; what follows them holds no newline and is dropped |
| Reader.LinesOfJoin | read.go:50-56 | complete lines followed by a fragment without a newline split back into exactly those lines; the fragment is discarded |
| Reader.IsSkipped | read.go:61-71 | a skipped line is empty or starts with `#`, `;`, `r` or `R` (the last two for `rem` in any case) |
| Reader.IsHeader | read.go:73 | a header line starts with `[` and ends with `]`, so it holds at least those two characters |
| Reader.HeaderName | read.go:75 | the section name is the text between the brackets with no surrounding white space |
| Reader.NotSkipped | read.go:61-71 | a line starting with anything but `#`, `;`, `r` or `R` is not a comment |
| Reader.ParseLine | read.go:58-98 | when the line is an error, the error carries the trimmed line; the reason is blank-section when the current section is empty, and could-not-parse otherwise; no line removes a section |
| Reader.LineSkipped | read.go:61-71 | empty lines, `#` and `;` comments, and lines starting with `rem` in any case leave the map and the current section and option unchanged |
| Reader.RemOptionSkipped | read.go:70-71 | an option line such as `remote=1` is taken for a comment and changes nothing |
| Reader.LineHeader | read.go:73-76 | a `[...]` line makes the trimmed name the current section, resets the option, and adds the section to the map |
| Reader.LineBlankSection | read.go:78-79 | after an empty header, any other line fails with blank-section, carrying the trimmed line |
| Reader.LineOption | read.go:82-88 | with a separator at index i > 0, the current section gets option `trim(l[..i])` with value `trim(stripComments(l[i+1..]))`, and that option becomes current |
| Reader.LineContinuation | read.go:90-93 | with no separator past index 0 and a current option, that option's value becomes the looked-up value (or "" when missing), then a newline, then the trimmed, uncommented line |
| Reader.LineCouldNotParse | read.go:48-49 | with no separator past index 0 and no current option (as at the start, with section `default` and no option), the line fails with could-not-parse and carries the trimmed line |
| Reader.HeaderLineOf | read.go:73-76 | a header written as `[name]` reads back as that section, with no current option |
| Reader.OptionLineTrim | read.go:58 | a written option line, read with its newline, trims back to its text |
| Reader.OptionLineKind | read.go:61-73 | a written option line is neither a comment nor a header when its option is neither |
| Reader.OptionLineSeparator | read.go:82-86 | the first separator of a written option line is the one right after the option |
| Reader.OptionLineText | read.go:58-84 | a written `option=value` line trims to itself, is neither a comment nor a header, and its first separator follows the option |
| Reader.OptionLineOf | read.go:82-88 | a written `option=value` line reads back into the current section as that option and value |
| Reader.ContinuationLineOf | read.go:90-93 | a written continuation line appends a newline and its text to the current option's value |
| Reader.ParseAll | read.go:50-99 | the lines in order, stopping at the first error; no parse removes a section, and a parse error is always blank-section or could-not-parse |
| Reader.ParseAllAppend | read.go:50-99 | parsing `a + b` parses `a`; if that fails, the parse stops with what `a` did, and otherwise it goes on with `b` from where `a` left off |
| Reader.ParseLineKeepsInvariants | read.go:58-98 | a successful line keeps `default` and keeps every key lower-cased |
| Reader.OptionLineKeepsInvariants | read.go:82-88 | an option line keeps `default` and keeps every key lower-cased |
| Reader.ParseAllKeepsInvariants | read.go:50-99 | a whole parse keeps `default` and keeps every key lower-cased, whether or not it fails |
| Reader.ParseLineConsistent | read.go:74-93 | the current option, when there is one, stays stored under the current section |
| Reader.ParseAllConsistent | read.go:50-99 | the same holds across a whole parse |
| Reader.ParseAllSkipped | read.go:61-71 | input made only of blank and comment lines changes nothing |
| Reader.ReadFromNewKeepsDefault | read.go:20-21 | reading any input into a new configuration leaves `default` in place and every key lower-cased |
| Reader.Read | read.go:45-101 | the map after the loop and the returned error are those of `ParseAll` over the complete lines, from section `default` with no option; `default` is kept |
| Reader.ReadLine | read.go:58-98 | one pass of the loop body: mutates `c` exactly as `ParseLine` says, returns its error (leaving `c` unchanged), and keeps the current option consistent with the map |
| RoundTrip.OptionLines | read.go:82-88 | one `option=value` line per entry, in order, in the form the option case parses (written by the model's own minimal writer) |
| RoundTrip.WithEntries | conf.go:137-147 | adding entries never removes a section |
| RoundTrip.ReadEntries | read.go:82-88 | option lines written into a named section add their entries in order; the last option becomes current |
| RoundTrip.ReadSection | read.go:73-88 | a written section, header and entries, reads back without error as that section with its entries |
| RoundTrip.WithEntriesKeeps | conf.go:137-147 | entries naming other options leave an option's stored value alone |
| RoundTrip.WithEntriesLookup | conf.go:137-147 | with distinct option names, each entry's value is stored under its lower-cased option |
| RoundTrip.SectionTextLines | read.go:50-56 | the text of a written section splits back into its lines |
| RoundTrip.ReadBack | read.go:45-101 | reading the text of a written section into any configuration succeeds, and each entry is then found under any spelling of the section and option names that lower-cases the same |
| RoundTrip.ReadMultiLine | read.go:84-93 | `option=first` followed by a line `more` reads back as the value `first`, a newline, then `more` |

## Left out

- Opening, reading and closing files (`ReadConfigFile`, read.go:13-30) and the `bytes.Buffer` of `ReadConfigBytes` (read.go:32-41) are I/O. `Read` takes the whole input as a string, and `Lines` splits it as `bufio.Reader.ReadString('\n')` would.
- Read errors of the underlying reader other than end of input (read.go:54-55) are not modelled, because the input is a string.
- `strings.ToLower` and `strings.TrimSpace` are modelled on ASCII only. Go strings are byte sequences; here each byte is one character, and Unicode case mapping and Unicode white space are not captured.
- `varRegExp`, `BoolStrings` and the variable-unfolding getters that use them and `DepthValues` (conf.go:77-95) are left out. The typed getters and the source's writer are not part of this model; `DepthValues` appears only in the `MaxDepthReached` message.
- `GetRawString` lives in a file that is not part of this model. It is modelled as a direct lookup of the lower-cased names (`RawString`). The parser ignores its error and continues from an empty previous value, as read.go:91 does.
- Conf.GetError.String and Conf.ReadError.String: `fmt.Sprintf` is written out as concatenation, and `%d` of `DepthValues` as `Decimal`. The contracts pin down the fallback cases and the leading text of some messages, not every message character by character.
- Go's inner option maps are references. Here they are values. No operation in the modelled files hands an inner map to a caller, so no aliasing is lost.
- A zero-value `ConfigFile` whose map is nil, on which Go's map writes would panic, is not modelled. The only constructor is `NewConfigFile`.
- `Read` is a method of `ConfigFile` in Go. Here it is `Reader.Read(c, input)`, which modifies `c`, and one pass of its loop body is the method `ReadLine`. The second, identical call of `firstIndex` at read.go:85 computes the same index as read.go:82 and is not repeated.
- Conf.DefaultSection: Go declares the default section's name as an exported package variable (conf.go:76). The model makes it a constant fixed to `"default"`. It does not capture a client that reassigns it, after which `RemoveSection("default")` succeeds (conf.go:121) and `NewConfigFile` creates the new name (conf.go:175). `Read` starts in the literal `"default"` (read.go:49), not in the variable, and the model does the same through `Start`. So `DefaultSurvives` holds for that fixed name only.
- RoundTrip.OptionLines: the round trip in `roundtrip.dfy` uses a minimal writer of its own (`HeaderLine`, `OptionLine`, `SectionLines`), which emits one `[name]` line and then one `option=value` line per entry. It is not the package's writer. That writer's header comment, its iteration order over sections and options, and its output of multi-line values are not modelled or checked.
