# IDL parser combinators: a verified model

This project models the front end of an interface-definition-language (IDL)
tool written in Kotlin. The front end has five parts:

- **A small parser-combinator library.** It provides an immutable cursor `State`, a `Result` that is either
  `Success(value, state)` or `Failure(error)` with three relabelable error
  kinds, the combinators `label`, `map`, `and`/`andl`/`andr`/`followedBy`,
  `or`, `choice`, `sequence`, `optional`, `zeroOrMore` and `oneOrMore`, and
  the primitive parsers `satisfy`, `pChar`, `pAnyOf`, `pString`, `pBoolean`,
  `pInt` and `pDelimited`.
- **A JSON-style quoted-string lexer.** It handles plain characters, the eight short escapes of section 7
  of RFC 8259, and `\uXXXX`. The lexer is modelled as written: its escape table
  decodes `\f` to the letter `f` (see "## Findings"). `JChar` and `QuotedString`
  use that table. `IntendedJChar` and `IntendedQuotedString` are the same rules
  over the table that decodes `\f` to form feed.
- **The IDL grammar.** It covers comments and delimiters, identifiers, field types with `List<..>`
  and `Map<..,..>` nested at most two deep, fields, `data`, `choice` with
  its options, `enum`, `topic`, `package`, `import`, constructs and whole files.
  It also includes `findDuplicates`.
- **The abstract syntax tree** the grammar produces.
- **The validator.** It rejects a file that declares the same type identifier twice, and gathers the results of many files.

Every parser is a value `Parser<T>(name, run)`. `name` is the parser's
label, which may be null, and `run` is a total function from a cursor to a result.
Combinators build new parser values; nothing runs until `run` is applied.

Two cursor disciplines are stated once, as predicates, and every combinator carries a
`...Frames` lemma saying how it keeps them:

- `Keeps(p)`: a success never moves back and never changes the input.
- `Advances(p)`: a success consumes at least one character.

`zeroOrMore` terminates on the measure `|input| - pos` because its inner parser
advances. `pFieldType(level)` terminates on `2 - level`.

Kotlin's `and` builds an untyped `List<Any>` through `Parser.concat`. The model
makes it typed: `Piece<T>` says how each side's value takes part in the list:

- `Absent`: an empty optional, which is dropped;
- `Single`: an optional that is present, or a scalar, which becomes one item;
- `Items`: a list, which is spliced in.

Each call site picks the view its value has in Kotlin.

Modules, one per file:

| module | file | what |
|---|---|---|
| `Core` | core.dfy | cursor, results, combinators, primitive parsers |
| `CoreLaws` | core_laws.dfy | behaviour of the combinators and primitives |
| `IdlTypes` | idl_types.dfy | the abstract syntax tree, the records of `Types.kt` |
| `IdlString` | idl_string.dfy | the quoted-string lexer and its laws |
| `IdlParser` | idl_parser.dfy | the IDL grammar and `findDuplicates` |
| `IdlParserLaws` | idl_parser_laws.dfy | identifiers, whitespace, delimiters, comments |
| `FieldTypeLaws` | field_type_laws.dfy | keywords, map keys, nesting depth of field types |
| `ConstructLaws` | construct_laws.dfy | what the construct rules start with and which alternative wins |
| `Validator` | validator.dfy | `validate` and `validateAll` |
| `GrammarLaws` | grammar_laws.dfy | what each grammar rule reads: the value it builds from the values its parts read, and where it stops |
| `SampleInputs` | sample_inputs.dfy | three inputs read end to end: `import bla.fazl`, `List<List<Boolean>>` and the quoted string `"a\nb"` |

Where the code and its unit tests disagree, the model follows the code:

- **Comments.** `delimiters()` tries `spaces()` first, and `spaces()` never fails, so comments are never skipped (`IdlParserLaws.DelimitersKeepComments`).
- **Triple-nested lists.** A third level of `List<..>` is never produced (`FieldTypeLaws.FieldTypeDepth`).
- **A construct after a comment.** `pConstruct()` does not skip a comment in front of a definition: at `//` it fails (`ConstructLaws.CommentedConstructFails`).

The datatypes of `IdlTypes` mirror the records of
`src/main/kotlin/parser/idl/Types.kt:38-105` one for one: identifiers, field
types, fields, data, options, choices, enumerations and their items, topics,
packages, imports, constructs and files. They carry no contracts of their own.

Several helpers compute a value and carry no `ensures` of their own; the lemmas
in the table below state what they compute:

- `IdlString.QuotedOf` (the quoted-string rule over any body character), `IdlString.QuotedString` (`quotedString` as written) and `IdlString.IntendedQuotedString` (the same over the corrected table): `QuotedStringReads` and `QuotedStringRoundTrip` (a body of plain characters), `GrammarLaws.QuotedIterates`, `GrammarLaws.QuotedStringIterates` and `GrammarLaws.IntendedQuotedStringIterates` (any body, escapes and plain characters mixed, read character by character), `QuotedOne`, `QuotedFormFeed`, `SampleInputs.EscapedSample` and `IdlParser.QuotedStringAdvances`.
- `IdlString.UnicodeDigits` (the `\uXXXX` digits over any hex-digit parser): `UnicodeDigitsFrames` and `UnicodeFourReads`.
- `IdlString.HexChar` (the character of four hex digits): `HexCharOf` and `JUnicodeCharReads`.
- `Core.OrAll` (the left fold of `or` behind `choice`): `OrAllFrames` and `OrAllFirstMatch`.
- `Core.AndAll` and `Core.AndPrefix` (the fold of `and` behind `sequence`): `AndPrefixFrames`, `AndPrefixStep`, `AndPrefixPropagates` and `AndPrefixMatches`.
- `Core.DecimalValue` and `Core.IntValue` (the value of the digits `toInt()` reads): `PIntDigits` and `PIntReads`.
- `Core.Join` (`joinToString("")` on characters): `PStringUnfolds`, `PStringMatches` and `QuotedStringReads`.
- `IdlParser.DottedPath` (the dotted name joined with `.`): `DottedPathAppend` and `DottedNameReads`.
- `Validator.Gather` and `Validator.Fold` (the step and the fold of `validateAll`): `FoldSplits`.

## Model

| member | source | states |
|---|---|---|
| Core.State.Next | src/main/kotlin/parser/core/Parser.kt:22-27 | the input is unchanged and pos grows by one; a newline starts the next line at column 0, any other character keeps the line and adds one column |
| Core.ParserError.Relabel | src/main/kotlin/parser/core/Parser.kt:39-77 | the new error carries the given label and keeps its kind, its position and, for an unexpected token, the character found |
| Core.Flatten | src/main/kotlin/parser/core/Parser.kt:103-108 | an absent optional contributes nothing, a present one or a scalar one item, a list all its items |
| Core.Concat | src/main/kotlin/parser/core/Parser.kt:103-108 | the list `and` builds is the left part's items followed by the right part's items |
| Core.Label | src/main/kotlin/parser/core/Parser.kt:115-121 | the labelled parser carries the new label |
| Core.LabelFrames | src/main/kotlin/parser/core/Parser.kt:115-121 | labelling keeps both cursor disciplines |
| Core.Map | src/main/kotlin/parser/core/Parser.kt:123-129 | the mapped parser has a null label |
| Core.MapFrames | src/main/kotlin/parser/core/Parser.kt:123-129 | mapping keeps both cursor disciplines |
| Core.MapTo | src/main/kotlin/parser/core/Parser.kt:131-137 | `map` with a constant has a null label |
| Core.MapToFrames | src/main/kotlin/parser/core/Parser.kt:131-137 | `map` with a constant keeps both cursor disciplines |
| Core.AndThen | src/main/kotlin/parser/core/Parser.kt:139-149 | the pairing parser has a null label |
| Core.AndThenFrames | src/main/kotlin/parser/core/Parser.kt:139-149 | a sequence never moves back when neither part does, and consumes when either part consumes |
| Core.FollowedBy | src/main/kotlin/parser/core/Parser.kt:151-152 | labelled "<l> followedBy <r>", a null label written "null" |
| Core.FollowedByFrames | src/main/kotlin/parser/core/Parser.kt:151-152 | keeps the cursor disciplines like a sequence |
| Core.And | src/main/kotlin/parser/core/Parser.kt:154-155 | labelled "<l> and <r>" |
| Core.AndFrames | src/main/kotlin/parser/core/Parser.kt:154-155 | keeps the cursor disciplines like a sequence |
| Core.AndR | src/main/kotlin/parser/core/Parser.kt:157-158 | labelled "<l> andr <r>" |
| Core.AndRFrames | src/main/kotlin/parser/core/Parser.kt:157-158 | keeps the cursor disciplines like a sequence |
| Core.AndL | src/main/kotlin/parser/core/Parser.kt:160-161 | labelled "<l> andl <r>" |
| Core.AndLFrames | src/main/kotlin/parser/core/Parser.kt:160-161 | keeps the cursor disciplines like a sequence |
| Core.Or | src/main/kotlin/parser/core/Parser.kt:163-169 | labelled "<l> or <r>" |
| Core.OrFrames | src/main/kotlin/parser/core/Parser.kt:163-169 | ordered choice keeps a discipline both alternatives keep |
| Core.Ignore | src/main/kotlin/parser/core/Parser.kt:171 | the value-discarding parser has a null label |
| Core.IgnoreFrames | src/main/kotlin/parser/core/Parser.kt:171 | discarding the value keeps both cursor disciplines |
| Core.Fail | src/main/kotlin/parser/core/Parser.kt:175 | fails on every cursor with a syntax error at its line and column, under the given label |
| Core.Satisfy | src/main/kotlin/parser/core/Parser.kt:177-184 | carries its label and consumes on every success |
| Core.OrAllFrames | src/main/kotlin/parser/core/Parser.kt:186 | the left fold of `or` keeps a discipline every alternative keeps |
| Core.Choice | src/main/kotlin/parser/core/Parser.kt:186 | labelled "choice" |
| Core.ChoiceFrames | src/main/kotlin/parser/core/Parser.kt:186 | keeps a discipline every alternative keeps |
| Core.Empty | src/main/kotlin/parser/core/Parser.kt:191 | succeeds on every cursor with no items and without moving |
| Core.AndPrefixFrames | src/main/kotlin/parser/core/Parser.kt:190-194 | the fold of `and` never moves back, and consumes when it folds at least one consuming parser |
| Core.Sequence | src/main/kotlin/parser/core/Parser.kt:190-194 | labelled "sequence" |
| Core.Optional | src/main/kotlin/parser/core/Parser.kt:198-203 | never fails; labelled "zero-or-more" as in the source |
| Core.OptionalFrames | src/main/kotlin/parser/core/Parser.kt:198-203 | never moves back when the inner parser does not |
| Core.ZeroOrMoreFrom | src/main/kotlin/parser/core/Parser.kt:205-217 | the repetition always succeeds, on the same input, never behind the start |
| Core.ZeroOrMore | src/main/kotlin/parser/core/Parser.kt:205-217 | never fails and never moves back; null label |
| Core.OneOrMore | src/main/kotlin/parser/core/Parser.kt:219-220 | labelled "one-or-more"; consumes on every success |
| Core.PChar | src/main/kotlin/parser/core/Parser.kt:224-225 | labelled with the character as a string; consumes on success |
| Core.CharParsers | src/main/kotlin/parser/core/Parser.kt:252 | one `pChar` per character of the string, in order |
| Core.PAnyOf | src/main/kotlin/parser/core/Parser.kt:230 | labelled "choice-of [a, b, ...]"; consumes on success |
| Core.PDigit | src/main/kotlin/parser/core/Parser.kt:236 | labelled "digit"; consumes on success |
| Core.PWhitespaceChar | src/main/kotlin/parser/core/Parser.kt:238 | labelled "whitespace-char"; consumes on success |
| Core.PWhitespace | src/main/kotlin/parser/core/Parser.kt:240 | labelled "whitespace"; consumes on success |
| Core.PDigits | src/main/kotlin/parser/core/Parser.kt:242 | labelled "digits"; consumes on success |
| Core.PAllUntilNewline | src/main/kotlin/parser/core/Parser.kt:244-246 | never fails and never moves back |
| Core.CharsInTurn | src/main/kotlin/parser/core/Parser.kt:251-252 | matching the characters of a string in turn never moves back, and consumes when the string is not empty |
| Core.PString | src/main/kotlin/parser/core/Parser.kt:251-252 | labelled with the string itself; never moves back; consumes when the string is not empty |
| Core.PBoolean | src/main/kotlin/parser/core/Parser.kt:254-259 | labelled "boolean"; consumes on success |
| Core.PSign | src/main/kotlin/parser/core/Parser.kt:261 | consumes on success |
| Core.PInt | src/main/kotlin/parser/core/Parser.kt:263-264 | labelled "int"; consumes on success |
| Core.PDelimited2 | src/main/kotlin/parser/core/Parser.kt:276-278 | the delimited pair has a null label |
| Core.PDelimited3 | src/main/kotlin/parser/core/Parser.kt:280-282 | the delimited triple has a null label |
| Core.PDelimited4 | src/main/kotlin/parser/core/Parser.kt:284-286 | null label |
| Core.PDelimited5 | src/main/kotlin/parser/core/Parser.kt:288-290 | null label |
| Core.PDelimited6 | src/main/kotlin/parser/core/Parser.kt:292-294 | null label |
| Core.PDelimited2Frames | src/main/kotlin/parser/core/Parser.kt:276-278 | never moves back when the parts and the delimiter do not; consumes when the first part does |
| Core.PDelimited3Frames | src/main/kotlin/parser/core/Parser.kt:280-282 | likewise for three parts |
| Core.PDelimited4Frames | src/main/kotlin/parser/core/Parser.kt:284-286 | likewise for four parts |
| Core.PDelimited5Frames | src/main/kotlin/parser/core/Parser.kt:288-290 | likewise for five parts |
| Core.PDelimited6Frames | src/main/kotlin/parser/core/Parser.kt:292-294 | likewise for six parts |
| CoreLaws.LastNewline | src/main/kotlin/parser/core/Parser.kt:22-27 | the index of the last newline in a stretch of text, or none when the stretch has none |
| CoreLaws.SkipTracksLines | src/main/kotlin/parser/core/Parser.kt:22-27 | after n steps the line number has grown by the number of newlines passed over |
| CoreLaws.SkipTracksColumns | src/main/kotlin/parser/core/Parser.kt:22-27 | after n steps the column counts the characters since the last newline passed, or has grown by n when there was none |
| CoreLaws.SkipNext | src/main/kotlin/parser/core/Parser.kt:22-27 | one step then n steps is n + 1 steps |
| CoreLaws.SatisfyCases | src/main/kotlin/parser/core/Parser.kt:177-184 | at the end of input: NoMoreInput(label); on an accepted character: that character and the next cursor; otherwise UnexpectedToken(label, char, line, col) |
| CoreLaws.PCharCases | src/main/kotlin/parser/core/Parser.kt:224-225 | the same three cases for one given character |
| CoreLaws.LabelRelabels | src/main/kotlin/parser/core/Parser.kt:115-121 | a success is returned untouched; a failure gets the new label |
| CoreLaws.LabelOverrides | src/main/kotlin/parser/core/Parser.kt:115-121 | of two labels only the outer one is seen |
| CoreLaws.MapTransforms | src/main/kotlin/parser/core/Parser.kt:123-129 | a success's value is transformed and its cursor kept; a failure is relabelled with the inner parser's own, possibly null, label |
| CoreLaws.MapTwiceDropsLabel | src/main/kotlin/parser/core/Parser.kt:123-129 | a failure mapped twice is reported under a null label |
| CoreLaws.MapToCases | src/main/kotlin/parser/core/Parser.kt:131-137 | a success's value is replaced by the constant; a failure is relabelled with the inner parser's label |
| CoreLaws.OrLeftBiased | src/main/kotlin/parser/core/Parser.kt:163-169 | when the left parser succeeds its result is returned unchanged |
| CoreLaws.OrFallsBack | src/main/kotlin/parser/core/Parser.kt:163-169 | otherwise the right parser runs on the original cursor; its failure is relabelled "<l> or <r>" |
| CoreLaws.RelabelTwice | src/main/kotlin/parser/core/Parser.kt:39-77 | relabelling changes only the label, and the last label wins |
| CoreLaws.FirstSuccess | src/main/kotlin/parser/core/Parser.kt:186 | the index of the first parser that succeeds at the cursor: all before it fail |
| CoreLaws.OrAllFirstMatch | src/main/kotlin/parser/core/Parser.kt:186 | the left fold of `or` returns the first alternative's success, or fails like the last alternative |
| CoreLaws.ChoiceFirstMatch | src/main/kotlin/parser/core/Parser.kt:186 | `choice` returns the first success, or fails under the label "choice" |
| CoreLaws.AnyOfAccepts | src/main/kotlin/parser/core/Parser.kt:230 | `pAnyOf(cs)` behaves as `satisfy` of membership in `cs` under the label "choice-of [..]" |
| CoreLaws.SatisfyRecognizes | src/main/kotlin/parser/core/Parser.kt:177-184 | `satisfy` reads exactly one accepted character, and fails on any other |
| CoreLaws.AnyOfRecognizes | src/main/kotlin/parser/core/Parser.kt:230 | `pAnyOf` reads exactly one member of the list |
| CoreLaws.LabelRecognizes | src/main/kotlin/parser/core/Parser.kt:115-121 | labelling does not change which characters are read |
| CoreLaws.ZeroOrMoreStops | src/main/kotlin/parser/core/Parser.kt:205-217 | when the inner parser fails at once, the result is the empty list at the unchanged cursor |
| CoreLaws.ZeroOrMoreStep | src/main/kotlin/parser/core/Parser.kt:205-217 | after a success of the inner parser the result is its items followed by the rest of the repetition |
| CoreLaws.ZeroOrMoreCollects | src/main/kotlin/parser/core/Parser.kt:205-217 | a run of k characters read one by one, then a failure: the result is exactly those k characters |
| CoreLaws.ZeroOrMoreSpan | src/main/kotlin/parser/core/Parser.kt:205-217 | over a character class the repetition takes the longest run of matching characters |
| CoreLaws.OneOrMoreNeedsOne | src/main/kotlin/parser/core/Parser.kt:219-220 | fails exactly when the first attempt fails, then under "one-or-more"; otherwise the first value followed by the repetition |
| CoreLaws.OneOrMoreSpan | src/main/kotlin/parser/core/Parser.kt:219-220 | over a character class: the longest non-empty run, or a failure labelled "one-or-more" when there is none |
| CoreLaws.OneOrMoreAgrees | src/main/kotlin/parser/core/Parser.kt:219-220 | once the first attempt succeeds, one-or-more and zero-or-more agree |
| CoreLaws.OptionalCases | src/main/kotlin/parser/core/Parser.kt:198-203 | a success is wrapped in Just; a failure gives None at the unchanged cursor |
| CoreLaws.AndConcatenates | src/main/kotlin/parser/core/Parser.kt:154-155 | the value is the flattened items of both sides; a failure of either side is relabelled "<l> and <r>" |
| CoreLaws.AndRCases | src/main/kotlin/parser/core/Parser.kt:157-158 | the right value survives; a failure of either side is relabelled "<l> andr <r>" |
| CoreLaws.AndLCases | src/main/kotlin/parser/core/Parser.kt:160-161 | the left value survives; a failure of either side is relabelled "<l> andl <r>" |
| CoreLaws.FollowedByCases | src/main/kotlin/parser/core/Parser.kt:151-152 | both values are paired; a failure of either side is relabelled "<l> followedBy <r>" |
| CoreLaws.AndRThen | src/main/kotlin/parser/core/Parser.kt:157-158 | two successes in turn give the right value at the right part's cursor |
| CoreLaws.AndLThen | src/main/kotlin/parser/core/Parser.kt:160-161 | two successes in turn give the left value at the right part's cursor |
| CoreLaws.FollowedByThen | src/main/kotlin/parser/core/Parser.kt:151-152 | two successes in turn give the pair |
| CoreLaws.SequenceFailsRight | src/main/kotlin/parser/core/Parser.kt:139-149 | a sequence fails when its right part fails after its left part |
| CoreLaws.SequenceFailsLeft | src/main/kotlin/parser/core/Parser.kt:139-149 | a sequence fails when its left part fails |
| CoreLaws.AndFailsLeft | src/main/kotlin/parser/core/Parser.kt:154-155 | `and` fails when its left part fails |
| CoreLaws.AndPrefixStep | src/main/kotlin/parser/core/Parser.kt:190-194 | one step of the fold behind `sequence` is one `and` |
| CoreLaws.AndPrefixPropagates | src/main/kotlin/parser/core/Parser.kt:190-194 | a failure of the fold so far is the failure of the longer fold, up to its label |
| CoreLaws.AndPrefixMatches | src/main/kotlin/parser/core/Parser.kt:190-194 | folding the characters of a string reads its first k characters when the input matches them, and otherwise fails at the first mismatch |
| CoreLaws.PStringUnfolds | src/main/kotlin/parser/core/Parser.kt:251-252 | `pString` is the fold over its characters, joined and labelled with the string |
| CoreLaws.PStringMatches | src/main/kotlin/parser/core/Parser.kt:251-252 | where the input starts with the string: the string and the cursor after it; otherwise the error at the first mismatch, labelled with the string |
| CoreLaws.PStringSucceeds | src/main/kotlin/parser/core/Parser.kt:251-252 | `pString(s)` succeeds if and only if the remaining input starts with `s`, and then advances `|s|` characters |
| CoreLaws.DigitRecognizes | src/main/kotlin/parser/core/Parser.kt:236 | `pDigit` reads exactly one decimal digit |
| CoreLaws.OptionalSign | src/main/kotlin/parser/core/Parser.kt:261-264 | the optional sign reads a leading `+` or `-` if there is one |
| CoreLaws.DigitsSpan | src/main/kotlin/parser/core/Parser.kt:242 | `pDigits` takes the longest run of digits and fails when there is none |
| CoreLaws.PIntDigits | src/main/kotlin/parser/core/Parser.kt:263-264 | a sign and digits read in turn give the base-10 value of that text |
| CoreLaws.PIntNoDigits | src/main/kotlin/parser/core/Parser.kt:263-264 | without digits after the optional sign, `pInt` fails under "int" |
| CoreLaws.PIntReads | src/main/kotlin/parser/core/Parser.kt:263-264 | `pInt` is the base-10 value of an optional sign and the longest run of digits after it, or fails under "int" when there is no digit |
| CoreLaws.PBooleanReads | src/main/kotlin/parser/core/Parser.kt:254-259 | "true" gives true, else "false" gives false, else a failure under "boolean" |
| IdlTypes.Depth | src/main/kotlin/parser/idl/Types.kt:45-57 | nesting depth is zero exactly for the primitives and custom types |
| IdlTypes.DeclaredType | src/main/kotlin/validator/validator.kt:21-28 | data, choice and enumeration constructs declare their own type identifier; a topic declares none |
| IdlString.JUnescapedChar | src/main/kotlin/parser/idl/String.kt:3-4 | labelled "char"; consumes on success |
| IdlString.EscapeParsers | src/main/kotlin/parser/idl/String.kt:16-17 | one parser per table entry: the escape's text, answering its character |
| IdlString.EscapeParsersAdvance | src/main/kotlin/parser/idl/String.kt:16-17 | every escape parser consumes on success |
| IdlString.EscapedChar | src/main/kotlin/parser/idl/String.kt:6-18 | labelled "escaped-char"; consumes on success |
| IdlString.JEscapedCharAsWritten | src/main/kotlin/parser/idl/String.kt:6-18 | the table as written, labelled "escaped-char" |
| IdlString.JEscapedChar | src/main/kotlin/parser/idl/String.kt:6-18 | the table with `\f` decoding to form feed, labelled "escaped-char" |
| IdlString.EscapeEntryCases | src/main/kotlin/parser/idl/String.kt:16-17 | one escape parser succeeds exactly on a backslash followed by its letter |
| IdlString.EscapeFirstSuccess | src/main/kotlin/parser/idl/String.kt:6-18 | the first escape to succeed is the first entry whose letter follows the backslash |
| IdlString.EscapedCharReads | src/main/kotlin/parser/idl/String.kt:6-18 | an escape lexer answers the character of the first matching entry and advances two, or fails under "escaped-char" |
| IdlString.EscapeOfInjective | src/main/kotlin/parser/idl/String.kt:7-15 | different characters have different short escapes |
| IdlString.TablesAgree | src/main/kotlin/parser/idl/String.kt:7-15 | both tables list the eight escape letters in the same order and differ only at `\f` |
| IdlString.LetterIndex | src/main/kotlin/parser/idl/String.kt:7-15 | a letter is found in the table exactly when it is one of the eight escape letters |
| IdlString.EscapesCover | src/main/kotlin/parser/idl/String.kt:7-15 | each short escape finds the character it stands for |
| IdlString.JEscapedCharRoundTrip | src/main/kotlin/parser/idl/String.kt:6-18 | round trip: a character written as its short escape is read back as itself, advancing two characters |
| IdlString.EscapedCharDecodes | src/main/kotlin/parser/idl/String.kt:6-18 | an escape found in the table is decoded to its character |
| IdlString.JEscapedCharRejects | src/main/kotlin/parser/idl/String.kt:6-18 | a backslash and a letter outside the eight fails under "escaped-char" |
| IdlString.WrittenFormFeedIsLetter | src/main/kotlin/parser/idl/String.kt:12 | as written, `\f` is read as the letter `f`, although form feed is written `\f` |
| IdlString.FormFeedEscape | src/main/kotlin/parser/idl/String.kt:12 | form feed's short escape is `\f` |
| IdlString.WrittenEscapeF | src/main/kotlin/parser/idl/String.kt:12 | the table as written maps `\f` to the letter `f` |
| IdlString.HexDigitValue | src/main/kotlin/parser/idl/String.kt:26 | a hex digit is worth less than 16 |
| IdlString.HexValue | src/main/kotlin/parser/idl/String.kt:26 | k hex digits are worth less than 16^k |
| IdlString.CodeUnit | src/main/kotlin/parser/idl/String.kt:26 | a code unit that is not a surrogate is the character with that value |
| IdlString.HexDigit | src/main/kotlin/parser/idl/String.kt:23 | consumes on success |
| IdlString.HexDigitReadsHex | src/main/kotlin/parser/idl/String.kt:23 | reads exactly one of 0-9, A-F, a-f |
| IdlString.UnicodeDigitsFrames | src/main/kotlin/parser/idl/String.kt:25 | the four-digit escape consumes on success |
| IdlString.JUnicodeChar | src/main/kotlin/parser/idl/String.kt:20-28 | null label; consumes on success |
| IdlString.UnicodeIntroReads | src/main/kotlin/parser/idl/String.kt:21-25 | a backslash, `u` and a hex digit give that digit |
| IdlString.UnicodeFourReads | src/main/kotlin/parser/idl/String.kt:25 | `\u` and four hex digits give the four digits in order |
| IdlString.JUnicodeCharReads | src/main/kotlin/parser/idl/String.kt:20-28 | `\uXXXX` gives the code unit with hex value XXXX and advances six |
| IdlString.Hex4 | src/main/kotlin/parser/idl/String.kt:23 | four hex digits |
| IdlString.Hex4RoundTrip | src/main/kotlin/parser/idl/String.kt:26 | reading back the four hex digits of a 16-bit value gives the value |
| IdlString.JUnicodeCharRoundTrip | src/main/kotlin/parser/idl/String.kt:20-28 | round trip: `\u` and the hex digits of a non-surrogate code unit are read back as that character |
| IdlString.HexCharOf | src/main/kotlin/parser/idl/String.kt:26 | the hex digits of a non-surrogate code unit spell that character |
| IdlString.UnicodeNeedsIntro | src/main/kotlin/parser/idl/String.kt:25 | without a backslash and `u` there is no unicode escape |
| IdlString.JUnicodeCharNeedsIntro | src/main/kotlin/parser/idl/String.kt:20-28 | likewise for the mapped escape |
| IdlString.CharOf | src/main/kotlin/parser/idl/String.kt:32 | a body character over any consuming escape parser consumes on success |
| IdlString.JChar | src/main/kotlin/parser/idl/String.kt:32 | the body character as written, over the table that reads `\f` as `f`; consumes on success |
| IdlString.IntendedJChar | src/main/kotlin/parser/idl/String.kt:32 | the body character over the corrected table; consumes on success |
| IdlString.Quote | src/main/kotlin/parser/idl/String.kt:31 | labelled "quote" |
| IdlString.JCharPlain | src/main/kotlin/parser/idl/String.kt:32 | a plain character stands for itself |
| IdlString.JCharFails | src/main/kotlin/parser/idl/String.kt:32 | nothing is read at the end of input, at a double quote, or at an unknown escape |
| IdlString.QuoteReads | src/main/kotlin/parser/idl/String.kt:31 | a double quote is read |
| IdlString.QuoteFails | src/main/kotlin/parser/idl/String.kt:31 | anything else is not a quote |
| IdlString.QuotedBody | src/main/kotlin/parser/idl/String.kt:34 | after the opening quote the body reads the run of plain characters |
| IdlString.QuotedCloses | src/main/kotlin/parser/idl/String.kt:34 | a run of plain characters closed by a quote is the string's value |
| IdlString.QuotedOpen | src/main/kotlin/parser/idl/String.kt:34 | a run not closed by a quote fails |
| IdlString.QuotedStringReads | src/main/kotlin/parser/idl/String.kt:30-35 | a quote, the longest plain run and a closing quote give that run; otherwise a failure |
| IdlString.QuotedStringRoundTrip | src/main/kotlin/parser/idl/String.kt:30-35 | round trip: a text without backslash or double quote, between double quotes, is read back as itself, consuming its length plus two |
| IdlString.QuotedPlainCloses | src/main/kotlin/parser/idl/String.kt:30-35 | a plain run between quotes is read as itself |
| IdlString.QuotedStringUnterminated | src/main/kotlin/parser/idl/String.kt:30-35 | a string not closed before the end of input fails |
| IdlString.QuotedStringBadEscape | src/main/kotlin/parser/idl/String.kt:30-35 | an unknown escape such as `\x` makes the whole string fail |
| IdlString.QuotedOne | src/main/kotlin/parser/idl/String.kt:30-35 | one body character between double quotes is read as the one-character string, consuming four characters |
| IdlString.CharOfEscaped | src/main/kotlin/parser/idl/String.kt:32 | where a backslash and a letter of the escape table are next, the body-character rule reads that entry's character and consumes the two characters |
| IdlString.JCharFormFeed | src/main/kotlin/parser/idl/String.kt:12 | at `\f` the body character as written is the letter `f`; with the corrected table it is form feed |
| IdlString.QuotedFormFeed | src/main/kotlin/parser/idl/String.kt:12 | the string `"\f"` reads as `f` as written and as form feed with the corrected table, whose short escape is `\f` |
| IdlParser.PComment | src/main/kotlin/parser/idl/Parser.kt:6 | consumes on success |
| IdlParser.Spaces | src/main/kotlin/parser/idl/Parser.kt:8 | never moves back |
| IdlParser.Delimiters | src/main/kotlin/parser/idl/Parser.kt:9 | never moves back |
| IdlParser.OptionalDelimiters | src/main/kotlin/parser/idl/Parser.kt:149 | never moves back |
| IdlParser.Word | src/main/kotlin/parser/idl/Parser.kt:17 | a first character and more, under the given label; consumes on success |
| IdlParser.PIdentifier | src/main/kotlin/parser/idl/Parser.kt:13-18 | consumes on success |
| IdlParser.PTypeIdentifier | src/main/kotlin/parser/idl/Parser.kt:20-26 | consumes on success |
| IdlParser.PTag | src/main/kotlin/parser/idl/Parser.kt:28-30 | consumes on success |
| IdlParser.Keyword | src/main/kotlin/parser/idl/Parser.kt:33-40 | consumes on success |
| IdlParser.KeywordTable | src/main/kotlin/parser/idl/Parser.kt:33-40 | eight non-empty keywords, each naming a primitive type |
| IdlParser.Keywords | src/main/kotlin/parser/idl/Parser.kt:33-40 | one keyword parser per primitive, in the order tried |
| IdlParser.PMapKeyType | src/main/kotlin/parser/idl/Parser.kt:32-41 | consumes on success |
| IdlParser.PKeyValuePair | src/main/kotlin/parser/idl/Parser.kt:43-45 | consumes on success |
| IdlParser.PMap | src/main/kotlin/parser/idl/Parser.kt:47-53 | consumes on success |
| IdlParser.PList | src/main/kotlin/parser/idl/Parser.kt:56-62 | consumes on success |
| IdlParser.PCustomType | src/main/kotlin/parser/idl/Parser.kt:76 | consumes on success |
| IdlParser.PFieldType | src/main/kotlin/parser/idl/Parser.kt:65-77 | consumes on success; defined on the nesting level, terminating on 2 - level; its value is stated alternative by alternative by `FieldTypeKeyword`, `FieldTypeList`, `FieldTypeMap` and `FieldTypeCustom` |
| IdlParser.PField | src/main/kotlin/parser/idl/Parser.kt:79-85 | labelled "field-definition"; consumes on success |
| IdlParser.Repeated | src/main/kotlin/parser/idl/Parser.kt:88 | zero or more items, each followed by delimiters, never moving back |
| IdlParser.Braced | src/main/kotlin/parser/idl/Parser.kt:88 | braces around repeated items; consumes on success |
| IdlParser.PListOfFields | src/main/kotlin/parser/idl/Parser.kt:87-99 | consumes on success |
| IdlParser.PData | src/main/kotlin/parser/idl/Parser.kt:101-108 | consumes on success |
| IdlParser.POption | src/main/kotlin/parser/idl/Parser.kt:110-115 | consumes on success |
| IdlParser.PChoiceBody | src/main/kotlin/parser/idl/Parser.kt:117-121 | consumes on success |
| IdlParser.PChoice | src/main/kotlin/parser/idl/Parser.kt:123-132 | consumes on success |
| IdlParser.QuotedStringAdvances | src/main/kotlin/parser/idl/String.kt:30-35 | a quoted string consumes on success |
| IdlParser.TopicPart | src/main/kotlin/parser/idl/Parser.kt:136-137 | consumes on success |
| IdlParser.PTopic | src/main/kotlin/parser/idl/Parser.kt:135-143 | consumes on success |
| IdlParser.SeparatedBy | src/main/kotlin/parser/idl/Parser.kt:145-146 | consumes on success |
| IdlParser.PEnumerationItem | src/main/kotlin/parser/idl/Parser.kt:155-164 | consumes on success |
| IdlParser.PEnumeration | src/main/kotlin/parser/idl/Parser.kt:148-153 | consumes on success |
| IdlParser.DottedName | src/main/kotlin/parser/idl/Parser.kt:167-169 | consumes on success |
| IdlParser.PPackage | src/main/kotlin/parser/idl/Parser.kt:166-171 | consumes on success |
| IdlParser.PImport | src/main/kotlin/parser/idl/Parser.kt:173-178 | consumes on success |
| IdlParser.Padded | src/main/kotlin/parser/idl/Parser.kt:181 | optional delimiters around a consuming parser still consume |
| IdlParser.PImports | src/main/kotlin/parser/idl/Parser.kt:180-182 | never moves back |
| IdlParser.Alternative | src/main/kotlin/parser/idl/Parser.kt:186-189 | one labelled construct alternative; consumes on success |
| IdlParser.ConstructOf | src/main/kotlin/parser/idl/Parser.kt:184-190 | the construct rule over its four alternatives consumes on success; which alternative decides is stated by `GrammarLaws.ConstructOfReadsData`, `ConstructOfReadsEnumeration`, `ConstructOfReadsChoice` and `ConstructOfReadsTopic` |
| IdlParser.PConstruct | src/main/kotlin/parser/idl/Parser.kt:184-190 | consumes on success; what each of its four rules reads is a construct by `GrammarLaws.DataConstruct`, `EnumerationConstruct`, `ChoiceConstruct` and `TopicConstruct`, and a construct comes from one of them by `ConstructLaws.ConstructOfAlternatives` |
| IdlParser.PConstructs | src/main/kotlin/parser/idl/Parser.kt:192-194 | never moves back |
| IdlParser.PFile | src/main/kotlin/parser/idl/Parser.kt:196-200 | consumes on success |
| IdlParser.Distinct | src/main/kotlin/parser/idl/Parser.kt:10 | the distinct elements, in the order of first occurrence, as `groupBy` keys them |
| IdlParser.Repeats | src/main/kotlin/parser/idl/Parser.kt:10 | each grouped element occurring more than once, with its count |
| IdlParser.FindDuplicates | src/main/kotlin/parser/idl/Parser.kt:10 | exactly the elements occurring more than once, each with its count, in the order of first occurrence |
| IdlParser.NoDuplicates | src/main/kotlin/parser/idl/Parser.kt:10 | nothing is reported if and only if the elements are pairwise different |
| IdlParserLaws.MapReads | src/main/kotlin/parser/core/Parser.kt:123-129 | a known success of the inner parser, mapped, is that value transformed at the same cursor (the success case of `CoreLaws.MapTransforms`) |
| IdlParserLaws.WordReads | src/main/kotlin/parser/idl/Parser.kt:17 | a first character and the longest run of the other class, as one string |
| IdlParserLaws.WordRejects | src/main/kotlin/parser/idl/Parser.kt:17 | fails under its own label when the first character is wrong or input is over |
| IdlParserLaws.IdentifierCharRecognizes | src/main/kotlin/parser/idl/Parser.kt:16 | the tail class is letters, digits and underscore |
| IdlParserLaws.TypeIdentifierCharRecognizes | src/main/kotlin/parser/idl/Parser.kt:22 | the tail class is digits, letters and underscore |
| IdlParserLaws.IdentifierReads | src/main/kotlin/parser/idl/Parser.kt:13-18 | `[A-Za-z_][A-Za-z0-9_]*`, the longest such run |
| IdlParserLaws.IdentifierRejects | src/main/kotlin/parser/idl/Parser.kt:13-18 | otherwise a failure labelled "identifier" |
| IdlParserLaws.TypeIdentifierReads | src/main/kotlin/parser/idl/Parser.kt:20-26 | `[A-Z][A-Za-z0-9_]*`, the longest such run |
| IdlParserLaws.TypeIdentifierRejects | src/main/kotlin/parser/idl/Parser.kt:20-26 | otherwise NoMoreInput or UnexpectedToken labelled "type-identifier" |
| IdlParserLaws.TypeIdentifierRejectsLowercase | src/main/kotlin/parser/idl/Parser.kt:20-26 | on "abcd" at 0,0: UnexpectedToken("type-identifier", 'a', 0, 0) |
| IdlParserLaws.WhitespaceCharRecognizes | src/main/kotlin/parser/core/Parser.kt:238 | whitespace is space, tab and newline |
| IdlParserLaws.WhitespaceReads | src/main/kotlin/parser/core/Parser.kt:240 | the longest run of whitespace, failing when there is none |
| IdlParserLaws.SpacesNone | src/main/kotlin/parser/idl/Parser.kt:8 | no whitespace ahead: nothing read |
| IdlParserLaws.SpacesSome | src/main/kotlin/parser/idl/Parser.kt:8 | the whole run of whitespace, in one piece |
| IdlParserLaws.SpacesReads | src/main/kotlin/parser/idl/Parser.kt:8 | exactly the whitespace ahead |
| IdlParserLaws.DelimitersReads | src/main/kotlin/parser/idl/Parser.kt:9 | delimiters skip exactly the whitespace ahead and never fail |
| IdlParserLaws.DelimitersKeepComments | src/main/kotlin/parser/idl/Parser.kt:9 | at `//` delimiters succeed without moving: a comment is never skipped |
| IdlParserLaws.OptionalDelimitersReads | src/main/kotlin/parser/idl/Parser.kt:149 | optional delimiters likewise skip exactly the whitespace |
| IdlParserLaws.AllUntilNewlineReads | src/main/kotlin/parser/core/Parser.kt:244-246 | the rest of the line, up to but not including a newline |
| IdlParserLaws.ClosedByReads | src/main/kotlin/parser/core/Parser.kt:160-161 | a body followed by a required character |
| IdlParserLaws.CommentClosesAt | src/main/kotlin/parser/idl/Parser.kt:6 | `//`, the rest of the line and a newline give that text |
| IdlParserLaws.CommentUnclosedAt | src/main/kotlin/parser/idl/Parser.kt:6 | a comment running to the end of input fails |
| IdlParserLaws.CommentCloses | src/main/kotlin/parser/idl/Parser.kt:6 | the comment's value is the text after `//`, leading spaces included |
| IdlParserLaws.CommentUnclosed | src/main/kotlin/parser/idl/Parser.kt:6 | without a newline the comment fails |
| IdlParserLaws.CommentReads | src/main/kotlin/parser/idl/Parser.kt:6 | both cases together |
| FieldTypeLaws.KeywordNamesDiffer | src/main/kotlin/parser/idl/Parser.kt:66-73 | two keywords differ in their first or fourth letter |
| FieldTypeLaws.KeywordsExclusive | src/main/kotlin/parser/idl/Parser.kt:66-73 | at most one keyword starts the input |
| FieldTypeLaws.KeywordCases | src/main/kotlin/parser/idl/Parser.kt:66-73 | a keyword parser succeeds exactly where its word starts, giving its primitive |
| FieldTypeLaws.MapKeyTypeReads | src/main/kotlin/parser/idl/Parser.kt:32-41 | a keyword at the cursor is read as its primitive |
| FieldTypeLaws.MapKeyTypeRejects | src/main/kotlin/parser/idl/Parser.kt:32-41 | with no keyword at the cursor a map key fails |
| FieldTypeLaws.FieldTypeKeyword | src/main/kotlin/parser/idl/Parser.kt:65-77 | a keyword wins over every other field type, and the rest is left unread |
| FieldTypeLaws.MapFrom | src/main/kotlin/parser/core/Parser.kt:123-129 | a mapped success comes from a success of the inner parser and its value is the function of the inner value (the converse reading of `CoreLaws.MapTransforms`) |
| FieldTypeLaws.AndLFrom | src/main/kotlin/parser/core/Parser.kt:160-161 | the value of `andl` is the left value |
| FieldTypeLaws.FollowedByFrom | src/main/kotlin/parser/core/Parser.kt:151-152 | the pair's left part is the left value here; the right part is some value of the right parser |
| FieldTypeLaws.Delimited2From | src/main/kotlin/parser/core/Parser.kt:276-278 | the parts of a delimited pair come from their parsers |
| FieldTypeLaws.Delimited3From | src/main/kotlin/parser/core/Parser.kt:280-282 | the parts of a delimited triple come from their parsers |
| FieldTypeLaws.Or4From | src/main/kotlin/parser/core/Parser.kt:163-169 | a success of four alternatives is the success of one of them |
| FieldTypeLaws.MapKeyTypeFrom | src/main/kotlin/parser/idl/Parser.kt:32-41 | a map key is always a primitive |
| FieldTypeLaws.CustomTypeFrom | src/main/kotlin/parser/idl/Parser.kt:76 | a custom type parser gives a custom type |
| FieldTypeLaws.ListTooDeep | src/main/kotlin/parser/idl/Parser.kt:56-62 | from level 2 on, `List<` fails with "too many nested type specifiers" |
| FieldTypeLaws.MapTooDeep | src/main/kotlin/parser/idl/Parser.kt:47-53 | likewise `Map<` |
| FieldTypeLaws.ListFrom | src/main/kotlin/parser/idl/Parser.kt:56-62 | a list holds a field type read one level deeper |
| FieldTypeLaws.KeyValuePairFrom | src/main/kotlin/parser/idl/Parser.kt:43-45 | a pair holds a primitive key and a value type one level deeper |
| FieldTypeLaws.MapTypeFrom | src/main/kotlin/parser/idl/Parser.kt:47-53 | a map holds a primitive key and a value type one level deeper |
| FieldTypeLaws.FieldTypeFrom | src/main/kotlin/parser/idl/Parser.kt:65-77 | a field type is a primitive, a custom type, or below level 2 a list or map over a deeper field type |
| FieldTypeLaws.ShapedNested | src/main/kotlin/parser/idl/Parser.kt:47-77 | by induction on the room left, every value fits in that room |
| FieldTypeLaws.FieldTypeNested | src/main/kotlin/parser/idl/Parser.kt:47-77 | every field type read at a level fits in the room left there, map keys primitive |
| FieldTypeLaws.NestedDepth | src/main/kotlin/parser/idl/Types.kt:45-57 | the room left bounds the depth |
| FieldTypeLaws.FieldTypeDepth | src/main/kotlin/parser/idl/Parser.kt:47-77 | no field type nests lists or maps more than two deep |
| ConstructLaws.Delimited2Starts | src/main/kotlin/parser/core/Parser.kt:276-278 | a delimited pair starts with its first part at the same cursor |
| ConstructLaws.Delimited3Starts | src/main/kotlin/parser/core/Parser.kt:280-282 | likewise for three parts |
| ConstructLaws.Delimited4Starts | src/main/kotlin/parser/core/Parser.kt:284-286 | likewise for four parts |
| ConstructLaws.Delimited5Starts | src/main/kotlin/parser/core/Parser.kt:288-290 | likewise for five parts |
| ConstructLaws.Delimited6Starts | src/main/kotlin/parser/core/Parser.kt:292-294 | likewise for six parts |
| ConstructLaws.LiteralNeeded | src/main/kotlin/parser/core/Parser.kt:251-252 | a literal that succeeds is at the cursor |
| ConstructLaws.DataStarts | src/main/kotlin/parser/idl/Parser.kt:101-108 | a data definition starts with `data` |
| ConstructLaws.OptionStarts | src/main/kotlin/parser/idl/Parser.kt:110-115 | an option starts with `option` |
| ConstructLaws.ChoiceStarts | src/main/kotlin/parser/idl/Parser.kt:123-132 | a choice starts with `choice` |
| ConstructLaws.TopicStarts | src/main/kotlin/parser/idl/Parser.kt:135-143 | a topic starts with `topic` |
| ConstructLaws.ImportStarts | src/main/kotlin/parser/idl/Parser.kt:173-178 | an import starts with `import` |
| ConstructLaws.EnumerationStarts | src/main/kotlin/parser/idl/Parser.kt:148-153 | an enumeration starts with `enum` after optional delimiters |
| ConstructLaws.DelimitersSucceed | src/main/kotlin/parser/idl/Parser.kt:8-9 | delimiters never fail |
| ConstructLaws.AlternativeFrom | src/main/kotlin/parser/idl/Parser.kt:186-189 | a construct alternative's value is its rule's value, wrapped |
| ConstructLaws.DataAlternativeFrom | src/main/kotlin/parser/idl/Parser.kt:185-186 | the data alternative reads a data definition after the delimiters |
| ConstructLaws.ConstructOfAlternatives | src/main/kotlin/parser/idl/Parser.kt:184-190 | a construct is the result of one of the four alternatives (which one, the first that succeeds, is stated by the `GrammarLaws.ConstructOfReads*` lemmas) |
| ConstructLaws.ConstructOfData | src/main/kotlin/parser/idl/Parser.kt:184-190 | a data construct is the data definition read after the delimiters |
| ConstructLaws.ConstructOfOthers | src/main/kotlin/parser/idl/Parser.kt:184-190 | an enumeration, choice or topic construct is that rule's value read on the original cursor |
| ConstructLaws.ConstructIsData | src/main/kotlin/parser/idl/Parser.kt:185-186 | a data construct is `pData` after the delimiters, which starts with `data` |
| ConstructLaws.ConstructIsEnumeration | src/main/kotlin/parser/idl/Parser.kt:187 | an enumeration construct is `pEnumeration` read on the construct's own cursor |
| ConstructLaws.ConstructIsChoice | src/main/kotlin/parser/idl/Parser.kt:188 | a choice construct is `pChoice` on the construct's own cursor, which starts with `choice` |
| ConstructLaws.ConstructIsTopic | src/main/kotlin/parser/idl/Parser.kt:189 | a topic construct is `pTopic` on the construct's own cursor, which starts with `topic` |
| ConstructLaws.ChoiceNotIndented | src/main/kotlin/parser/idl/Parser.kt:184-190 | only the data alternative is preceded by delimiters: a choice is never read from a cursor on whitespace |
| ConstructLaws.TopicNotIndented | src/main/kotlin/parser/idl/Parser.kt:184-190 | likewise a topic |
| ConstructLaws.OptionalDelimitersBeforeKeyword | src/main/kotlin/parser/idl/Parser.kt:149 | optional delimiters that end at `enum` did not start at `//`: at a comment they do not move |
| ConstructLaws.EnumerationRuleNotAfterComment | src/main/kotlin/parser/idl/Parser.kt:148-153 | an enumeration is never read from a cursor at `//` |
| ConstructLaws.ChoiceRuleNotAfterComment | src/main/kotlin/parser/idl/Parser.kt:123-132 | a choice is never read from a cursor at `//` |
| ConstructLaws.DataAtComment | src/main/kotlin/parser/idl/Parser.kt:101-108 | `pData` fails at `//` |
| ConstructLaws.EnumerationAtComment | src/main/kotlin/parser/idl/Parser.kt:148-153 | `pEnumeration` fails at `//` |
| ConstructLaws.ChoiceAtComment | src/main/kotlin/parser/idl/Parser.kt:123-132 | `pChoice` fails at `//` |
| ConstructLaws.TopicAtComment | src/main/kotlin/parser/idl/Parser.kt:135-143 | `pTopic` fails at `//` |
| ConstructLaws.ConstructOfAtComment | src/main/kotlin/parser/idl/Parser.kt:184-190 | at `//` a construct fails whenever its four rules fail there, because the delimiters before the data rule do not skip the comment |
| ConstructLaws.CommentedConstructFails | src/main/kotlin/parser/idl/Parser.kt:184-190 | no construct is read from a cursor at `//` |
| GrammarLaws.DelimitersToGap | src/main/kotlin/parser/idl/Parser.kt:8-9 | delimiters and optional delimiters succeed and stop after exactly the run of whitespace ahead |
| GrammarLaws.GapReached | src/main/kotlin/parser/idl/Parser.kt:8-9 | on every cursor the delimiters stop at the end of the whitespace ahead |
| GrammarLaws.CharReads | src/main/kotlin/parser/core/Parser.kt:224-225 | `pChar(c)` reads the `c` that is next and moves one step |
| GrammarLaws.SequenceStep | src/main/kotlin/parser/core/Parser.kt:151-161 | a part read after the delimiters extends the pair of values, stopping where the part stops |
| GrammarLaws.Delimited2Reads | src/main/kotlin/parser/core/Parser.kt:276-278 | two parts read in turn, delimiters between: the pair of their values |
| GrammarLaws.Delimited3Reads | src/main/kotlin/parser/core/Parser.kt:280-282 | a third part after the delimiters adds its value to the triple |
| GrammarLaws.Delimited4Reads | src/main/kotlin/parser/core/Parser.kt:284-286 | likewise a fourth part |
| GrammarLaws.Delimited5Reads | src/main/kotlin/parser/core/Parser.kt:288-290 | likewise a fifth part |
| GrammarLaws.Delimited6Reads | src/main/kotlin/parser/core/Parser.kt:292-294 | likewise a sixth part |
| GrammarLaws.Delimited3Chain | src/main/kotlin/parser/core/Parser.kt:280-282 | three parts read in turn with delimiters between them give the triple of their values |
| GrammarLaws.Delimited4Chain | src/main/kotlin/parser/core/Parser.kt:284-286 | likewise four parts |
| GrammarLaws.Delimited5Chain | src/main/kotlin/parser/core/Parser.kt:288-290 | likewise five parts |
| GrammarLaws.Delimited6Chain | src/main/kotlin/parser/core/Parser.kt:292-294 | likewise six parts |
| GrammarLaws.ZeroOrMoreIterates | src/main/kotlin/parser/core/Parser.kt:205-217 | zero-or-more reads a list and stops at t if and only if the inner parser reads those values one after the other and then fails at t |
| GrammarLaws.OneOrMoreIterates | src/main/kotlin/parser/core/Parser.kt:219-220 | a non-empty run of values is read by one-or-more exactly as by zero-or-more |
| GrammarLaws.OneOrMoreNeedsFirst | src/main/kotlin/parser/core/Parser.kt:219-220 | one-or-more fails where its parser fails |
| GrammarLaws.RepetitionTotal | src/main/kotlin/parser/core/Parser.kt:205-217 | zero-or-more over a consuming parser never fails |
| GrammarLaws.SeparatedByReads | src/main/kotlin/parser/idl/Parser.kt:145-146 | the first value followed by the value after each separator, stopping where the last one stops |
| GrammarLaws.PaddedReads | src/main/kotlin/parser/idl/Parser.kt:181 | with optional delimiters on both sides a parser reads what it reads at the gap and stops after the trailing whitespace |
| GrammarLaws.OptionalReads | src/main/kotlin/parser/core/Parser.kt:198-203 | optional gives `Just` what its parser reads, or `None` at the unchanged cursor exactly when the parser fails |
| GrammarLaws.LabelledReads | src/main/kotlin/parser/core/Parser.kt:115-121 | a label leaves a success as it is |
| GrammarLaws.CharAfterGap | src/main/kotlin/parser/idl/Parser.kt:8-9 | a character next after the whitespace is read after the delimiters |
| GrammarLaws.PartAfterGap | src/main/kotlin/parser/idl/Parser.kt:8-9 | a part read at the gap is read after the delimiters |
| GrammarLaws.TagReads | src/main/kotlin/parser/idl/Parser.kt:28-30 | `tag = n` gives the integer read after `=` |
| GrammarLaws.FieldShapeReads | src/main/kotlin/parser/idl/Parser.kt:79-85 | `name : type , tag ;` over any type and tag parsers gives the field of that name, type and tag |
| GrammarLaws.FieldReads | src/main/kotlin/parser/idl/Parser.kt:79-85 | a field holds the identifier, the field type read at level 0 and the tag |
| GrammarLaws.ItemThenGap | src/main/kotlin/parser/idl/Parser.kt:88 | an item followed by delimiters is the item, stopping after the whitespace |
| GrammarLaws.RepeatedReads | src/main/kotlin/parser/idl/Parser.kt:88 | the repeated items are exactly those read one after the other, each followed by delimiters, until the next fails |
| GrammarLaws.BracedReads | src/main/kotlin/parser/idl/Parser.kt:88 | `{`, the items read in turn and `}` give the list of items |
| GrammarLaws.BracedEmpty | src/main/kotlin/parser/idl/Parser.kt:88 | braces around no readable item give the empty list |
| GrammarLaws.BracedNeedsBrace | src/main/kotlin/parser/idl/Parser.kt:88 | without `{` next the braced body fails |
| GrammarLaws.FieldsReads | src/main/kotlin/parser/idl/Parser.kt:87-99 | the body of a data definition is the list of fields read in turn between braces |
| GrammarLaws.FieldsNeedBrace | src/main/kotlin/parser/idl/Parser.kt:87-99 | a body of fields fails without `{` next |
| GrammarLaws.DataReads | src/main/kotlin/parser/idl/Parser.kt:101-108 | `data Name { fields }` gives the data definition with that name and those fields |
| GrammarLaws.OptionShapeReads | src/main/kotlin/parser/idl/Parser.kt:110-115 | the option rule over any body and tag parsers gives the option of that name, optional body and tag |
| GrammarLaws.OptionReads | src/main/kotlin/parser/idl/Parser.kt:110-115 | `option Name [{ fields }] , tag ;` gives the option of that name, optional body and tag |
| GrammarLaws.OptionWithoutBody | src/main/kotlin/parser/idl/Parser.kt:110-115 | an option without `{` after its name has no body |
| GrammarLaws.ChoiceBodyReads | src/main/kotlin/parser/idl/Parser.kt:117-121 | the body of a choice is the list of options read in turn between braces |
| GrammarLaws.ChoiceHeaderReads | src/main/kotlin/parser/idl/Parser.kt:124 | `choice Name` gives the name |
| GrammarLaws.ChoiceReads | src/main/kotlin/parser/idl/Parser.kt:123-132 | `choice Name { options }` gives the choice of that name and those options |
| GrammarLaws.TopicPartReads | src/main/kotlin/parser/idl/Parser.kt:136-137 | `, word = Name` gives the type named |
| GrammarLaws.TopicPartNeedsComma | src/main/kotlin/parser/idl/Parser.kt:136-137 | a topic part fails without `,` next |
| GrammarLaws.TopicReads | src/main/kotlin/parser/idl/Parser.kt:135-143 | `topic "text" , request = A [, response = B]` gives the topic of that text, request and optional response |
| GrammarLaws.TopicWithoutResponse | src/main/kotlin/parser/idl/Parser.kt:135-143 | a topic whose request is not followed by `,` has no response and stops after the trailing whitespace |
| GrammarLaws.DottedPathAppend | src/main/kotlin/parser/idl/Parser.kt:167-169 | one more identifier adds `.` and its text to the dotted name |
| GrammarLaws.DottedNameReads | src/main/kotlin/parser/idl/Parser.kt:167-169 | a dotted name is the first identifier and each identifier after a `.`, joined with `.` |
| GrammarLaws.ImportReads | src/main/kotlin/parser/idl/Parser.kt:173-178 | `import a.b.c` gives the import of that dotted name |
| GrammarLaws.PackageReads | src/main/kotlin/parser/idl/Parser.kt:166-171 | `package a.b.c` between optional delimiters gives the package of that dotted name |
| GrammarLaws.ImportsReads | src/main/kotlin/parser/idl/Parser.kt:180-182 | the imports read are exactly the padded imports read in turn until one fails |
| GrammarLaws.ImportsTotal | src/main/kotlin/parser/idl/Parser.kt:180-182 | the imports never fail |
| GrammarLaws.ConstructsReads | src/main/kotlin/parser/idl/Parser.kt:192-194 | padded constructs read in turn until one fails are the constructs read |
| GrammarLaws.QuotedIterates | src/main/kotlin/parser/idl/String.kt:30-35 | for any body-character rule: after the opening quote, the characters it reads one by one (escaped or plain) are the string, joined, when a closing quote follows them, and the rule fails when none follows |
| GrammarLaws.QuotedStringIterates | src/main/kotlin/parser/idl/String.kt:30-35 | the same for `quotedString` as written |
| GrammarLaws.IntendedQuotedStringIterates | src/main/kotlin/parser/idl/String.kt:30-35 | the same over the corrected escape table |
| GrammarLaws.GapTwice | src/main/kotlin/parser/idl/Parser.kt:184-190 | the whitespace skipped after a construct leaves nothing for the trailing optional delimiters |
| GrammarLaws.AlternativeReads | src/main/kotlin/parser/idl/Parser.kt:186-189 | an alternative of a construct reads its rule's value, wrapped, and skips the whitespace after it |
| GrammarLaws.AlternativeFails | src/main/kotlin/parser/idl/Parser.kt:186-189 | an alternative fails where its rule does not read |
| GrammarLaws.DataAlternativeFails | src/main/kotlin/parser/idl/Parser.kt:185-186 | the data alternative fails where no data definition follows the delimiters |
| GrammarLaws.ConstructOfEnds | src/main/kotlin/parser/idl/Parser.kt:184-190 | what the first succeeding alternative reads, up to the gap after it, is the construct |
| GrammarLaws.ConstructOfReadsData | src/main/kotlin/parser/idl/Parser.kt:184-190 | for any four rules: where the data rule reads after the delimiters, the construct is that data definition |
| GrammarLaws.ConstructOfReadsEnumeration | src/main/kotlin/parser/idl/Parser.kt:184-190 | where no data definition follows the delimiters and the enumeration rule reads, the construct is that enumeration |
| GrammarLaws.ConstructOfReadsChoice | src/main/kotlin/parser/idl/Parser.kt:184-190 | where neither of the first two rules reads and the choice rule does, the construct is that choice |
| GrammarLaws.ConstructOfReadsTopic | src/main/kotlin/parser/idl/Parser.kt:184-190 | where none of the first three rules reads and the topic rule does, the construct is that topic |
| GrammarLaws.WordsApart | src/main/kotlin/parser/core/Parser.kt:251-252 | input that starts with one word does not start with a word of another first letter |
| GrammarLaws.KeywordsApart | src/main/kotlin/parser/idl/Parser.kt:184-190 | the four construct keywords exclude each other |
| GrammarLaws.DataNeedsKeyword | src/main/kotlin/parser/idl/Parser.kt:101-108 | no data definition is read where `data` does not start the input |
| GrammarLaws.EnumerationNeedsKeyword | src/main/kotlin/parser/idl/Parser.kt:148-153 | no enumeration is read where `enum` does not follow the whitespace |
| GrammarLaws.ChoiceNeedsKeyword | src/main/kotlin/parser/idl/Parser.kt:123-132 | no choice is read where `choice` does not start the input |
| GrammarLaws.GapAtKeyword | src/main/kotlin/parser/idl/Parser.kt:184-190 | at `choice` or `topic` there is no whitespace to skip |
| GrammarLaws.EnumerationAlone | src/main/kotlin/parser/idl/Parser.kt:184-190 | where an enumeration is read, no data definition is read after the delimiters |
| GrammarLaws.ChoiceAlone | src/main/kotlin/parser/idl/Parser.kt:184-190 | where a choice is read, neither a data definition nor an enumeration is |
| GrammarLaws.TopicAlone | src/main/kotlin/parser/idl/Parser.kt:184-190 | where a topic is read, no data definition, enumeration or choice is |
| GrammarLaws.DataConstruct | src/main/kotlin/parser/idl/Parser.kt:184-190 | a data definition after the delimiters is the construct read, ending at the gap after it |
| GrammarLaws.EnumerationConstruct | src/main/kotlin/parser/idl/Parser.kt:184-190 | an enumeration that is read is the construct read, ending at the gap after it |
| GrammarLaws.ChoiceConstruct | src/main/kotlin/parser/idl/Parser.kt:184-190 | a choice that is read is the construct read, ending at the gap after it |
| GrammarLaws.TopicConstruct | src/main/kotlin/parser/idl/Parser.kt:184-190 | a topic that is read is the construct read, ending at the gap after it |
| GrammarLaws.ConstructsTotal | src/main/kotlin/parser/idl/Parser.kt:192-194 | the constructs never fail |
| GrammarLaws.DelimitersTotal | src/main/kotlin/parser/idl/Parser.kt:9 | delimiters never fail |
| GrammarLaws.MappedTripleNeedsFirst | src/main/kotlin/parser/core/Parser.kt:280-282 | a mapped delimited triple fails where its first part fails |
| GrammarLaws.FileShapeReads | src/main/kotlin/parser/idl/Parser.kt:196-200 | the file rule over any header, imports and constructs parsers gives the file of their values |
| GrammarLaws.FileShapeAfterHeader | src/main/kotlin/parser/idl/Parser.kt:196-200 | when the parts after the header never fail, the file rule succeeds wherever the header does |
| GrammarLaws.FileFillersTotal | src/main/kotlin/parser/idl/Parser.kt:196-200 | the delimiters, the imports and the constructs never fail |
| GrammarLaws.FileReads | src/main/kotlin/parser/idl/Parser.kt:196-200 | a file holds the package, the imports and the constructs read in turn |
| GrammarLaws.FileNeedsPackage | src/main/kotlin/parser/idl/Parser.kt:196-200 | without a package header there is no file |
| GrammarLaws.FileAfterPackage | src/main/kotlin/parser/idl/Parser.kt:196-200 | a file is read wherever a package header is |
| GrammarLaws.KeyValuePairReads | src/main/kotlin/parser/idl/Parser.kt:43-45 | `key , value` gives the pair of the map key and the value type read one level deeper |
| GrammarLaws.ListReads | src/main/kotlin/parser/idl/Parser.kt:56-62 | below level 2, `List< e >` gives the list of the element type read one level deeper |
| GrammarLaws.MapTypeReads | src/main/kotlin/parser/idl/Parser.kt:47-53 | below level 2, `Map< k , v >` gives the map from the key to the value type |
| GrammarLaws.NoKeywordAt | src/main/kotlin/parser/idl/Parser.kt:66-73 | no primitive keyword starts with `L` or `M` |
| GrammarLaws.SecondOfFour | src/main/kotlin/parser/core/Parser.kt:163-169 | of four alternatives the second decides when the first fails and it succeeds |
| GrammarLaws.ThirdOfFour | src/main/kotlin/parser/core/Parser.kt:163-169 | the third decides when the first two fail and it succeeds |
| GrammarLaws.FieldTypeList | src/main/kotlin/parser/idl/Parser.kt:65-77 | where `List<` is next the field type is what the list rule reads |
| GrammarLaws.FieldTypeMap | src/main/kotlin/parser/idl/Parser.kt:65-77 | where `Map<` is next the field type is what the map rule reads |
| GrammarLaws.FourthOfFour | src/main/kotlin/parser/core/Parser.kt:163-169 | of four alternatives the fourth decides when the first three fail |
| GrammarLaws.FieldTypeCustom | src/main/kotlin/parser/idl/Parser.kt:65-77 | where no keyword, list or map type is read and an upper-case letter is next, the field type is the custom type named by that letter and the type-identifier characters after it, and it consumes exactly them |
| GrammarLaws.ListRejectsMap | src/main/kotlin/parser/idl/Parser.kt:56-62 | the list rule fails at `Map<` |
| GrammarLaws.LiteralMismatch | src/main/kotlin/parser/core/Parser.kt:251-252 | a literal fails where its first character is not next |
| GrammarLaws.TerminatorReads | src/main/kotlin/parser/idl/Parser.kt:159 | an item's end is `;` or `,` when one is next, and nothing otherwise |
| GrammarLaws.EnumerationItemReads | src/main/kotlin/parser/idl/Parser.kt:155-164 | `name = n` with an optional `;` or `,` gives the item of that name and value |
| GrammarLaws.EnumerationShapeReads | src/main/kotlin/parser/idl/Parser.kt:148-153 | the enumeration rule over any item parser gives the enumeration of that name and the non-empty list of items |
| GrammarLaws.EnumerationShapeNeedsItem | src/main/kotlin/parser/idl/Parser.kt:148-153 | an enumeration rule with no item after `{` fails |
| GrammarLaws.Delimited5FailsFourth | src/main/kotlin/parser/core/Parser.kt:288-290 | a delimited sequence fails where its fourth part fails |
| GrammarLaws.EnumerationReads | src/main/kotlin/parser/idl/Parser.kt:148-153 | `enum Name { items }` gives the enumeration of that name and those items |
| GrammarLaws.EnumerationNeedsItem | src/main/kotlin/parser/idl/Parser.kt:148-153 | after `enum Name {`, where no item can be read, there is no enumeration |
| SampleInputs.IdentifierWord | src/main/kotlin/parser/idl/Parser.kt:13-18 | an identifier next and not followed by an identifier character is read whole |
| SampleInputs.DottedSampleReads | src/main/kotlin/parser/idl/Parser.kt:167-169 | `bla.fazl` is the dotted name "bla.fazl" |
| SampleInputs.ImportSample | src/main/kotlin/parser/idl/Parser.kt:173-178 | `import bla.fazl` is the import of "bla.fazl", read to the end of the input |
| SampleInputs.InnerListReads | src/main/kotlin/parser/idl/Parser.kt:56-77 | the inner `List<Boolean>` is a list of booleans at level 1 |
| SampleInputs.NestedListReads | src/main/kotlin/parser/idl/Parser.kt:56-77 | `List<List<Boolean>>` at level 0 is a list of lists of booleans |
| SampleInputs.NestedListSample | src/main/kotlin/parser/idl/Parser.kt:56-77 | `List<List<Boolean>>` is read whole as a list of lists of booleans |
| SampleInputs.NewlineEscape | src/main/kotlin/parser/idl/String.kt:6-18 | the escape letter `n` is entry five of the table as written and stands for a newline |
| SampleInputs.IteratesThree | src/main/kotlin/parser/core/Parser.kt:205-217 | three successive reads are an iteration of three values |
| SampleInputs.EscapedPlain | src/main/kotlin/parser/idl/String.kt:32 | in `"a\nb"` the body-character rule reads `a` and `b` and fails at the closing quote |
| SampleInputs.EscapedNewline | src/main/kotlin/parser/idl/String.kt:32 | in `"a\nb"` the body-character rule reads the escape `\n` as a newline |
| SampleInputs.EscapedBody | src/main/kotlin/parser/idl/String.kt:32-34 | the body of `"a\nb"` is read as the three characters a, newline, b |
| SampleInputs.EscapedSample | src/main/kotlin/parser/idl/String.kt:30-35 | `"a\nb"` is read whole as the string a, newline, b |
| Validator.DeclaredTypes | src/main/kotlin/validator/validator.kt:20-28 | at most one identifier per construct, and every non-topic construct's identifier is among them |
| Validator.DeclaredTypesAppend | src/main/kotlin/validator/validator.kt:20-28 | identifiers are collected construct by construct, in order |
| Validator.DeclaredTypesOne | src/main/kotlin/validator/validator.kt:21-27 | a topic contributes nothing, any other construct its own identifier |
| Validator.Keys | src/main/kotlin/validator/validator.kt:32 | the keys of the duplicate map, in order |
| Validator.DuplicateKeys | src/main/kotlin/validator/validator.kt:29-32 | the keys are exactly the identifiers occurring more than once, each once, in the order of their first occurrence |
| Validator.Validate | src/main/kotlin/validator/validator.kt:16-35 | the item is returned unchanged if and only if no type identifier is declared twice; otherwise the error names the item and lists each duplicated identifier exactly once, in the order in which the identifiers first occur |
| Validator.Valids | src/main/kotlin/validator/validator.kt:38-48 | the valid items in order; all of them when none was rejected |
| Validator.Invalids | src/main/kotlin/validator/validator.kt:38-48 | at most one entry per item, none exactly when no item was rejected, each carrying the error of a rejected item |
| Validator.OutcomesCounted | src/main/kotlin/validator/validator.kt:38-48 | every item lands in exactly one of the two lists |
| Validator.ValidsAppend | src/main/kotlin/validator/validator.kt:38-48 | the valid items of `a + b` are those of `a` followed by those of `b` |
| Validator.InvalidsAppend | src/main/kotlin/validator/validator.kt:38-48 | the invalid items of `a + b` are those of `a` followed by those of `b` |
| Validator.OutcomesAppend | src/main/kotlin/validator/validator.kt:38-48 | both lists are built item by item: the lists of `a + b` are those of `a` followed by those of `b` |
| Validator.OutcomeAt | src/main/kotlin/validator/validator.kt:38-48 | the item at index i adds the next entry of its list: a rejected item the invalid item with its name, path and error, an accepted one itself |
| Validator.FoldSplits | src/main/kotlin/validator/validator.kt:38-48 | the fold appends the valid items to the first list and the rejected ones to the second |
| Validator.ValidateAll | src/main/kotlin/validator/validator.kt:38-52 | Right with all items in order if and only if no item was rejected; otherwise Left with one invalid item per rejection |

## Left out

- `pNumber` is not modelled. It converts the text to a floating-point number.
- `pDelimited` of seven to ten parts is not modelled. The grammar never uses those arities.
- `pBetween`, `pLowercase` and the vararg overloads of `choice` and `sequence` are not modelled. The grammar does not use them.
- Core.PAnyOf: the vararg overload of `pAnyOf` (`src/main/kotlin/parser/core/Parser.kt:232`) is not modelled separately. `pWhitespaceChar` (line 238) and `pSign` (line 261) use it. It wraps the list version in one more label, "choice-of " followed by the `toString` of a `CharArray`, which names the array object rather than its characters. The model uses the list version's label for both. The difference is never seen: `pWhitespaceChar` is relabelled "whitespace-char", and `pSign` is used only inside `optional`, which never fails.
- Core.Choice: requires a non-empty list of alternatives. Kotlin's `reduce` (`src/main/kotlin/parser/core/Parser.kt:186`) throws on an empty list, and every call in the grammar passes a non-empty one. `Core.OrAll` and `Core.PAnyOf` carry the same requirement for the same reason.
- Error display is not modelled. The `toString` of errors is printing only. Composed labels are kept exactly, with "null" for a null label.
- Core.PInt: does not model the exception `toInt()` raises outside the 32-bit range; the value is an unbounded integer.
- Core.State: the input is a sequence of Unicode scalar values, while the source indexes a Kotlin `String`, whose elements are UTF-16 code units (src/main/kotlin/parser/core/Parser.kt:19-20). On a character outside the Basic Multilingual Plane, such as U+1F600 in a comment or a topic name, the source takes two steps and the model takes one. The values read agree, because the source joins the two surrogate halves again, but every later `pos` and `col` is one smaller in the model, and an `UnexpectedToken` error at such a character carries the whole character where the source reports its high surrogate.
- IdlString.CodeUnit: a `\uXXXX` escape naming a UTF-16 surrogate decodes to U+FFFD. A Dafny character is a Unicode scalar value and cannot hold a lone surrogate.
- Core.ZeroOrMore: requires its inner parser to consume on every success. The Kotlin version has no such guard and would recurse forever on a parser that succeeds without consuming. Every use in the grammar meets the requirement. `Repeated`, `SeparatedBy` and `Padded` carry the same requirement.
- The untyped `List<Any>` flattening of `and` is replaced by typed views (`Piece`). The identity casts of the grammar (`it as Field`, `it as Construct`, ...) disappear with it.
- `ConstructOf`, `UnicodeDigits` and `QuotedOf` take sub-parsers as parameters. `PConstruct`, `JUnicodeChar` and `QuotedString` apply them to the grammar's own parsers, so they are the same rules.
- `src/main/kotlin/scanner/Scanner.kt` is not part of this model. It holds the directory walk, file reading and the end-of-input check a caller makes after `pFile`.
- `src/main/kotlin/main.kt`, `src/main/kotlin/validator/args.kt` and `src/main/kotlin/writer/writer.kt` are not part of this model. They hold command-line handling, effects and file output.
- The generators are not part of this model.
- `src/main/kotlin/parser/idl/IdlParser.kt` is not part of this model. It is an earlier version of the grammar.
- `FileItem` and `InvalidFileItem` follow `src/main/kotlin/common.kt:10-11` as plain records in the validator. `SingleFileParseResult`, `SingleFileValidationResult` and `indentLines` from that file are not part of this model; they are used only by the scanner and the writers.
- `InvalidFileItem.error`: the `error` of an `InvalidFileItem` is modelled as the `FileValidationError` itself, as `validateAll` passes it (`src/main/kotlin/validator/validator.kt:44`). `src/main/kotlin/common.kt:11` declares the field as a `String`, so the Kotlin code relies on a conversion that is not shown.
- `FileValidationError` is not shown in the source. It is modelled as its one variant, `DuplicateTypeIdentifiers(fileItem, ids)`.
- `validate` reads `file.objects`, which is not a field of `File`. It is modelled on `constructs`.
- The duplicate checks on field ids, tags and option types are commented out in the grammar and are not modelled. The validator rejects only duplicate type identifiers.
- Concrete inputs are mostly covered by general laws rather than stated one by one. Three are stated as single inputs in `SampleInputs`: `import bla.fazl` (`ImportSample`), `List<List<Boolean>>` (`NestedListSample`) and the quoted string `"a\nb"` with an escaped newline (`EscapedSample`). `TypeIdentifierRejectsLowercase` is a fourth. Other inputs, such as the field `abc:A, tag = 1;`, a topic without response and a file followed by unread text, are instances of `FieldReads`, `TopicWithoutResponse` and `FileReads`, but are not written out.
- PEnumeration (`IdlParser.PEnumeration`): its own contract says only that it consumes on success. What it reads is stated by `GrammarLaws.EnumerationReads`, and `GrammarLaws.EnumerationNeedsItem` states that an enumeration needs at least one item.
- PKeyValuePair (`IdlParser.PKeyValuePair`): its own contract says only that it consumes on success. The value it reads is stated by `GrammarLaws.KeyValuePairReads`.
- PMap (`IdlParser.PMap`): its own contract says only that it consumes on success. The value it reads is stated by `GrammarLaws.MapTypeReads` and `GrammarLaws.FieldTypeMap`.
- PList (`IdlParser.PList`): its own contract says only that it consumes on success. The value it reads is stated by `GrammarLaws.ListReads` and `GrammarLaws.FieldTypeList`.
- SeparatedBy (`IdlParser.SeparatedBy`): its own contract says only that it consumes on success. The values it reads are stated by `GrammarLaws.SeparatedByReads`.
- PEnumerationItem (`IdlParser.PEnumerationItem`): its own contract says only that it consumes on success. The item it reads is stated by `GrammarLaws.EnumerationItemReads` and `GrammarLaws.TerminatorReads`.
- Invalids (`Validator.Invalids`): its own contract bounds the list and ties each entry to some rejected item. The exact entry for each rejected item, in order, is stated by `Validator.OutcomeAt`, `Validator.OutcomesAppend` and `Validator.OutcomesCounted`.
- The other grammar rules (`PField`, `PData`, `POption`, `PChoice`, `PTopic`, `DottedName`, `PPackage`, `PImport`, `PImports`, `PConstructs`, `PFile`, `PTag`, `Braced`, `Repeated`, `Padded`) likewise promise only that they consume or never move back. The values they read are stated by the `GrammarLaws` lemmas named after them.

## Findings

| source | as written | input that shows it | evidently intended | confidence | as-written member | corrected member |
|---|---|---|---|---|---|---|
| src/main/kotlin/parser/idl/String.kt:12 | the escape `\f` is decoded as the letter `f` | the quoted string `"\f"` gives `f` (`QuotedFormFeed`; the escape alone: `WrittenFormFeedIsLetter`, `JCharFormFeed`) | `\f` decodes to form feed (U+000C), as its comment and section 7 of RFC 8259 say; the corrected table `JEscapedChar` reads every short escape back as its character, and `IntendedQuotedString` reads `"\f"` as form feed | not executed | IdlString.QuotedFormFeed | IdlString.JEscapedCharRoundTrip |
