# Lexeme scanner for a Ruby-like toy language, modelled in Dafny

The scanner reads a program text and splits it into lexemes, one character
at a time. There are five kinds:

- identifiers, with configured service words reclassified as service words;
- numeric literals;
- separators, which are configured operators made of punctuation;
- single-line comments;
- multi-line comments.

Each lexeme that is finalized is recorded in one of four append-only tables:
service words (1), identifiers (2), literals (3) and separators (4). At the
same moment its address (table number, index in the table) is appended to
the standard table. Comments never reach a table. The scanner can also echo
each lexeme as it is recorded. The character classes it uses are built by
`SetsUtils`: letters L, digits D, punctuation P and ignorable characters E.

The project has these modules:

- `Models` (models.dfy): token types and their labels, addresses, the
  realtime output mode and the character classes.
- `SetsUtils` (sets_utils.dfy): construction of L, D, P and E. L and D are
  built by loops, P and E are fixed lists. Their membership and overlap are
  proved.
- `Lexer` (lexer.dfy): the scanning automaton as functions over the input
  and a cursor. `NextMove` is one pass of the scanning loop. `Run`/`Lex` give
  the lexemes a scan finalizes, in order, and how the scan ends.
- `Tables` (tables.dfy): the tables as a value. `Record` is what recording
  one lexeme does to them; `RecordAll` records a sequence of lexemes.
- `Services` (compiler.dfy): the class `Compiler`, with the tables, the
  standard table and the realtime output as fields that scanning updates in
  place. `Scan` is a loop over the input, proved against `Lex` and
  `RecordAll`. Each pass of the loop is proved against `NextMove`.
- `LexerProps` (lexer_props.dfy): properties of the automaton.
  - Maximal munch for identifiers, literals and punctuation runs.
  - How each kind of lexeme ends, including the error cases.
  - Comments.
  - Characters that start nothing.
  - Every finalized lexeme is well classified.
- `ScanProps` (scan_props.dfy): what a single word scanned into a fresh
  scanner records.

Behaviour of the code that the model keeps as written:

- **A lexeme still being built when the input runs out is dropped, and the
  scan succeeds.** The loop stops when the buffer is empty, and only a
  terminating character finalizes a lexeme (`IdentifierLexeme`,
  `LiteralLexeme` and `SeparatorLexeme`, each for input that ends inside
  that kind of lexeme). So
  `if x=1;` records four lexemes (`if`, `x`, `=`, `1`). The final `;` is
  never recorded.
- **A single-line comment that reaches the end of the input is never
  recorded.** It is recorded only when a carriage return ends it, and that
  carriage return is left in place (`LineComment`, for a marker met with
  no lexeme under way).
- **Service words are shown with the identifier label** in the realtime
  output, but they are stored in table 1.
- **`TokensWithHeader` falls through to `OnlyTokens`.** The header is written
  once, before the first row.
- **Lexemes finalized before an error stay recorded.** Recording happens as
  the scan goes, so `Scan` records the lexemes that `Lex` emits before it
  fails.
- **The tables are never reset between scans.** Two scans on one scanner
  record the lexemes of both, in order (`RecordAllAppend`).
- **The result of a fresh scan is fixed by its input.** `Scan`'s
  postcondition gives the new state as a function of the old state and the
  input, so two fresh scanners given the same text end with equal tables.

## Model

| member | source | states |
|---|---|---|
| Models.LabelsDistinct | src/Models/Enums/TokenTypeEnum.php:7-14 | every token type carries a non-empty label, and different types carry different labels |
| SetsUtils.StrToLower | src/Services/SetsUtils.php:31 | lower-casing keeps the length and maps each upper-case ASCII letter to its lower-case letter (32 code points on), every other character to itself |
| SetsUtils.GenerateL | src/Services/SetsUtils.php:24-36 | the loop over codes 65..90, then the lower-cased copy, then '_' produce exactly 'A'..'Z', 'a'..'z', '_' in that order |
| SetsUtils.GenerateD | src/Services/SetsUtils.php:41-50 | the loop over codes 48..57 produces exactly '0'..'9' in order |
| SetsUtils.GenerateP | src/Services/SetsUtils.php:55-80 | P has 21 characters, among them '_', '$' and '@' |
| SetsUtils.PunctuationDistinct | src/Services/SetsUtils.php:55-80 | the characters of P are pairwise distinct |
| SetsUtils.GenerateE | src/Services/SetsUtils.php:85-93 | E has 4 characters: a character is in E exactly when its code is 32, 8, 10 or 13 (tab is not) |
| SetsUtils.GenerateSets | src/Services/SetsUtils.php:11-19 | the classes are bundled in the order L, D, P, E as the generators build them |
| SetsUtils.LettersMembership | src/Services/SetsUtils.php:24-36 | a character is in L exactly when it is an ASCII letter or '_' |
| SetsUtils.DigitsMembership | src/Services/SetsUtils.php:41-50 | a character is in D exactly when it is an ASCII digit |
| SetsUtils.ClassesOverlap | src/Services/SetsUtils.php:24-93 | D is disjoint from L, P and E; L and P share exactly '_'; E is disjoint from L and P |
| Lexer.InArray | src/Services/Compiler.php:397-400 | strict membership: true exactly when some element equals the needle |
| Lexer.SlicePrefix | src/Services/Compiler.php:198-202 | a slice from offset 0 is a prefix of the list; a non-negative length takes that many elements or all of them, and a negative length leaves that many off the end |
| Lexer.CommentStartCandidate | src/Services/Compiler.php:196-202 | the candidate has the start marker's length exactly when the run is no longer than the marker and enough input remains, and is then the run followed by the missing characters |
| Lexer.LineEnd | src/Services/Compiler.php:170-182 | the single-line comment stops at the first carriage return at or after the cursor, or at the end of the input |
| Lexer.FindEnd | src/Services/Compiler.php:211-234 | the first position from which the end marker occurs, and no earlier one; none when the marker does not occur before the input runs out |
| Lexer.NextMove | src/Services/Compiler.php:79-256 | one pass either stops with an error or finalizes at most one lexeme, and always decreases the measure (characters left, then phase) |
| Lexer.UnsetMove | src/Services/Compiler.php:84-111 | with no lexeme under way the character is always consumed and nothing is finalized |
| Lexer.IdentifierMove | src/Services/Compiler.php:112-144 | an identifier pass either consumes a character and keeps building, or finalizes exactly one lexeme without consuming |
| Lexer.LiteralMove | src/Services/Compiler.php:145-165 | a literal pass either consumes a digit and keeps building, or finalizes exactly one lexeme without consuming |
| Lexer.SeparatorMove | src/Services/Compiler.php:166-192 | a punctuation pass either extends the run by one character, or returns to no lexeme after finalizing at most one |
| Lexer.SeparatorEnd | src/Services/Compiler.php:193-253 | the end of a punctuation run finalizes exactly one lexeme and returns to no lexeme, or fails |
| Lexer.BlockComment | src/Services/Compiler.php:204-241 | a multi-line comment either fails with exactly the unterminated-comment error, or finalizes one comment lexeme whose text is the start marker, the body and the end marker, and resumes right after the end marker with no lexeme under way |
| Lexer.BlockCommentSpan | src/Services/Compiler.php:204-241 | the comment fails exactly when no end marker occurs after its start; otherwise its body stops at the first end marker |
| Lexer.NextMoveBudget | src/Services/Compiler.php:79-256 | a pass finalizes no more lexemes than the characters it consumes, plus the one under way it closes |
| Lexer.RunBudget | src/Services/Compiler.php:79-260 | the rest of a scan finalizes at most one lexeme per remaining character, plus the one under way |
| Lexer.LexBudget | src/Services/Compiler.php:66-260 | a whole scan finalizes at most one lexeme per input character |
| Tables.TableNumberOf | src/Services/Compiler.php:392-395 | the table numbers are 1..4 |
| Tables.TableByNumber | src/Services/Compiler.php:387-390 | table numbers 1, 2, 3 and 4 give the service-word, identifier, literal and separator tables |
| Tables.ShownAs | src/Services/Compiler.php:371-375 | the output never shows the service-word label: a service word is shown as an identifier, any other type as itself |
| Tables.TableNumbering | src/Services/Compiler.php:14-26 | the type-to-number map is one to one, and the table with a type's number is that type's table |
| Tables.Echo | src/Services/Compiler.php:360-382 | realtime output: nothing when off; one row per lexeme, with a service word shown as an identifier; in header mode the header comes once, before the first row; no table changes |
| Tables.AppendToTable | src/Services/Compiler.php:323-357 | the lexeme's table grows by its text, the other tables are unchanged, and the new address is (its table number, the old table length); a comment changes nothing |
| Tables.Record | src/Services/Compiler.php:315-358 | a hidden comment changes nothing, a displayed comment changes only the output, and another lexeme is appended to its table with its address |
| Tables.Tabled | src/Services/Compiler.php:356-357 | the lexemes that reach a table contain no comment |
| Tables.RecordKeepsAddresses | src/Services/Compiler.php:323-355 | recording keeps every address pointing into its table and only extends the tables; it adds one address exactly when the lexeme reaches a table, and that address leads back to the lexeme's text |
| Tables.RecordKeepsOutput | src/Services/Compiler.php:360-382 | recording keeps the realtime output well formed: header only first and only in header mode, no service label, no comment rows when comments are hidden |
| Tables.RecordTable | src/Services/Compiler.php:323-355 | recording one lexeme extends its type's table by its text and leaves the other tables alone |
| Tables.RecordAllTable | src/Services/Compiler.php:323-355 | recording many lexemes extends one type's table by exactly the texts of that type, in order |
| Tables.RecordAllTables | src/Services/Compiler.php:315-358 | after recording many lexemes each of the four tables is its old contents followed by the texts of its type, in scan order |
| Tables.RecordKeepsDeref | src/Services/Compiler.php:296-305 | recording leaves each existing address, and the text it leads to, unchanged |
| Tables.RecordAllKeepsAddresses | src/Services/Compiler.php:315-358 | recording many lexemes keeps every address in range, adds one address per lexeme that reaches a table, and keeps earlier addresses and their texts |
| Tables.RecordKeepsPointsTo | src/Services/Compiler.php:296-305 | a recorded address keeps pointing at its lexeme, and a new address points at the new lexeme |
| Tables.RoundTripStep | src/Services/Compiler.php:323-355 | if the addresses from some position on point at a run of lexemes, recording one more lexeme extends that run by it when it reaches a table |
| Tables.RecordAllRoundTrip | src/Services/Compiler.php:296-305 | round trip: the k-th address added, dereferenced into its table, gives the k-th non-comment lexeme's text, in a table of its type |
| Tables.RecordAllAppend | src/Services/Compiler.php:54-64 | the tables persist across scans: recording two scans' lexemes one after the other equals recording them as one sequence |
| Tables.RecordSameTables | src/Services/Compiler.php:315-358 | what recording does to the tables depends only on the tables, and a comment leaves them alone |
| Tables.CommentsNeverTabled | src/Services/Compiler.php:315-358 | the tables and the standard table are exactly those obtained by recording only the non-comment lexemes |
| Tables.RecordAllKeepsOutput | src/Services/Compiler.php:360-382 | recording many lexemes keeps the realtime output well formed |
| Services.Compiler.constructor | src/Services/Compiler.php:54-64 | a new scanner keeps its configuration and classes and has empty tables, standard table and output |
| Services.Compiler.Scan | src/Services/Compiler.php:66-260 | the scan returns success or the first error as Lex says, and the state afterwards is the old state with exactly the lexemes Lex emits recorded in order, even when the scan fails |
| Services.Compiler.Step | src/Services/Compiler.php:79-256 | one loop pass does what NextMove says and records exactly the lexemes it finalizes |
| Services.Compiler.StepIdentifier | src/Services/Compiler.php:112-144 | an identifier pass does what IdentifierMove says and records what it finalizes |
| Services.Compiler.StepLiteral | src/Services/Compiler.php:145-165 | a literal pass does what LiteralMove says and records what it finalizes |
| Services.Compiler.StepSeparator | src/Services/Compiler.php:166-192 | a punctuation pass does what SeparatorMove says and records what it finalizes |
| Services.Compiler.StepSeparatorEnd | src/Services/Compiler.php:193-253 | the end of a punctuation run does what SeparatorEnd says and records what it finalizes |
| Services.Compiler.StepBlockComment | src/Services/Compiler.php:204-241 | a multi-line comment does what BlockComment says and records what it finalizes |
| Services.Compiler.LineCommentEnd | src/Services/Compiler.php:170-182 | the skipping loop stops at the first carriage return, or at the end of the input |
| Services.Compiler.BlockCommentEnd | src/Services/Compiler.php:211-234 | the search loop finds the first occurrence of the end marker, or none |
| Services.Compiler.AddToken | src/Services/Compiler.php:315-358 | the state afterwards is Record of the state before: a hidden comment is dropped, otherwise the lexeme is echoed and then stored |
| Services.Compiler.StoreInTable | src/Services/Compiler.php:323-357 | the lexeme is appended to its type's table and its address to the standard table |
| Services.Compiler.RealtimeOutput | src/Services/Compiler.php:360-382 | the output and header flag change as Echo says |
| LexerProps.IdentifierMoveOk | src/Services/Compiler.php:112-144 | an identifier being built keeps its shape, and only a service word or an identifier within the length limit is finalized |
| LexerProps.LiteralMoveOk | src/Services/Compiler.php:145-165 | a literal being built stays all digits, and a finalized literal is all digits |
| LexerProps.SeparatorEndOk | src/Services/Compiler.php:193-253 | the end of a run finalizes a multi-line comment delimited by both markers, or a configured operator that is neither comment marker |
| LexerProps.SeparatorMoveOk | src/Services/Compiler.php:166-192 | a run being built stays punctuation, and a finalized single-line comment has no carriage return after its marker |
| LexerProps.NextMoveOk | src/Services/Compiler.php:79-256 | every pass keeps the phase's shape and finalizes only well-classified lexemes |
| LexerProps.RunWellClassified | src/Services/Compiler.php:79-260 | every lexeme the rest of a scan finalizes is well classified for its type |
| LexerProps.LexWellClassified | src/Services/Compiler.php:66-260 | every lexeme of a whole scan is well classified for its type |
| LexerProps.IgnorableSpan | src/Services/Compiler.php:84-111 | with no lexeme under way, a span of characters that start no lexeme is skipped, and the scan goes on after it exactly as if it began there |
| LexerProps.IgnorableSkipped | src/Services/Compiler.php:79-111 | if only characters that start no lexeme remain, the scan succeeds and finalizes nothing |
| LexerProps.IdentifierAt | src/Services/Compiler.php:84-119 | with no lexeme under way, the global-variable symbol or a letter (including '_', which is also punctuation) starts an identifier that takes every letter and digit after it |
| LexerProps.LiteralAt | src/Services/Compiler.php:84-152 | with no lexeme under way, a digit that is neither the global-variable symbol nor a letter starts a literal that takes every digit after it |
| LexerProps.BlankInNoClass | src/Services/SetsUtils.php:24-93 | space, tab, carriage return and full stop are in none of L, D and P |
| LexerProps.BlankInputFinalizesNothing | src/Services/Compiler.php:79-111 | with the standard classes, an input of spaces, tabs, carriage returns and full stops, none of them the global-variable symbol, scans successfully and finalizes nothing |
| LexerProps.IdentifierMunch | src/Services/Compiler.php:112-119 | letters and digits after an identifier's start are all taken, greedily |
| LexerProps.IdentifierLexeme | src/Services/Compiler.php:112-144 | how an identifier ends: dropped at the end of input; at P or E finalized as a service word, rejected as too long, or finalized as an identifier, with the terminator left in place; anything else is InvalidIdentifier |
| LexerProps.LiteralMunch | src/Services/Compiler.php:145-152 | digits after a literal's start are all taken, greedily |
| LexerProps.LiteralLexeme | src/Services/Compiler.php:145-165 | how a literal ends: dropped at the end of input; at P or E finalized with the terminator left in place; anything else is InvalidLiteral naming the literal and that character |
| LexerProps.SeparatorMunch | src/Services/Compiler.php:186-192 | punctuation is taken greedily until the run spells the single-line marker |
| LexerProps.SeparatorEndCases | src/Services/Compiler.php:193-253 | the end of a run is a multi-line comment exactly when the run and the next characters spell the start marker; otherwise a configured operator is finalized, and any other run is InvalidOperator |
| LexerProps.StartCandidateMatches | src/Services/Compiler.php:196-204 | the start-marker candidate matches exactly when the run and the next characters spell the marker |
| LexerProps.SeparatorEndsAt | src/Services/Compiler.php:193-259 | a complete punctuation run is dropped at the end of input, opens a multi-line comment when it and the next characters spell the start marker, is finalized as a separator when it is a configured operator, and is InvalidOperator otherwise |
| LexerProps.SeparatorLexeme | src/Services/Compiler.php:166-259 | a whole punctuation run, taken greedily, ends as SeparatorEndsAt says, with the scan going on from its end; a run still open at the end of input is dropped and the scan succeeds |
| LexerProps.PunctuationStarts | src/Services/Compiler.php:84-105 | with no lexeme under way, a punctuation character that is not the global-variable symbol, a letter or a digit starts a punctuation run |
| LexerProps.PunctuationRun | src/Services/Compiler.php:84-192 | punctuation met with no lexeme under way is taken as one run up to where it would pass the single-line marker |
| LexerProps.LineCommentAt | src/Services/Compiler.php:166-185 | once the run is the single-line marker, the comment takes everything up to the next carriage return, which stays in place, and is finalized; without one it is dropped and the scan succeeds |
| LexerProps.LineComment | src/Services/Compiler.php:84-185 | a single-line marker met with no lexeme under way opens a comment that is finalized up to the next carriage return, or dropped with the scan succeeding when the input ends first |
| LexerProps.IgnorableInputFinalizesNothing | src/Services/Compiler.php:79-111 | with the standard classes, an input made only of characters of E (space, backspace, line feed, carriage return), none of them the global-variable symbol, scans successfully and finalizes nothing |
| ScanProps.OneWord | src/Services/Compiler.php:84-144 | a word of letters followed by an ignorable character is a service word if configured, else IdentifierTooLong beyond the limit, else an identifier |
| ScanProps.OneWordIn | src/Services/Compiler.php:84-144 | the same for any classes: a word of L-characters followed by one character of E that starts no lexeme |
| ScanProps.RecordFirstWord | src/Services/Compiler.php:323-339 | the first service word or identifier a fresh scanner records is the only entry of its table, at address (1, 0) or (2, 0) respectively |
| ScanProps.OneWordTables | src/Services/Compiler.php:315-339 | a fresh scanner records such a word at address (1, 0) or (2, 0) in the matching table and nothing else, or nothing when it is too long |

## Left out

- printResult, printTable and printStandardTable are left out. They only
  format the final tables as text. The address dereferencing they rely on
  is proved (`Tables.RecordAllRoundTrip`).
- Log output is left out. Each error message is modelled as a `ScanError`
  value, and the source's `null` result as `Failure`.
- The text of the realtime output is left out: the header line and the
  tab-separated rows. It is modelled as a trace of `Header` and `Row(text,
  shown type)` entries.
- Loading the configuration, reading input files and the command-line entry
  point are left out. The configuration is a parameter (`Lexer.Config`).
- prepareInputFileData splits the input into bytes; the model treats each
  character of a `string` as one byte. Multi-byte characters, and `strlen`
  counting their bytes, are not modelled.
- The `array_shift`/`array_slice` updates of the input buffer are modelled
  by a cursor into the unchanged input. The lexemes, errors and table
  contents are the same.
- Tables.TableByNumber: a table number outside 1..4 is not modelled. The
  scanner only ever uses the numbers of its own map.
- The entry point passes the output mode as an extra constructor argument,
  and the constructor ignores it. The configured mode is read from the
  decoded configuration file as a plain value, so it never equals an enum
  case, and the deployed program never echoes. The model takes the mode
  as an enum-valued configuration field, so it models realtimeOutput as
  the code intends when a real enum case is configured.
