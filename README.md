# A verified model of the pigeon PEG parser of `parser/parser.go`

`parser/parser.go` is a parser generated by pigeon from a small PEG grammar.
A *sample* is a run of identifiers, keywords and spacing. A keyword is an
identifier in braces, with optional spacing inside. Parsing a sample returns
its list of tokens.

The file holds two things:

- **The grammar.** It is a table of rules whose expression trees are
  evaluated at runtime, plus the Go action callbacks that build tokens.
- **The interpreter.** It is the same generic engine pigeon emits for every
  grammar:
  - a cursor that decodes UTF-8 one rune at a time, which can be saved and
    restored;
  - one evaluation method per expression kind (sequence, ordered choice,
    repetitions, lookaheads, labels, actions, code predicates, literals,
    character classes, `.`, rule references);
  - an optional packrat memo table keyed by input offset and node;
  - a stack of label scopes and a stack of running rules;
  - a farthest-failure record that turns a silent failure into a
    "no match found, expected: …" diagnostic;
  - an error list that is deduplicated by message before it is returned.

The model is split into these Dafny modules:

- `Values`: bytes, positions, savepoints, the dynamic values.
- `Utf8`: `utf8.DecodeRune` written out after Go's rules, and lower-casing.
- `Cursor`: `read`, `restore`, `sliceFrom` on values.
- `Matchers`: the rune tests of literals, classes and `.`, and the literal
  loop both as written and as corrected (see Findings).
- `Grammar`: the expression datatype and the rules table.
- `Failure`: `failAt` as a fold over every report, and its correctness.
- `Memo`: the memo table.
- `Text`: `%d`, `strings.Join`, `listJoin`, `sort.Strings`.
- `Errors`: `parserError`, `errList` and its dedupe, the no-match diagnostic.
- `Semantics`: a reference evaluator. It has one recursive function per
  `parse*` function (`Eval`, `EvalKind`, `EvalSeq`, `EvalAlts`, `EvalStar`,
  `EvalRule`, …) over `St`, an immutable record of the parser's mutable
  fields, and the predicate `ParseOutcome` that says what `parse` returns.
- `Engine`: the `parser` struct as a class, with one method per `parse*`
  function and `parse` itself.
- `Laws`: the promises of PEG evaluation, proved about `Semantics`: ordered
  choice, sequences, repetitions, options, lookaheads, actions and the memo.
- `TokenGrammar`: the concrete grammar, its actions, and facts about it.
- `SampleRuns` and `SampleScenarios`: what this grammar's parser yields, from
  the token one rule produces up to whole parses of small inputs.

The parser struct is a `class Parser`. Its fields are the cursor, the scope
stack, the rule stack, the memo, the fail record and the error list, and its
methods update them in place. `Parser.State()` collects these fields into
one `Semantics.St` value. Every evaluation method is proved to compute its
`Semantics` function exactly, for example

    ensures Res(v, ok, State()) == EvalSeq(Environment(), e, old(State()), fuel)

so the value, the verdict and the whole new state are those of the
reference evaluator. The loops (`ParseChoiceExpr`, `MatchItems`, the two
repetitions, `MatchRunes`) carry as invariant that the rest of the loop
computes what the function computes from the same point. What the
combinators promise is then proved once, about the functions, in `Laws`,
and it holds of the methods through these equalities.

Every `Semantics` evaluation function also ensures the relation
`Semantics.Follows` between the state before and after:

- errors are only appended;
- the rules, the rule stack and the inversion flag return to what they were;
- the outer scope frames are untouched;
- the cursor never moves back, and if it ends at the same offset it is the
  same cursor;
- a failure yields nil and leaves the cursor exactly where it started;
- a stopped parse stays stopped.

The fourth and fifth facts hold because the literal matcher uses the
corrected rune step described under Findings; with the loop as written, a
literal containing U+FFFD can match at the end of the input and move the
column without moving the offset.

The invariant `Semantics.Inv` (`Parser.Valid`) is kept by every method:

- the cursor agrees with the bytes;
- every memo entry is a result an evaluation can produce;
- the fail record equals `Failure.FailAll` over the ghost list of every
  report made so far.

`Failure.FarthestFailure` then says what that record holds.

## Where the code and its design disagree

The model follows the code in each case.

- Memoization is meant to be transparent: for side-effect-free actions,
  parsing with and without the memo should give the same value and errors.
  The code does not keep this. A memo hit (`parser/parser.go` lines 928-933, and 901-907 for rules)
  restores the cursor and returns the stored value, but it does not redo
  the label bindings of the replayed expression. `Laws.MemoSkipsLabel`
  proves this in general. An example, worked out by hand and not executed:
  with `S <- &R " " R` and `R <- " "* x:"b" { return x }` on the input
  `" b"`, the lookahead evaluates `x:"b"` at offset 1 and stores it. The
  second `R` then replays `x:"b"` at offset 1, so its action sees `x` as nil
  with memoization, and `"b"` without it.
- The input `"   "` (spacing only) is meant to be the "empty sample" error.
  In the code the repetition in `Sample` matches the spacing once, so the
  callback sees a non-empty list and returns an empty token list with no
  error. `SampleScenarios.ThreeSpacesTokens` proves this result.
- The input `"{"` is meant to fall back to reading the brace as identifier
  text. In the code the `Identifier` class excludes `{` (`parser/parser.go` line 232), so no
  alternative reads it. The repetition matches nothing, and the result is
  the "empty sample" error at 1:1. `SampleScenarios.OpenBraceTokens` proves
  this result.

## Model

| member | source | states |
|---|---|---|
| Utf8.DecodeRune | parser/parser.go:766 | width 0 exactly at end of input, where the rune is U+FFFD; otherwise 1 to 4 bytes within the input; a width-1 result is an ASCII byte or U+FFFD (a malformed byte); the rune is always a scalar value |
| Utf8.DecodeEncode | parser/parser.go:766 | decoding the UTF-8 encoding of any scalar value gives that value and the encoding's length back, whatever bytes follow |
| Utf8.ToLower | parser/parser.go:1150-1152 | upper-case ASCII letters move down by 32, every other rune is unchanged |
| Cursor.Advance | parser/parser.go:764-780 | `read` moves the offset by the current width and decodes the rune there, so the cursor again agrees with the input; a newline goes to the next line at column 0, otherwise the column grows by one; the width is 0 exactly at end of input |
| Cursor.CursorOkCanAdvance | parser/parser.go:764-767 | a cursor that agrees with the input can always be read: offset plus width stays within the input, width 0 means end of input, and any rune other than U+FFFD has a non-zero width |
| Cursor.AdvanceProgress | parser/parser.go:764-767 | a read that does not start at end of input strictly advances the offset |
| Cursor.AdvanceAtEnd | parser/parser.go:764-780 | a read at end of input keeps the offset and the end sentinel, moves the column by one, and reports no encoding error |
| Cursor.Restore | parser/parser.go:783-791 | the offset becomes the savepoint's; a savepoint at the current offset leaves the cursor unchanged, any other one replaces it |
| Cursor.Span | parser/parser.go:794-796 | the slice has length `to - from` and its i-th byte is input byte `from + i` |
| Cursor.SpanIsSlice | parser/parser.go:794-796 | the slice equals `data[from..to]` |
| Cursor.ReadN | parser/parser.go:764-780 | after any number of reads the cursor still agrees with the input and has not moved back |
| Cursor.ReadNNext | parser/parser.go:764-780 | the (n+1)-th read is one `read` from where n reads left the cursor, and it stays within the input |
| Matchers.StepsMatchAll | parser/parser.go:1148-1159 | the literal loop's first n steps succeed exactly when each of the first n runes, read in turn, equals the literal's rune at that index |
| Matchers.StepsMatchAdvance | parser/parser.go:1148-1159 | after n matched runes the cursor is at least n bytes further on |
| Matchers.LitFromSteps | parser/parser.go:1148-1159 | after i matched steps, matching the rest succeeds exactly when all steps match, and then ends where as many reads as the literal has runes end |
| Matchers.FirstMismatch | parser/parser.go:1153-1156 | a literal that does not match has a first rune that differs, all runes before it matching |
| Matchers.LitMatchSteps | parser/parser.go:1137-1162 | a literal matches from a cursor exactly when every rune matches in turn; it then ends after one read per rune, at least one byte per rune further on; otherwise there is a first mismatching rune |
| Matchers.ReplacementLiteralMatchesAtEnd | parser/parser.go:1148-1159 | as written, a literal step for U+FFFD matches the end-of-input sentinel; the read that follows keeps the offset, so `restore` to the literal's start does not give the start back (see Findings) |
| Matchers.LitRuneMatchesConsumes | parser/parser.go:1148-1159 | as corrected, a literal step never matches at end of input, and every step that matches advances the offset |
| Matchers.LitFromAgreement | parser/parser.go:1148-1159 | the loop as written and the corrected loop give the same result unless the written one accepts the end-of-input sentinel for a rune of the literal; then that rune is U+FFFD and the corrected loop fails |
| Matchers.ReplacementLiteralAtEnd | parser/parser.go:1148-1159 | at the end of the input the literal "\uFFFD" matches as written, ending one read further on, and fails as corrected |
| Matchers.ListedIn | parser/parser.go:1058-1095 | the three searches (chars, then ranges, then Unicode classes) report a hit exactly when the rune is in one of the three lists |
| Matchers.InvertedClassMatches | parser/parser.go:1042-1104 | no class, inverted or not, matches the end sentinel; an inverted class matches a real rune exactly when the (folded) rune is in no char, range or category of the class |
| Matchers.Quote | parser/parser.go:1146 | `%q` of a literal: its text between double quotes |
| Matchers.LitDescriptor | parser/parser.go:1142-1146 | the descriptor starts with the quoted text and has one more character, `i`, exactly when the literal ignores case |
| Grammar.RulesTableKeys | parser/parser.go:822-827 | the name table holds exactly the names of the grammar's rules |
| Grammar.RulesTableLast | parser/parser.go:822-827 | a rule whose name no later rule repeats is the entry for its name |
| Grammar.RuleLabel | parser/parser.go:733-738 | an error names the running rule by its display name if it has one, otherwise by its name |
| Failure.Descriptor | parser/parser.go:756-758 | under inversion the descriptor is the wanted text prefixed with `!`, otherwise the text itself |
| Failure.FailAllSnoc | parser/parser.go:744-761 | the fail record after one more report is one more `failAt` step on the record before it |
| Failure.FarthestOffset | parser/parser.go:744-761 | the farthest offset is at least the start, no recorded report lies beyond it, and it is the start or the offset of a recorded report |
| Failure.FarthestFailure | parser/parser.go:744-761 | after any series of reports, `maxFailPos` holds the farthest offset of a recorded report, and `maxFailExpected` holds exactly the descriptors recorded there (plus the initial ones if nothing went farther) |
| Memo.MemoGet | parser/parser.go:798-808 | a lookup hits exactly when the offset has a row and the row has the node |
| Memo.MemoPut | parser/parser.go:810-820 | after storing, the lookup for (offset, node) gives the stored result and every other lookup is unchanged |
| Text.NatToString | parser/parser.go:728 | `%d` of a natural number is a non-empty run of decimal digits |
| Text.ParseNatToString | parser/parser.go:728 | reading the digits back gives the number, so `%d` loses nothing |
| Text.ListJoinShape | parser/parser.go:885-894 | for two or more items the text starts with the first item, ends with the last, and is as long as the items plus the separators and ` lastSep ` |
| Text.ListJoinExamples | parser/parser.go:885-894 | no item gives "", one item gives itself, two give `a or b`, three give `a, b or c` |
| Text.ListJoinSplit | parser/parser.go:885-894 | for two or more items whose text holds no separator character, splitting the joined text at the separator gives the items back: the first one, each middle one behind the rest of the separator, and the last one behind ` lastSep ` |
| Text.SortStrings | parser/parser.go:871-874 | the result is strictly ordered byte-wise and holds each key of the set exactly once |
| Errors.PrefixShape | parser/parser.go:720-742 | the error prefix starts with `file:` when there is a file name, or with `line:col (offset)` when there is none; it ends with `: rule <name>` when a rule is running, otherwise with the position's `)` |
| Errors.PrefixSplits | parser/parser.go:720-742 | when neither the file name nor the rule name holds a colon, splitting the prefix at colons gives back the file name, the line, the column with the offset, and the rule |
| Errors.ErrorTextIsJoin | parser/parser.go:570-586 | `errList.Error` is the messages joined by newlines |
| Errors.ErrorTextSplits | parser/parser.go:570-586 | when no message contains a newline, splitting the error text at newlines gives back the messages, in order |
| Errors.DedupeSingleton | parser/parser.go:558-568 | a single error survives dedupe as it is |
| Errors.DedupeKeys | parser/parser.go:558-568 | dedupe keeps every message not already seen, and no message twice |
| Errors.DedupeFirst | parser/parser.go:558-568 | every kept error is the first error in the list with its message |
| Errors.DedupeOrder | parser/parser.go:558-568 | kept errors appear in the order of their messages' first occurrences |
| Errors.DedupedDistinct | parser/parser.go:558-568 | no two errors dedupe keeps share a message |
| Errors.DedupeKeepsFirst | parser/parser.go:558-568 | dedupe keeps the same set of messages, each once, each carried by its first occurrence, in order of first occurrence |
| Errors.Dedupe | parser/parser.go:558-568 | the loop with its `seen` set computes the first-occurrence list, so no two kept errors share a message |
| Errors.ExpectedFor | parser/parser.go:865-877 | the expected list is the descriptors other than `!.`, sorted and each once, followed by `EOF` when `!.` was among them; it is as long as the descriptor set |
| Engine.Parser.constructor | parser/parser.go:604-617 | a new parser is at line 1 before the first rune, with no errors, an empty memo, empty stacks, a fail record at 1:1 with nothing expected, and the given options |
| Engine.Parser.AddErrAt | parser/parser.go:720-742 | exactly one error is appended, carrying the message, the position, the expected list, the file name and the running rule |
| Engine.Parser.AddErr | parser/parser.go:716-718 | `addErrAt` at the cursor's position with no expected list |
| Engine.Parser.FailAt | parser/parser.go:744-761 | the fail record takes one `Failure.FailAt` step; the report is logged and the record still equals the fold over all reports |
| Engine.Parser.Read | parser/parser.go:764-780 | the cursor takes one `Advance` step; an "invalid encoding" error is appended exactly when the new rune is a malformed byte |
| Engine.Parser.Restore | parser/parser.go:783-791 | the cursor becomes `Cursor.Restore` of the old cursor and the savepoint |
| Engine.Parser.SliceFrom | parser/parser.go:794-796 | the slice's length is the distance from the savepoint to the cursor |
| Engine.Parser.SetMemoized | parser/parser.go:810-820 | the memo becomes `MemoPut` of the old memo, and it still holds only possible results |
| Engine.Parser.PushV | parser/parser.go:665-684 | one empty scope frame is pushed |
| Engine.Parser.PopV | parser/parser.go:686-694 | the innermost frame is dropped |
| Engine.Parser.BuildRulesTable | parser/parser.go:822-827 | the table has exactly the grammar's rule names; a rule whose name no later rule repeats is the entry for it; the table is `Grammar.RulesTable` of all the rules |
| Engine.Parser.Accept | parser/parser.go:1033-1036 | a single-rune success reads one rune, yields the bytes read, reports success at the start, and keeps the invariant |
| Engine.Parser.Replay | parser/parser.go:928-933 | a memo hit restores the cursor to the stored end and returns the stored value and verdict, as `Semantics.Replayed` gives them; a miss changes nothing |
| Engine.Parser.RunRule | parser/parser.go:909-914 | equals `Semantics.EvalRuleBody`: the body runs with the rule pushed on the rule stack and a fresh frame, and afterwards both stacks are popped |
| Engine.Parser.ParseRule | parser/parser.go:896-923 | equals `Semantics.EvalRule`: with memoization a stored result is replayed, otherwise the body is run and its result stored at the start offset under the rule |
| Engine.Parser.ParseExpr | parser/parser.go:925-978 | equals `Semantics.Eval`: a stopped parse fails at once; with memoization a stored result is replayed; otherwise the expression is evaluated |
| Engine.Parser.EvalExpr | parser/parser.go:937-977 | equals `Semantics.EvalFresh`: evaluates by kind and, with memoization, stores (value, verdict, end cursor) at the start offset; out of fuel, the parse stops |
| Engine.Parser.Dispatch | parser/parser.go:940-973 | equals `Semantics.EvalKind`: each expression kind goes to its own evaluation |
| Engine.Parser.Panic | parser/parser.go:1218-1220 | the parse stops, with the fault recorded at the cursor under the running rule |
| Engine.Parser.RunAction | parser/parser.go:988-994 | equals `Semantics.Acted`: the callback sees the match start, the matched text and the innermost frame; its value is the result; an error it returns is appended at the match start; a panic stops the parse with the fault recorded |
| Engine.Parser.ParseActionExpr | parser/parser.go:980-1000 | equals `Semantics.EvalAction`: the child is matched, then the callback runs; `Laws.ActionErrorKeepsMatch` proves that a callback error keeps the match a success with the callback value and the cursor after the match |
| Engine.Parser.RunPredicate | parser/parser.go:1007-1010 | equals `Semantics.Asked`: the verdict is the predicate's; an error it returns is appended at the cursor; a panic stops the parse |
| Engine.Parser.ParseAndCodeExpr | parser/parser.go:1002-1012 | equals `Semantics.EvalAndCode`: consumes nothing, yields nil, and succeeds exactly when the predicate says yes |
| Engine.Parser.ParseNotCodeExpr | parser/parser.go:1164-1174 | equals `Semantics.EvalNotCode`: consumes nothing, yields nil, and succeeds exactly when the predicate says no |
| Engine.Parser.ParseAndExpr | parser/parser.go:1014-1025 | equals `Semantics.EvalAnd`; `Laws.LookaheadVerdicts` proves the verdict is the child's, the value nil, and the cursor and scopes are as before |
| Engine.Parser.ParseNotExpr | parser/parser.go:1176-1189 | equals `Semantics.EvalNot`; `Laws.LookaheadVerdicts` proves the verdict is the negation of the child's (run with the inversion flag flipped), the value nil, and the cursor, scopes and inversion flag as before |
| Engine.Parser.ParseAnyMatcher | parser/parser.go:1027-1040 | equals `Semantics.EvalAny`: succeeds exactly when the current rune is not U+FFFD (end of input, a malformed byte, or an encoded U+FFFD), then reads one rune and yields its bytes; reports `.` at the start either way |
| Engine.Parser.ParseCharClassMatcher | parser/parser.go:1042-1104 | equals `Semantics.EvalClass`: succeeds exactly when `ClassMatches` holds for the current rune, then reads one rune and yields its bytes; reports the class at the start either way |
| Engine.Parser.ParseScoped | parser/parser.go:1112-1114 | equals `Semantics.Scoped`: `pushV`, `parseExpr`, `popV`, so the child runs in a frame of its own and the scope stack is as before |
| Engine.Parser.ParseChoiceExpr | parser/parser.go:1106-1120 | equals `Semantics.EvalChoice`; `Laws.ChoiceFirstSuccess` proves the first alternative that succeeds gives the result and later ones are not evaluated, and `Laws.AltsFail` that the choice fails exactly when every alternative fails |
| Engine.Parser.ParseLabeledExpr | parser/parser.go:1122-1135 | equals `Semantics.EvalLabeled`: the child runs in its own frame; on success with a non-empty label the enclosing frame binds the label to the child's value |
| Engine.Parser.MatchRunes | parser/parser.go:1148-1159 | equals `Semantics.LitRun`: the rune loop, with the corrected step, succeeds exactly when `LitFrom` matches the whole literal and then ends at its cursor; only the cursor and the errors change |
| Engine.Parser.ParseLitMatcher | parser/parser.go:1137-1162 | equals `Semantics.EvalLit`: succeeds exactly when the literal matches rune by rune, ending at the cursor `LitFrom` gives and yielding the bytes read; on failure the cursor is back at the start; the descriptor is reported at the start either way |
| Engine.Parser.ParseOneOrMoreExpr | parser/parser.go:1191-1211 | equals `Semantics.EvalOneOrMore`; `Laws.OneOrMoreIsZeroOrMore` proves it fails exactly when its first round fails and otherwise yields the values zero-or-more yields |
| Engine.Parser.ParseZeroOrMoreExpr | parser/parser.go:1249-1265 | equals `Semantics.EvalZeroOrMore`; `Laws.ZeroOrMoreUnfold` proves the values are the first round's value followed by those of the rounds after it, and `Laws.StarRounds` that there is one value per successful round |
| Engine.Parser.ParseZeroOrOneExpr | parser/parser.go:1267-1277 | equals `Semantics.EvalZeroOrOne`; `Laws.ZeroOrOneValue` proves it always succeeds, with the child's value and state |
| Engine.Parser.ParseRuleRefExpr | parser/parser.go:1213-1228 | equals `Semantics.EvalRuleRef`: an empty name stops the parse with the "invalid rule: missing name" fault; an unknown name appends "undefined rule: <name>" and fails; otherwise `EvalRule` of the named rule |
| Engine.Parser.ParseSeqExpr | parser/parser.go:1230-1247 | equals `Semantics.EvalSeq`; `Laws.SeqCons` proves it succeeds exactly when the first child and then the rest succeed, with the first child's value followed by the rest's, and that a failure goes back to the start |
| Engine.Parser.MatchItems | parser/parser.go:1237-1245 | equals `Semantics.EvalItems` from the first child: the children are matched in order, each value is collected, and the loop stops at the first failure |
| Engine.Parser.ReportNoMatch | parser/parser.go:862-878 | appends one error at the farthest failure position, whose message is "no match found, expected: " and the list built from the descriptors recorded there |
| Engine.Parser.Conclude | parser/parser.go:838-882 | out of fuel gives no outcome; a fault gives a crash, or when recovered one more error; a success gives the value; a failure with no errors gets the no-match diagnostic at the farthest failure; the errors returned are deduplicated, so no two share a message |
| Engine.Parser.Parse | parser/parser.go:829-883 | no rules gives the single "grammar has no rule" error at 1:0; otherwise the outcome follows the start rule's verdict as in `Conclude`, with the errors deduplicated |
| Engine.ParseInput | parser/parser.go:437-439 | `Parse` on a new parser: the outcome is `ParseOutcome`, the same as `Engine.Parser.Parse` gives |
| TokenGrammar.OnSample1 | parser/parser.go:288-301 | an empty sample is the "empty sample" error; otherwise the result is the tokens among the matched values |
| SampleRuns.KeywordToken | parser/parser.go:309-311 | `onKeyword2` and its three twins build the value of the `Keyword` rule: a success of the rule in a running parse yields a keyword token (`Tok(Token(true, …))`); `TokenGrammar.KeywordActions` gives its text, that of the identifier bound to `v` |
| SampleRuns.IdentifierToken | parser/parser.go:349-351 | `onIdentifier1` builds the value of the `Identifier` rule: a success of the rule in a running parse yields `Tok(Token(false, text))`, where the text is exactly the bytes it matched |
| TokenGrammar.TokensOfMembers | parser/parser.go:293-299 | the tokens kept are exactly the token items, and there are no more of them than items |
| TokenGrammar.TokensOfAppend | parser/parser.go:293-299 | collecting tokens distributes over concatenation, so their order is kept |
| TokenGrammar.SampleAction | parser/parser.go:288-307 | for the `vs` label, nothing matched gives the "empty sample" error, otherwise the tokens in order, exactly those among the values |
| TokenGrammar.KeywordActions | parser/parser.go:309-347 | all four keyword alternatives turn the identifier bound to `v` into a keyword token with the same text |
| TokenGrammar.IdentifierRunes | parser/parser.go:229-235 | an identifier rune is any real rune except `{`, `}`, space, tab, CR and LF |
| TokenGrammar.WhitespaceRunes | parser/parser.go:277-282 | `_` matches exactly tab, CR and LF |
| TokenGrammar.GrammarClosed | parser/parser.go:39-286 | the grammar has six rules with `Sample` first, and every rule reference names one of them, so no parse reports an undefined rule |
| TokenGrammar.ParseSample | parser/parser.go:437-439 | `Parse` with this grammar and its actions: the outcome is `ParseOutcome` for the grammar; the results for given samples are proved in `SampleRuns` and `SampleScenarios` |
| Semantics.Eval | parser/parser.go:925-978 | every evaluation keeps the invariant and satisfies `Follows`: errors are only appended; the rules, the rule stack and the inversion flag come back; the outer frames are untouched; the cursor never moves back, and at the same offset it is the same cursor; a failure yields nil at the start cursor; a stopped parse stays stopped |
| Semantics.Reported | parser/parser.go:744-761 | one more report keeps the fail record equal to the fold of `failAt` over all reports |
| Semantics.Scoped | parser/parser.go:1111-1114 | the child in a frame of its own: its result, with the scope stack as it was |
| Semantics.Accepted | parser/parser.go:1033-1036 | a single-rune success: the cursor is one `read` further on and strictly past the start, and the value is the bytes in between |
| Semantics.Acted | parser/parser.go:988-994 | a callback that ran leaves the match a success: the cursor, the scopes, the memo and the fail record are unchanged, and errors are only appended |
| Semantics.Asked | parser/parser.go:1007-1010 | a code predicate yields nil and leaves the cursor, the scopes, the memo and the fail record unchanged |
| Semantics.EvalAnd | parser/parser.go:1014-1025 | yields nil and leaves the cursor and the scope stack as they were |
| Semantics.EvalNot | parser/parser.go:1176-1189 | yields nil and leaves the cursor and the scope stack as they were |
| Semantics.LitRun | parser/parser.go:1148-1159 | only the cursor and the errors change; it succeeds exactly when `LitFrom` matches the literal and then ends at `LitFrom`'s cursor; the cursor never moves back, and at the same offset it is the same cursor |
| Semantics.EvalItems | parser/parser.go:1238-1245 | the values already collected prefix the result, and a success adds one value per remaining child |
| Semantics.EvalStar | parser/parser.go:1256-1264 | a repetition loop always succeeds and leaves the scope stack as it was; the values already collected prefix the result; if no round matched, the cursor has not moved |
| Semantics.Run | parser/parser.go:858-860 | the start rule, evaluated after the first rune is read, keeps the invariant and leaves the rule stack empty |
| Laws.AltsAppend | parser/parser.go:1111-1119 | a choice over `alts + more` is the choice over `alts` and, only if that fails, the choice over `more` from the state it left |
| Laws.ChoiceSingle | parser/parser.go:1111-1119 | a choice of one alternative is that alternative in a frame of its own |
| Laws.ChoiceFirstSuccess | parser/parser.go:1111-1119 | if the alternatives before `x` all fail and `x` then succeeds, the choice gives `x`'s result and evaluates no later alternative |
| Laws.AltsFail | parser/parser.go:1111-1119 | a choice fails exactly when every alternative fails, each one tried from the state the one before left |
| Laws.ItemsAcc | parser/parser.go:1238-1245 | the values a sequence collected before a child only prefix those collected from it on |
| Laws.SeqCons | parser/parser.go:1235-1246 | a sequence `x rest` succeeds exactly when `x` succeeds and then `rest` succeeds from where `x` left the cursor; its values are `x`'s value followed by `rest`'s, in order; if either fails, the sequence fails with nil back at its start |
| Laws.SeqEmpty | parser/parser.go:1235-1246 | an empty sequence succeeds with no values and changes nothing |
| Laws.StarAcc | parser/parser.go:1256-1264 | the values a repetition collected so far only prefix the later ones |
| Laws.StarUnfold | parser/parser.go:1256-1264 | one round: if the child fails the loop ends with the values it has; otherwise the child's value comes first and the loop goes on from where the child left the cursor |
| Laws.ZeroOrMoreUnfold | parser/parser.go:1249-1265 | `e*` is `e e*` or nothing: a child that fails at once gives an empty list; otherwise the list is the child's value followed by the rest's |
| Laws.OneOrMoreIsZeroOrMore | parser/parser.go:1191-1211 | one-or-more leaves the state zero-or-more leaves; it fails exactly when zero-or-more collects no value, otherwise both yield the same values; with fuel it fails exactly when its first round fails |
| Laws.StarRounds | parser/parser.go:1256-1264 | a repetition collects at most one value per round of its budget; short of the budget, it collects no value exactly when the first round fails |
| Laws.ZeroOrOneValue | parser/parser.go:1267-1277 | `e?` always succeeds, with the child's value and state; when the child fails the value is nil and the cursor has not moved |
| Laws.LookaheadVerdicts | parser/parser.go:1014-1025 | `&e` has the child's verdict and `!e` (lines 1176-1189) the negation of it, the child run with the inversion flag flipped; neither yields a value or moves the cursor, both leave the scopes as they were, and `!e` restores the flag |
| Laws.ActionErrorKeepsMatch | parser/parser.go:987-995 | a callback that returns an error still matches: the value is the callback's, the error is appended at the start of the match, and the cursor stays after the match |
| Laws.ActionPanicStops | parser/parser.go:988-994 | a callback that panics stops the parse with the fault recorded at the end of the match, appends no error, and still counts as matched |
| Laws.StoppedEvaluatesNothing | parser/parser.go:838-856 | once a panic has stopped the parse, every evaluation fails and leaves the state exactly as it was, as the unwinding to the recover handler does |
| Laws.MemoStores | parser/parser.go:974-976 | with memoization a fresh evaluation stores its value, verdict and end cursor under its start offset and node |
| Laws.MemoReplays | parser/parser.go:928-933 | evaluating again at the offset of a stored result replays it: same value and verdict, the cursor at its end, nothing else changed |
| Laws.MemoSkipsLabel | parser/parser.go:928-933 | a labeled expression whose fresh evaluation binds its label is replayed at the same offset with the same value and verdict but binds nothing |
| SampleRuns.BracedToken | parser/parser.go:309-347 | a keyword alternative that matched in a running parse yields a keyword token |
| SampleRuns.EmptySample | parser/parser.go:288-301 | the empty input gives nil and the single "empty sample" error at line 1, column 1, in rule "sample" |
| SampleScenarios.IdentifierAt | parser/parser.go:220-237 | over ASCII input `Identifier` matches exactly the run of bytes at the cursor that are not braces or spacing, when there is one, and yields it as a plain token, with no error |
| SampleScenarios.KeywordAt | parser/parser.go:74-219 | `Keyword` matches "{" identifier "}" and yields the identifier's text as a keyword token, with no error |
| SampleScenarios.KeywordPadded | parser/parser.go:74-219 | `Keyword` matches a keyword with spacing inside the braces and yields the identifier's text as a keyword token |
| SampleScenarios.KeywordNotOpen | parser/parser.go:74-219 | where there is no "{", `Keyword` fails without error and without moving the cursor |
| SampleScenarios.KeywordBare | parser/parser.go:74-219 | on a "{" followed by neither an identifier nor spacing, `Keyword` fails without error |
| SampleScenarios.SampleBody | parser/parser.go:40-73 | `Sample` hands the repetition's values to its callback: nothing matched gives nil and the "empty sample" error at the start, otherwise the tokens among the values |
| SampleScenarios.FooBarBazTokens | parser/parser.go:40-286 | "foo {bar} baz" gives the plain token "foo", the keyword token "bar" and the plain token "baz", in order, with no error |
| SampleScenarios.ThreeSpacesTokens | parser/parser.go:288-301 | "   " gives an empty token list with no error, because the repetition matched the spacing |
| SampleScenarios.OpenBraceTokens | parser/parser.go:288-301 | "{" gives nil and the single "empty sample" error at line 1, column 1, in rule "sample" |
| SampleScenarios.PaddedBarTokens | parser/parser.go:40-286 | "{ bar }" gives the single keyword token "bar", with no error |

## Left out

- Debug tracing (`print`, `in`, `out` and the `p.debug` branches) is not modelled. It only writes to standard output.
- The `exprCnt` statistics counter is not modelled. Nothing reads it.
- `ParseFile` and `ParseReader` are not modelled. They are file and reader I/O around `Parse`.
- The Go `ParseSample` at lines 24-37 is not modelled. It rewraps the errors and asserts the result type. `TokenGrammar.ParseSample` models `Parse` with this grammar.
- The options are plain constructor flags. `Memoize` and `Recover` are flags; `Debug` is dropped. The closures that return the previous setting are not modelled.
- Termination is bounded by a `fuel` parameter. Running out sets the parse to stopped, and it yields no outcome (`Exhausted`). The source instead loops or overflows its stack, for example on an empty-matching repetition or on left recursion.
- A panic and its recovery are a halt state. The panic is recorded when raised, at the cursor and with the rule running then, because the Go stack unwinds without popping. Evaluation then stops, and `parse` adds the error (recover) or yields a crash (no recover).
- The "unknown expression type" panic is not modelled. The expression datatype is closed.
- The message of a non-error panic value is taken as given. Its `%v` rendering is not modelled.
- Actions and code predicates are tables passed in as parameters. They see the current match and the innermost scope frame, not the whole parser.
- Node identity in the memo (Go pointers) is a node id carried by each node. `TokenGrammar.G` does not prove its ids distinct.
- `Utf8.ToLower` lowers ASCII letters only. `unicode.ToLower` covers all of Unicode.
- Unicode category tables (`unicode.Is`) are data: a list of strided ranges per table. The R16/R32 layout and `LatinOffset` are not modelled.
- `Matchers.Quote` adds the quotes but does not escape as `%q` does.
- `pushV` reusing a spare slot's empty map, and `popV` clearing maps for the collector, are allocation details. They are modelled as pushing and dropping a value frame.
- Integers are unbounded. Go's `int` offsets do not overflow for any input that fits in memory.
- `errList.err` returning `nil` is modelled as an empty error list.
- Engine.Parser.ReportNoMatch: it does not delete `!.` from the fail record as line 868 does. Nothing reads the record after `parse`.
- Engine.Parser.MatchRunes: it runs the corrected rune step (`Matchers.LitRuneMatches`, which refuses the end of input), not the loop as written at lines 1148-1159. A literal containing U+FFFD therefore fails at the end of the input in the model, where Go's loop matches it and moves the column (see Findings and `Matchers.LitFromAgreement`).
- Engine.Parser.ParseLitMatcher: the same correction, through `MatchRunes`. The two cursor facts of `Semantics.Follows` (same offset means same cursor, and a failure leaves the cursor where it started) depend on it.
- Memoization transparency is not promised, because the code does not keep it: a memo hit does not redo label bindings (`Laws.MemoSkipsLabel`; see "Where the code and its design disagree").

## Findings

| source | as written | input that shows it | evidently intended | confidence | as-written member | corrected member |
|---|---|---|---|---|---|---|
| parser/parser.go:1148-1159 | the literal loop compares the current rune with the wanted one and reads on, without excluding end of input, where the current rune is the U+FFFD sentinel | a literal `"�"` tried at end of input: it succeeds without consuming a byte, and the read moves the column, so a later `restore` to its start offset keeps the moved column | a literal never matches at end of input, just as `.` and character classes refuse the sentinel, and every matched rune consumes input | not executed | Matchers.ReplacementLiteralMatchesAtEnd | Matchers.LitRuneMatchesConsumes |
