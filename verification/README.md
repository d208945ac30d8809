# Tacet: a model in Dafny

Tacet is a local assistant shell around small language models. This project models the parts of
it that are state machines over streams, loops over unbounded input, or exact arithmetic, and
proves for all inputs what the programs are meant to guarantee there.

| area | modules | from |
|---|---|---|
| the filter that strips tool calls out of a token stream | `CallFilter`, `CallFilterHeld`, `CallFilterJson` | `crates/tacet-cli/src/filter.rs` |
| the streaming markdown formatter and its tables | `Terminal`, `Table`, `TableLines`, `Formatter`, `FormatterObject`, `FormatterSafety`, `FormatterReadBack`, `FormatterHeld`, `FormatterForms`, `FormatterSpans` | `crates/tacet-cli/src/format.rs` |
| the chat turn: passes, history, the tools it starts, SIGINT, the repetition guard | `TurnLoop`, `ToolRuns`, `Interrupt`, `RepetitionGuard` | `crates/tacet-cli/src/chat.rs`, `crates/tacet-tools/src/executor.rs` |
| the slot classifier: two folds, the wire between them, hashed n-grams, int8 weights | `Utf8`, `Fold`, `FoldWords`, `Transport`, `TransportLimit`, `Bits`, `Classifier`, `ClassifierHash`, `ClassifierSums`, `Quantise` | `esp32/` |
| the fallback key | `Bits`, `FallbackKey` | `crates/tacet-cli/src/addon.rs` |
| discovery of model packages | `Sorting`, `ModelScan`, `ModelScanFolders` | `crates/tacet-cli/src/engine_setup.rs` |
| pairing two evaluation reports | `EvalCompare` | `crates/tacet-cli/src/eval_cmd.rs` |

Code that updates fields in place is a class (`CallFilter.CallFilter`,
`FormatterObject.StreamFormatter`, `Classifier.Device`, `TurnLoop.Session`, `ToolRuns.ToolExecutor`,
`RepetitionGuard.Guard`) or a method with loops over an array; each method is tied to a
specification function, and the properties are lemmas about that function. The filter has a
second, whole-text definition (`Visible`) that knows nothing of chunks or states; the streaming
machine is proved to refine it. Terminal output is a sequence of tokens, a character or a style
code, and a small terminal (`Terminal.Draws`) replays it.

`dafny verify dfyconfig.toml` checks everything.

## Where the code differs from what is said about it

- `crates/tacet-cli/src/format.rs:51-54` says that at most sixteen characters are held at a line
  start and that only whitespace lines reach that cap. Both halves fail. Outside a code block the
  cap decides a line exactly when its first sixteen characters are blanks, or blanks and then a
  beginning that could still become a structure (`CapDecidesIff`): a list item behind fifteen
  blanks is read as plain text (`DeepItemIsPlain`). Inside a code block the branch at lines 285-289
  comes before the cap is looked at: over every stream, sixteen characters or more are held if
  and only if it stands inside a code block, in a line that long that could still become the
  fence (`HeldPastCapIff`), and there is then no bound (`CodeBlockPrefixIsUnbounded`).
- `crates/tacet-cli/src/filter.rs:42-44` says an over-long buffer is printed raw. The `name(` that
  opened it and the blanks in front are not in the buffer and stay hidden:
  `LongJsonCallIsReleased`.
- `crates/tacet-cli/src/chat.rs:1014-1017` and 1603-1612 expect a turn that spends every pass on
  calls and never settles. The last pass never executes (1524-1533), so every turn settles and
  the branch at 1613-1632 is dead: `EveryTurnSettles`.
- `crates/tacet-cli/src/chat.rs:1553-1566` says a repeated call ends the tool phase. The next pass
  is offered no tools, but what it writes is still handed to the executor unless it is the last. No
  tool starts in a pass that is offered none if and only if no pass reached after a cut-off or a
  repeated call is a call that stands at the gates and was not started before in the turn
  (`ToolPhaseEndsIff`); so it holds whenever such passes answer in prose (`ProseEndsToolPhase`).
  `WithdrawnToolsCanStillRun` is a turn the executor can have, where another tool starts.
- `crates/tacet-tools/src/executor.rs:853-856` says the tool never ran when approval is denied or
  the turn was cancelled. The code returns both reasons after a run as well (1383, 1394, 1537), so
  the reason alone does not say whether a tool started: `StartedByReason` gives what it does say,
  `StartedIff` the gates that decide it.
- `crates/tacet-cli/src/chat.rs:1889-1892` describes a SIGINT between turns as ending the process.
  The handler reads one flag and then swaps another; delivered on a second thread it can be
  overtaken by the end of the turn in between (`AnOvertakenHandlerAbsorbsOutside`). It is absorbed
  with no turn running if and only if the turn it saw has ended, none has begun since, and the flag
  is unset (`AbsorbedOutsideIff`, and over a whole run `NoneAbsorbedOutsideIff`).
- `esp32/train_slots.py:142-143` says quantising keeps the argmax identical. For a text it is
  guaranteed to, over all heads of a scale, if and only if the winner leads by more than one scale
  step per n-gram (`MarginIsExact`); `QuantisingCanChangeTheWinner` is a concrete head where it does
  not.
- `esp32/slots.c:80` is dead: the flag `space` always agrees with the last byte written, which
  the loop invariant of `FoldInto` and the assertion in `Close` record.
- `crates/tacet-cli/src/eval_cmd.rs` pairs every case of the first report with the first of its
  name in the second, so a name repeated in a report is paired twice: `AfterSideBalances` says
  exactly when the second side adds up, `RepeatedNamesUnbalance` gives the smallest failure.
- `crates/tacet-cli/src/eval_cmd.rs:670-672` says a pairing that discards most of either side is
  refused. The code measures against the smaller side (line 678), so it refuses only when most of
  both is discarded: `ComparedIff`, and `MostOfASideCanBeDiscarded` is a pair of reports.
- `esp32/slots.c:146` reads at most 511 bytes of a line. At exactly 4096 messages a line that is
  cut short can go unnoticed, because nothing more is read; `ArrivesExactly` covers every batch.

## Model

| member | source | states |
|---|---|---|
| CallFilter.CallFilter.constructor | crates/tacet-cli/src/filter.rs:71-79 | a new filter stands at a line start with nothing held |
| CallFilter.CallFilter.Feed | crates/tacet-cli/src/filter.rs:82-88 | the fields and the printed text after a chunk are those of the state machine run over its characters |
| CallFilter.CallFilter.Finish | crates/tacet-cli/src/filter.rs:93-106 | a pending candidate is released, an open call is dropped silently |
| CallFilter.CallFilter.Character | crates/tacet-cli/src/filter.rs:108-155 | the in-place update is one step of the machine: strings, escapes, depth, closing, cap |
| CallFilter.CallFilter.CandidateCharacter | crates/tacet-cli/src/filter.rs:157-199 | the in-place update of the held line start is one step of the machine |
| CallFilter.Stream | crates/tacet-cli/src/filter.rs:82-106 | for every text, catalog and split into chunks, everything printed equals the whole-text meaning of the joined chunks |
| CallFilter.RunRefinesVisible | crates/tacet-cli/src/filter.rs:82-199 | the character machine, started fresh and finished, shows exactly the whole-text meaning |
| CallFilter.StepPays | crates/tacet-cli/src/filter.rs:108-199 | at any reachable state, what is still owed for the rest of the text equals what one character prints plus what is owed afterwards |
| CallFilter.RunConcat | crates/tacet-cli/src/filter.rs:82-88 | a run over joined texts is the run over the first and then, from there, over the second |
| CallFilter.EndFrom | crates/tacet-cli/src/filter.rs:126-138 | a body ends at the first prefix that balances its parenthesis or exceeds the cap, balance winning, and nowhere before |
| CallFilter.EndIsLocal | crates/tacet-cli/src/filter.rs:126-138 | characters after the end of a call body cannot move that end |
| CallFilter.VisibleIsSubsequence | crates/tacet-cli/src/filter.rs:82-199 | the filter only deletes: its output is a subsequence of the text |
| CallFilter.CallShortens | crates/tacet-cli/src/filter.rs:172-184 | a text that opens with a call never comes out whole |
| CallFilter.UntouchedIffNoCall | crates/tacet-cli/src/filter.rs:172-199 | output equals input if and only if no line of the text begins with blanks, a catalog name and a parenthesis |
| CallFilter.CallStaysBounded | crates/tacet-cli/src/filter.rs:39-52 | a held body is at most 4000 bytes and its depth stays between 1 and 4001, so the `i32` never overflows |
| CallFilterHeld.CallHeadIff | crates/tacet-cli/src/filter.rs:166-184 | a line opens a call if and only if it is blanks, a name made of word characters, and a parenthesis |
| CallFilterHeld.HeldBeginsAName | crates/tacet-cli/src/filter.rs:166-194 | what is held back is blanks, and behind them nothing or what some name starts with |
| CallFilterHeld.AllButTheHeldIsShown | crates/tacet-cli/src/filter.rs:82-199 | of a text no line of which opens a call, everything but what is held has been shown at once |
| CallFilterHeld.ShownIsCertain | crates/tacet-cli/src/filter.rs:82-199 | what has been shown is shown whatever text follows |
| CallFilterHeld.HeldOnlyWhileNeeded | crates/tacet-cli/src/filter.rs:108-199 | the text can go on so that nothing more is ever shown if and only if nothing is held or a name a call can have continues it: nothing is held in vain |
| CallFilterJson.ValueIsNeutral | crates/tacet-cli/src/filter.rs:109-125 | every JSON value in every serialisation leaves the lexer at the depth it found and never dips below it, whatever its strings hold |
| CallFilterJson.JsonIsNeutral | crates/tacet-cli/src/filter.rs:109-125 | a whole JSON text with blanks around it leaves the depth as it was |
| CallFilterJson.JsonCallIsSwallowed | crates/tacet-cli/src/filter.rs:109-131 | a line-start `name(` JSON `)` of at most 4000 bytes prints nothing, and the swallow ends exactly at that parenthesis and the whitespace after it |
| CallFilterJson.LongJsonCallIsReleased | crates/tacet-cli/src/filter.rs:132-138 | a longer argument is printed from its first character on, given up on at the first prefix over the cap, with only `name(` and the blanks in front of it hidden |
| Terminal.DrawsConcat | crates/tacet-cli/src/format.rs:529-543 | what two outputs do to the terminal composes: rendition, newlines in base style, neutral characters |
| Table.CollectRows | crates/tacet-cli/src/format.rs:551-565 | the loop keeps exactly the rows that are not separators, split and trimmed, in order |
| Table.MeasureColumns | crates/tacet-cli/src/format.rs:569-575 | the in-place maxima are, for each column, the widest cell of any row that has it |
| Table.DrawLine | crates/tacet-cli/src/format.rs:578-585 | the padding subtraction never underflows and the line is the padded cells, its end trimmed |
| Table.DrawTable | crates/tacet-cli/src/format.rs:550-601 | the drawn tokens are the aligned table of the raw rows |
| Table.CellColumn | crates/tacet-cli/src/format.rs:578-584 | before trimming, cell `j` of every row starts at column 2 plus the sum of the earlier widths plus two each |
| Table.CellInItsColumn | crates/tacet-cli/src/format.rs:566-585 | in the line of any data row of any ragged table a non-empty cell stands whole at its shared column: trimming never cuts one |
| Table.SeparatorsNeverPrint | crates/tacet-cli/src/format.rs:557-563 | removing the separator rows first changes nothing of the drawing |
| Table.DrawingDraws | crates/tacet-cli/src/format.rs:550-601 | drawn from rows free of control characters, as the formatter's are, coloured or not, a table starts and ends in base style and is in base style at each newline |
| Table.DrawingHasNoBars | crates/tacet-cli/src/format.rs:550-601 | whatever the rows hold and whether coloured or not, no vertical bar is drawn |
| TableLines.DrawingIsItsLines | crates/tacet-cli/src/format.rs:578-598 | whatever the raw rows, coloured or not, the characters drawn are the first data row's line, the rule, and the lines of the other data rows, each once and in order |
| TableLines.DrawingCut | crates/tacet-cli/src/format.rs:578-598 | cut at its newlines, the drawing of rows without any is exactly those lines |
| TableLines.CellsAreAligned | crates/tacet-cli/src/format.rs:550-601 | in the drawing a non-empty cell `j` of data row `i` stands whole, on that row's own line, at the column shared by all rows |
| TableLines.OnlyCellsAndSpaces | crates/tacet-cli/src/format.rs:578-586 | between its cells a line holds spaces only, and none at its end |
| TableLines.RuleUnderlinesColumns | crates/tacet-cli/src/format.rs:589-596 | the rule is dashes under each column, as many as it is wide, and spaces everywhere else |
| TableLines.ColumnsAreTight | crates/tacet-cli/src/format.rs:568-575 | a column is as wide as some cell in it, and there are as many columns as some row has cells |
| TableLines.OnlyTheHeaderIsStyled | crates/tacet-cli/src/format.rs:586-598 | coloured, the first line is bold, the rule dim, and nothing else is styled |
| TableLines.UncolouredIsUnstyled | crates/tacet-cli/src/format.rs:586-598 | uncoloured, nothing is |
| TableLines.RowGivesItsCells | crates/tacet-cli/src/format.rs:551-556 | a raw row gives back the cells it was written from, whatever whitespace stands around each and around the row |
| Formatter.Defang | crates/tacet-cli/src/format.rs:86-92 | the result is never a control character other than newline and tab, and anything harmless is kept as it is |
| Formatter.RunConcat | crates/tacet-cli/src/format.rs:180-193 | a run over joined texts is the run over the first and then over the second |
| FormatterObject.StreamFormatter.constructor | crates/tacet-cli/src/format.rs:164-177 | a new formatter is at a line start, in base style, with nothing held |
| FormatterObject.StreamFormatter.Feed | crates/tacet-cli/src/format.rs:180-193 | a coloured chunk moves the fields and prints as the machine does; an uncoloured one is defanged and changes nothing |
| FormatterObject.StreamFormatter.Finish | crates/tacet-cli/src/format.rs:197-224 | everything pending (half a table row, the table, star, marker, prefix) is printed raw and the style closed |
| FormatterObject.StreamFormatter.Char | crates/tacet-cli/src/format.rs:236-269 | one character updates the nine fields and the shared buffer as one machine step, in each of the five modes |
| FormatterObject.StreamFormatter.LineStartChar | crates/tacet-cli/src/format.rs:271-317 | a character at a line start updates fields and buffer as one machine step, inside and outside code blocks |
| FormatterObject.StreamFormatter.ApplyDecision | crates/tacet-cli/src/format.rs:319-371 | a decision drains the table first and then opens the line's structure |
| FormatterObject.StreamFormatter.BodyChar | crates/tacet-cli/src/format.rs:373-416 | a body character updates fields and buffer as one machine step: newline, open marker, pending star |
| FormatterObject.StreamFormatter.HeldChar | crates/tacet-cli/src/format.rs:378-400 | a character inside an open marker updates fields and buffer as one machine step, the cap included |
| FormatterObject.StreamFormatter.WriteSpan | crates/tacet-cli/src/format.rs:418-431 | a span is opened, written and reset, and the line's own style put back |
| FormatterObject.StreamFormatter.FinishLine | crates/tacet-cli/src/format.rs:433-447 | the end of a line releases what is pending, resets the style, and only then breaks the line |
| FormatterObject.StreamFormatter.DrainTable | crates/tacet-cli/src/format.rs:450-457 | a buffered table is drawn once and forgotten |
| FormatterObject.Stream | crates/tacet-cli/src/format.rs:180-232 | for every split into chunks the output equals that of the whole text |
| FormatterSafety.StepSound | crates/tacet-cli/src/format.rs:236-458 | from any reachable state, one character's tokens take the terminal from the style the object believes in to the style it believes in next |
| FormatterSafety.StreamStyle | crates/tacet-cli/src/format.rs:236-458 | over every stream the replayed rendition equals `line_style`, with base style at each newline and only defanged characters |
| FormatterSafety.RenderedIsSafe | crates/tacet-cli/src/format.rs:188-232 | after `finish` the terminal is in base style again, coloured or not |
| FormatterSafety.HeldFragmentsAreShort | crates/tacet-cli/src/format.rs:51-60 | over every stream fewer than 16 characters are held at a line start outside a code block, and a marker holds at most 200 |
| FormatterHeld.HeldPastCapIff | crates/tacet-cli/src/format.rs:271-317 | over every stream, sixteen characters or more are held if and only if it stands inside a code block in a line that long that could still become the fence |
| FormatterHeld.CapDecidesUndecided | crates/tacet-cli/src/format.rs:310-317 | from any line begun outside a code block, the cap decides the line, and as a plain one, if and only if none of its first sixteen prefixes was decided |
| FormatterHeld.CapDecidesIff | crates/tacet-cli/src/format.rs:310-317 | that is, if and only if they are blanks, or blanks and then one of the few beginnings still open: one or two backticks, up to six hashes, one or two dashes or pluses, a star, an angle, up to three digits and perhaps their mark |
| FormatterHeld.DeepItemIsPlain | crates/tacet-cli/src/format.rs:51-54 | a list item behind fifteen blanks reaches the cap although it is not blank, and loses its structure |
| FormatterForms.FormIff | crates/tacet-cli/src/format.rs:460-527 | a line is decided at the end of a prefix, and not before, if and only if the prefix is blanks and a mark of that structure: 1-6 hashes and a space; a dash, star or plus and a space; 1-3 digits, a stop or parenthesis, and a space; an angle and a space; a bar; three backticks; three dashes or pluses |
| FormatterForms.HeadingLine | crates/tacet-cli/src/format.rs:336-341 | blanks, one to six hashes and a space, within sixteen characters: bold, and then the rest of the line reads back |
| FormatterForms.BulletLine | crates/tacet-cli/src/format.rs:342-345 | blanks, a dash, star or plus and a space: the same blanks and a bullet, and then the rest |
| FormatterForms.OrderedLine | crates/tacet-cli/src/format.rs:346-349 | blanks, one to three digits, a stop or parenthesis and a space: the same blanks and the number as it stands, and then the rest |
| FormatterForms.QuoteLine | crates/tacet-cli/src/format.rs:350-356 | blanks, an angle and a space: dim behind a bar, and then the rest |
| FormatterForms.TableLine | crates/tacet-cli/src/format.rs:252-360 | blanks and a bar: the line waits whole behind the rows that wait, and nothing is shown |
| FormatterForms.FenceLine | crates/tacet-cli/src/format.rs:361-364 | blanks and three backticks: a code block begins and the line shows nothing |
| FormatterForms.RuleLine | crates/tacet-cli/src/format.rs:365-369 | blanks and three dashes or pluses: a dim rule stands for the line |
| FormatterForms.PlainIffFormless | crates/tacet-cli/src/format.rs:310-334 | a line is given no structure if and only if none of its first sixteen prefixes has a form |
| FormatterForms.FormlessLine | crates/tacet-cli/src/format.rs:310-334 | and then it is shown so that it reads back whole |
| FormatterForms.WholeTable | crates/tacet-cli/src/format.rs:252-262 | row lines one after another show nothing; the line that ends them is shown behind the drawing of exactly those rows |
| FormatterSpans.UnmarkedText | crates/tacet-cli/src/format.rs:402-416 | text without marks is written as it comes |
| FormatterSpans.CodeSpanIsStyled | crates/tacet-cli/src/format.rs:378-431 | up to 200 characters between two backticks are shown in reverse, the backticks gone, and the line's own style is put back |
| FormatterSpans.BoldSpanIsStyled | crates/tacet-cli/src/format.rs:378-431 | fewer than 200 characters between two pairs of stars are shown bold, the stars gone |
| FormatterSpans.OverlongIsReleased | crates/tacet-cli/src/format.rs:392-397 | at the 201st character an open marker is shown as it was typed, and the line goes on as if there had been none |
| FormatterSpans.EndOfStreamIsEndOfLine | crates/tacet-cli/src/format.rs:195-224 | ending the stream shows what ending the line would, the table that waits and half a row of it included, but for the line break |
| FormatterSafety.CodeBlockPrefixIsUnbounded | crates/tacet-cli/src/format.rs:285-289 | for every n, a stream after which n characters are held inside a code block |
| FormatterReadBack.BodyReadsBack | crates/tacet-cli/src/format.rs:373-431 | expanding each styled span to marker, body, marker and appending the pending fragment gives back exactly the characters consumed |
| FormatterReadBack.HeldStepReadsBack | crates/tacet-cli/src/format.rs:378-400 | a marker that closes, runs over its cap or goes on loses nothing |
| FormatterReadBack.EndLineReadsBack | crates/tacet-cli/src/format.rs:433-447 | a marker still open at the end of a line is printed as it was typed |
| FormatterReadBack.LineReadsBack | crates/tacet-cli/src/format.rs:373-447 | a finished body line reads back to its whole source, newline included |
| FormatterReadBack.PlainLineReadsBack | crates/tacet-cli/src/format.rs:271-334 | a whole line given no structure reads back to its source, the fragment held at its start included, behind the drawing of the table it ends, if any |
| FormatterReadBack.StructuredLineReadsBack | crates/tacet-cli/src/format.rs:319-371 | of a heading, list item or quotation only the opening is replaced; everything after it reads back, newline included, behind the drawing of the table the line ends, if any |
| FormatterReadBack.TableIsDrawnFirst | crates/tacet-cli/src/format.rs:319-324 | a line that is no table row first draws the table that waits, and is then shown as if there had been none |
| FormatterReadBack.CodeLineIsVerbatim | crates/tacet-cli/src/format.rs:271-309 | inside a code block a line is shown as it stands, indented and dimmed; one that stays undecided to its end, blanks and at most two backticks, is shown neither indented nor dimmed; only one opening with three backticks shows nothing, and it closes the block |
| FormatterReadBack.ReadBackConcat | crates/tacet-cli/src/format.rs:418-431 | what was written for whole body characters reads the same whatever follows |
| TurnLoop.Session.Ask | crates/tacet-cli/src/chat.rs:905-920 | one message: the seed is spent, the history grows by exactly one block, an empty message changes nothing |
| TurnLoop.Session.RunPasses | crates/tacet-cli/src/chat.rs:991-1632 | the imperative pass loop yields the prompts, executions, tool results, answer and error of the recursive turn |
| TurnLoop.RunPass | crates/tacet-cli/src/chat.rs:1336-1533 | one pass after its prompt: refusal, engine error, cancellation, cut-off, or execution, as the verdict of the specification |
| TurnLoop.Execute | crates/tacet-cli/src/chat.rs:1524-1600 | a completed text is handed to the executor unless the pass is the last or the text is not executable; an error after a side effect ends the turn |
| TurnLoop.Session.SeedQuestion | crates/tacet-cli/src/chat.rs:2059-2064 | the imported summary is put above one question and is gone afterwards |
| TurnLoop.QuestionHoldsItsParts | crates/tacet-cli/src/chat.rs:905-920 | the question ends in the user's own words, right behind the pipe's text, begins with the imported summary, and holds nothing else |
| TurnLoop.Session.Clear | crates/tacet-cli/src/chat.rs:2627-2631 | the history is emptied and nothing else changes |
| TurnLoop.Session.ResumeFrom | crates/tacet-cli/src/chat.rs:700 | an import replaces the seed and leaves the history alone |
| TurnLoop.EveryTurnSettles | crates/tacet-cli/src/chat.rs:994-1632 | whatever engine and executor answer, the turn settles: the budget-ran-out branch is unreachable |
| TurnLoop.ExecutingPasses | crates/tacet-cli/src/chat.rs:1524-1533 | the passes handed to the executor are distinct, in order, and never the last |
| TurnLoop.ReachedIff | crates/tacet-cli/src/chat.rs:994-1601 | a pass is reached if and only if every one before it was a cut-off that can be retried or a call that came back without an error, or with one that can be retried |
| TurnLoop.ExecutedIff | crates/tacet-cli/src/chat.rs:1416-1533 | a pass is handed to the executor if and only if it is reached, not cancelled, complete, executable and not the last |
| TurnLoop.ToolsArePairs | crates/tacet-cli/src/chat.rs:1584-1585 | tool results are call and answer in pairs, at most three of them |
| TurnLoop.TurnLeavesBlock | crates/tacet-cli/src/chat.rs:1694-1698 | a turn leaves User (Assistant Tool)^k Assistant? with k at most 3 |
| TurnLoop.BlockHoldsItsParts | crates/tacet-cli/src/chat.rs:1694-1698 | a block is the question, the results as they are, and the answer if there is one |
| TurnLoop.QuestionIsShownOnce | crates/tacet-cli/src/chat.rs:1034-1049 | every pass is shown the history, the question, then the results so far, wherever the question is put |
| TurnLoop.ResultsHoldNoQuestion | crates/tacet-cli/src/chat.rs:1584-1585 | the results hold no question, so the one asked is the only one this turn shows |
| TurnLoop.PassesExtendOneConversation | crates/tacet-cli/src/chat.rs:1018-1049 | the conversation shown to a pass is a prefix of the one shown to the next |
| TurnLoop.ToolsAreOfferedUntil | crates/tacet-cli/src/chat.rs:1018-1084 | a turn has at most four passes; a pass is offered tools if and only if it is not the fourth and no earlier one was cut off or repeated a call |
| TurnLoop.WithdrawnRunsIff | crates/tacet-cli/src/chat.rs:1018-1566 | a pass offered no tools is handed to the executor all the same if and only if it runs and an earlier one was cut off or repeated a call |
| TurnLoop.ResultsAreWhatRan | crates/tacet-cli/src/chat.rs:1439-1600 | the results of a turn are those of its executed passes, each once and in order: a cut-off pass or an error after a side effect loses none |
| TurnLoop.LastPassDecides | crates/tacet-cli/src/chat.rs:1090-1600 | answer and error are determined by the last pass: an error exactly when the prompt was refused or the engine failed, and never an end on a call that came back in order |
| TurnLoop.Chat | crates/tacet-cli/src/chat.rs:678-1698 | the outer loop over one session object keeps the history of the event-by-event definition |
| TurnLoop.HistoryIsAStory | crates/tacet-cli/src/chat.rs:1694-1698 | over any run of messages, clears and imports the history is the resumed turns, or nothing once cleared, and then whole blocks |
| ToolRuns.ToolExecutor.constructor | crates/tacet-tools/src/executor.rs:1016-1030 | a new executor has recorded no call and no change of the world |
| ToolRuns.ToolExecutor.NewTurn | crates/tacet-tools/src/executor.rs:1087-1091 | a turn begins with no call recorded and the world unchanged |
| ToolRuns.ToolExecutor.ExecuteRaw | crates/tacet-tools/src/executor.rs:1130-1407 | one text through the gates in their order, the record written before the tool starts, and the outcome it comes back with |
| ToolRuns.StartedIff | crates/tacet-tools/src/executor.rs:1175-1331 | a tool is started if and only if there is a call, not cancelled, of a known tool, valid, not recorded before, and approved if it asks; anything else leaves the record alone |
| ToolRuns.StartedByReason | crates/tacet-tools/src/executor.rs:844-859 | what the reason alone says: success and failure mean that a tool started, an unknown tool, bad arguments and a repeat that none did |
| ToolRuns.StartedComesBack | crates/tacet-tools/src/executor.rs:1331-1407 | what a started call comes back as: failed if it panicked, ran out of time or says so; cancelled if it was left running or a cancel came meanwhile; denied if it asks for permission; in order otherwise |
| ToolRuns.RecordHoldsStarted | crates/tacet-tools/src/executor.rs:1325-1352 | before any pass of a turn the record holds exactly the calls started by earlier ones |
| ToolRuns.NoCallStartsTwice | crates/tacet-tools/src/executor.rs:1234-1331 | no call, the same tool with the same arguments, is started twice in a turn |
| ToolRuns.RepeatedIff | crates/tacet-tools/src/executor.rs:1247-1272 | a pass comes back as a repeated call if and only if it is a valid, uncancelled call of a known tool that an earlier pass of the turn started |
| ToolRuns.RepeatIsToldTheTruth | crates/tacet-tools/src/executor.rs:1247-1262 | a repeated call is told that its result is above if and only if the earlier call, which there is, came back with one, and otherwise that it failed |
| ToolRuns.ToolPhaseEndsIff | crates/tacet-cli/src/chat.rs:1553-1566 | no pass without tools starts one if and only if no pass reached after a cut-off or a repeated call is a call that stands at the gates and was not started before |
| ToolRuns.ProseEndsToolPhase | crates/tacet-cli/src/chat.rs:1553-1566 | a turn that answers in prose once its tools are withdrawn starts none without them |
| ToolRuns.WithdrawnToolsCanStillRun | crates/tacet-cli/src/chat.rs:1524-1566 | a turn the executor can have that repeats its first call, is offered no tools, starts another tool all the same, and answers |
| ToolRuns.WorldChangedIff | crates/tacet-tools/src/executor.rs:1358-1362 | the world counts as changed if and only if a tool started this turn wrote or was lost |
| ToolRuns.RecoversIffUnchanged | crates/tacet-cli/src/chat.rs:1587-1600 | an error opens a recovery pass if and only if no tool this turn, the failed one included, has changed the world; otherwise the turn ends there, saying so |
| Interrupt.RunsAreConsistent | crates/tacet-cli/src/chat.rs:871-874 | in every interleaving the running flag is set exactly from the turn's start to its end |
| Interrupt.CancelIffAsked | crates/tacet-cli/src/chat.rs:1912-1923 | CANCEL is set if and only if a key, the guard or a SIGINT has asked for it since it was last cleared, and the next check ends the turn exactly then |
| Interrupt.AtMostOneAbsorbed | crates/tacet-cli/src/chat.rs:1912-1923 | in every interleaving of signals, keys, guard and loop steps at most one SIGINT is absorbed per turn |
| Interrupt.AtMostOneLateExecution | crates/tacet-cli/src/chat.rs:1416-1533 | once a key, the guard or a SIGINT has asked for a turn to be cancelled, at most one further tool execution begins in it |
| Interrupt.AtMostThreeExecutions | crates/tacet-cli/src/chat.rs:1524-1533 | at most three executions begin in a turn, at most one per pass gone by |
| Interrupt.SwapsInItsTurn | crates/tacet-cli/src/chat.rs:1912-1915 | a handler swaps within the very turn it saw if and only if that turn did not end between its two steps |
| Interrupt.SwapsOutside | crates/tacet-cli/src/chat.rs:1912-1939 | a handler about to swap finds no turn running if and only if the one it saw ended and no other has begun |
| Interrupt.AbsorbedOutsideIff | crates/tacet-cli/src/chat.rs:1912-1939 | exactly when a SIGINT is absorbed with no turn running: its handler is in such a gap and the flag is unset |
| Interrupt.NoneAbsorbedOutsideIff | crates/tacet-cli/src/chat.rs:1912-1939 | over a whole run none is, if and only if every swap in such a gap finds the flag set |
| Interrupt.AbsorbedOnlyInsideATurn | crates/tacet-cli/src/chat.rs:1912-1923 | undisturbed, a SIGINT is absorbed if and only if a turn runs and is not yet cancelled, and then only sets CANCEL |
| Interrupt.AnOvertakenHandlerAbsorbsOutside | crates/tacet-cli/src/chat.rs:1912-1939 | a concrete interleaving in which a SIGINT is absorbed with no turn running |
| Interrupt.NextSigintEnds | crates/tacet-cli/src/chat.rs:1889-1923 | with CANCEL set or no turn running, the next SIGINT ends the process |
| RepetitionGuard.Guard.Listen | crates/tacet-cli/src/chat.rs:1265-1284 | a fragment updates the text seen, the next check's place and the stop flag |
| RepetitionGuard.Watch | crates/tacet-cli/src/chat.rs:1236-1284 | one answer, fragment by fragment, is stopped exactly when the definition says so |
| RepetitionGuard.FlatSnoc | crates/tacet-cli/src/chat.rs:1272 | one more character adds to the collapsed text nothing, itself, or a space and itself |
| RepetitionGuard.FlatGrows | crates/tacet-cli/src/chat.rs:1272 | collapsing a longer text keeps what was there and grows by at most the characters added and one |
| RepetitionGuard.StopsIffFired | crates/tacet-cli/src/chat.rs:1265-1284 | an answer has been stopped if and only if some check, due after 160 more bytes, found it repeating; a later one takes nothing back |
| RepetitionGuard.StopsOnlyOnRepeats | crates/tacet-cli/src/chat.rs:1270-1281 | the guard fires only at a fragment after which the collapsed text ends in 240 characters that stand earlier without overlap |
| RepetitionGuard.LoopsAreRepeats | crates/tacet-cli/src/chat.rs:1274-1281 | any check must fire when a p-periodic end of the collapsed text is at least 480 + p long |
| RepetitionGuard.LoopingAnswerIsStopped | crates/tacet-cli/src/chat.rs:1265-1284 | however an answer is cut into fragments, one whose p-periodic end is at least 640 + p long has been stopped |
| Fold.FoldInto | esp32/slots.c:31-82 | the loop writes the byte-level fold into the caller's buffer, at most n + 2 bytes, and touches nothing beyond |
| Fold.Close | esp32/slots.c:79-80 | a closing space is added exactly when the last byte is not one; the second tail branch cannot be taken |
| Fold.FoldMessage | esp32/train_slots.py:55-86 | the trainer's loop computes the character-level fold |
| Fold.TwoByteLetters | esp32/slots.c:52-65 | a two-byte sequence is one of the Turkish letters on both sides, with the same letter, or dropped on both |
| Fold.FoldsAgree | esp32/train_slots.py:55-86 | for every string, folding its UTF-8 bytes on the device equals encoding the trainer's fold |
| Fold.FoldedLengthsAgree | esp32/train_slots.py:55-86 | the trainer folds a message to as many characters as the device folds it to bytes |
| Fold.FoldIsFolded | esp32/slots.c:31-82 | any bytes at all fold to ASCII without capitals that starts and ends with a space and holds no other whitespace and no two spaces in a row |
| Fold.FixedIffFolded | esp32/slots.c:31-82 | the messages the fold leaves alone are exactly the folded ones |
| Fold.FoldIsIdempotent | esp32/slots.c:31-82 | folding twice is folding once, on valid UTF-8 or not |
| FoldWords.FoldIsItsWords | esp32/train_slots.py:55-86 | a message folds to a space and then each of its words in plain lower-case letters with a space behind it, the letters and the ten whitespace characters given by number: for the trainer and, as bytes, for the device |
| FoldWords.FoldHoldsLegalBytes | esp32/slots.c:31-82 | whatever bytes come in, only the space and the ASCII that is neither other whitespace nor a capital come out, by number |
| Transport.EscapeIsPerCharacter | esp32/check.py:46-49 | the chain of six replaces is a per-character map: none touches what an earlier one wrote |
| Transport.UnescapeUndoesEscape | esp32/slots.c:150-158 | undoing the escapes gives back the message's bytes |
| Transport.LineIsReceived | esp32/slots.c:146-159 | a NUL-free line, its end stripped and its escapes undone, is the message sent |
| Transport.ReadLine | esp32/slots.c:147-159 | the in-place stripping and unescaping loops compute what a line is received as |
| Transport.ReadMessages | esp32/slots.c:146-161 | the reading loop holds, of any input, what successive reads of at most 511 bytes are received as, up to 4096 messages |
| Transport.BatchArrives | esp32/check.py:46-52 | every batch of 1 to 4096 NUL-free messages whose escaped lines fit survives the wire |
| Transport.MessagesHeld | esp32/slots.c:146 | the device holds as many messages as the lines take reads, up to its limit |
| Transport.ArrivesIffDeliverable | esp32/slots.c:146-161 | away from 4096 messages a batch arrives if and only if it is not empty, below the limit, NUL-free and every line fits |
| Transport.EmptyBatchArrivesAsOne | esp32/check.py:51 | no message at all is received as one empty message |
| TransportLimit.CutLine | esp32/slots.c:146-158 | a line cut short is understood as the whole message only when the lost byte is the second half of an escaped backslash |
| TransportLimit.FullBatch | esp32/slots.c:146-161 | a NUL-free batch that fills the device is held as sent if and only if every line fits, up to a first one over-long by so little that its rest stands for the next message, and so on to the end |
| TransportLimit.ArrivesExactly | esp32/slots.c:139-161 | for every batch: it arrives if and only if it has 1 to 4096 messages, none with a NUL, whose escaped lines all fit, the corner just described included when there are exactly 4096 |
| Bits.MaskIsModulo | esp32/train_slots.py:97 | masking with 2^k - 1 is reduction modulo 2^k |
| Bits.XorShiftInverse | crates/tacet-cli/src/addon.rs:1439-1443 | a 64-bit shift-xor by at least 22 bits is undone by two more terms, in both directions |
| Bits.ShiftIsDivision | crates/tacet-cli/src/addon.rs:1439-1443 | a shift by k bits divides by 2^k |
| Bits.XorIsBitwise | crates/tacet-cli/src/addon.rs:1439-1443 | an exclusive or sets the bits exactly one side sets |
| Classifier.HashesAgree | esp32/train_slots.py:95-97 | the trainer's masked hash is the device's wrapping one |
| Classifier.FeatureCount | esp32/train_slots.py:93-98 | a message has as many features as it has 3-, 4- and 5-grams |
| ClassifierHash.OneByteChangesHash | esp32/slots.c:94-98 | grams of one length that differ in one byte have different hashes: a step forgets neither state nor byte |
| ClassifierHash.BucketIsHash | esp32/slots.c:99 | a bucket is its gram's hash less a multiple of the number of buckets |
| ClassifierHash.OneByteChangesBucket | esp32/slots.c:94-99 | with a power of two of at least 256 buckets they have different buckets too, wherever the byte stands |
| ClassifierHash.FeatureAt | esp32/train_slots.py:93-98 | the feature list holds at its place the bucket of each gram of three to five bytes |
| ClassifierHash.OneByteChangesItsFeatures | esp32/train_slots.py:88-99 | one byte of a folded message changed, exactly the features of the grams that hold it change |
| ClassifierSums.WeightsAreRows | esp32/slots.c:102 | the weights of a head are its table row after row: a bucket owns its row |
| ClassifierSums.HeadSumConcat | esp32/train_slots.py:149-150 | the sum over two lists of grams is the sum of their sums |
| ClassifierSums.HeadSumForgetsOrder | esp32/train_slots.py:149-150 | messages with the same grams in any order have the same scores |
| Classifier.TrainerFeatures | esp32/train_slots.py:88-99 | the trainer's loops list the buckets of the folded message's n-grams, by length and then by place |
| Classifier.Device.Infer | esp32/slots.c:85-110 | every accumulator is the per-head sum over the trainer's feature list, no index is out of bounds, no `int32` overflows, and both counters advance by the closed forms |
| Classifier.Device.AddGrams | esp32/slots.c:93-108 | the grams of one length add their rows to the sums, counted exactly |
| Classifier.Device.AddRow | esp32/slots.c:101-107 | one gram adds its 23 weights and changes nothing else |
| Classifier.Device.AddHead | esp32/slots.c:102-106 | one head's row is added to its sums, the other heads' stay |
| Classifier.Device.HashGram | esp32/slots.c:94-99 | one gram's bucket is the shared hash reduced, at two counted operations per byte |
| Classifier.HeadSumBound | esp32/slots.c:104 | a sum over m grams is between -128 m and 127 m |
| Classifier.OpsAreClosedForm | esp32/slots.c:91-108 | of a folded length, what the nested loops count has a closed form |
| Classifier.OpsForMessage | esp32/device/device_check.py:112-123 | `ops_for`, computed from the characters the trainer folds, is what the device's loops count over the bytes it folds |
| Classifier.FirstMax | esp32/slots.c:190-192 | the scan finds the first class of greatest score |
| Classifier.PickAll | esp32/slots.c:189-194 | the scan over the heads picks the first class of greatest sum in each |
| Classifier.FirstMaxIsUnique | esp32/train_slots.py:149-150 | the tie rule leaves one winner, so scan and argmax agree |
| Classifier.DeviceSeesTrainerFeatures | esp32/check.py:46-80 | sent, received, folded and hashed on the device, message i of a batch gives the trainer's feature list |
| Classifier.Classify | esp32/slots.c:162-194 | for a held message the loop of fold, inference and scan picks in every head the first class of greatest trainer sum, and its counters advance by `ops_for` of the folded length |
| Quantise.QuantisedIsNear | esp32/train_slots.py:144-147 | the clip never bites and a quantised weight is within half a step |
| Quantise.RoundIsNearestEven | esp32/train_slots.py:147 | rounding goes to the nearest integer, and to the even one of two as near |
| Quantise.IntScoreIsHeadSum | esp32/train_slots.py:149-150 | the integer score is the device's head sum over the same grams |
| Quantise.ScoreIsNear | esp32/train_slots.py:141-150 | an integer score times the scale is within half a step a gram of the real one, by induction over the grams |
| Quantise.ScoreError | esp32/train_slots.py:141-150 | an integer score over m grams is within m/2 of the scaled real one |
| Quantise.MarginKeepsWinner | esp32/train_slots.py:141-150 | a winner leading by more than m times the scale is the int8 winner |
| Quantise.SmallLeadCanLose | esp32/train_slots.py:141-150 | for any grams that leave a bucket unused, any scale, and any lead of at most a step a gram, a head of that scale loses its winner |
| Quantise.MarginOf | esp32/train_slots.py:141-150 | the same for any list of grams shorter than the number of buckets |
| Quantise.MarginIsExact | esp32/train_slots.py:142-143 | for every text with a gram and fewer grams than buckets, a lead guarantees the winner over all heads of a scale if and only if it exceeds a scale step per gram |
| Quantise.QuantisingCanChangeTheWinner | esp32/train_slots.py:142-143 | a concrete head and message whose argmax quantising changes |
| FallbackKey.MixIsBijection | crates/tacet-cli/src/addon.rs:1438-1444 | the finaliser has a two-sided inverse on 64-bit words |
| FallbackKey.RoundIsBijection | crates/tacet-cli/src/addon.rs:1460-1462 | in a round each of state and source determines the other for a given result |
| FallbackKey.AbsorbIsBijection | crates/tacet-cli/src/addon.rs:1460-1462 | for fixed sources the chain maps states one to one onto words |
| FallbackKey.SourceIsBijection | crates/tacet-cli/src/addon.rs:1446-1464 | with five sources fixed, each first word is reached by exactly one value of the sixth |
| FallbackKey.OneSourceChangesKey | crates/tacet-cli/src/addon.rs:1457-1465 | changing exactly one source always changes the key, in its first sixteen digits |
| FallbackKey.OneReadingChangesKey | crates/tacet-cli/src/addon.rs:1434-1466 | two sets of arguments that agree in five of the six words, the halves of the clock, the low halves of process number, stack and heap, and the anchor, give the same key if and only if they agree in the sixth; otherwise the first sixteen digits differ |
| FallbackKey.WordsGoOn | crates/tacet-cli/src/addon.rs:1457-1464 | word k is the sources absorbed k + 1 times over from the seed: none starts afresh, none is skipped |
| FallbackKey.WordFromHex | crates/tacet-cli/src/addon.rs:1465 | a word can be read back from its sixteen digits |
| FallbackKey.HexAllIsInjective | crates/tacet-cli/src/addon.rs:1465 | distinct words never print as the same key |
| FallbackKey.MixWords | crates/tacet-cli/src/addon.rs:1457-1464 | the nested loops fill the array with the successive states of one chain |
| FallbackKey.MakeKey | crates/tacet-cli/src/addon.rs:1434-1466 | the key is always 64 lower-case hex digits, those of the four chained words |
| Sorting.SortForgetsOrder | crates/tacet-cli/src/engine_setup.rs:196 | any two orders of the same distinctly named things sort to one list |
| Sorting.SortedIsUnique | crates/tacet-cli/src/engine_setup.rs:229 | two sorted lists of the same distinctly named things are equal |
| ModelScan.Scan | crates/tacet-cli/src/engine_setup.rs:185-211 | the loops over roots and folders build the catalog of the definition |
| ModelScan.AddFolders | crates/tacet-cli/src/engine_setup.rs:197-207 | the inner loop keeps the first package of each name and drops the rest |
| ModelScan.NamesIncrease | crates/tacet-cli/src/engine_setup.rs:203-209 | the catalog's names are strictly increasing |
| ModelScan.CatalogHoldsWinners | crates/tacet-cli/src/engine_setup.rs:185-211 | a package is in the catalog if and only if it is the first of its name in the earliest root that offers the name |
| ModelScan.WeightsAreFirstByName | crates/tacet-cli/src/engine_setup.rs:216-230 | a package's weights are the first `.gguf` of its folder in byte order |
| ModelScan.ScanIsDeterministic | crates/tacet-cli/src/engine_setup.rs:171-211 | listing roots and folders in any other order gives the same catalog |
| ModelScan.FindsTheFirstNamed | crates/tacet-cli/src/engine_setup.rs:290-301 | in any list, repeated names or not, a lookup comes to the first package of the name, and to nothing if that one is incomplete or there is none |
| ModelScan.NameResolvesToWinner | crates/tacet-cli/src/engine_setup.rs:290-301 | a name resolves to its winner if that is complete, and otherwise to nothing: a later root is never used in its place |
| ModelScanFolders.AtMostIff | crates/tacet-cli/src/engine_setup.rs:229 | names compare bytewise: one begins the other, or the first byte that differs decides |
| ModelScanFolders.GgufIff | crates/tacet-cli/src/engine_setup.rs:225-228 | a weights file is named by a stem, a full stop and gguf in any case |
| ModelScanFolders.PackageIff | crates/tacet-cli/src/engine_setup.rs:213-246 | a folder is a package if and only if it can be listed and holds weights; its weights are the first by name, their size is its size, and the vocabulary in them counts only where there is no tokenizer file |
| ModelScanFolders.CatalogFromFolders | crates/tacet-cli/src/engine_setup.rs:185-211 | the catalog from folders and files alone: of every name some folder with weights offers, the package of the first such folder by name in the earliest root that has one |
| EvalCompare.ToolsTouched | crates/tacet-cli/src/eval_cmd.rs:273-294 | exactly the tools a case expected or called, each once |
| EvalCompare.IncomparableCases | crates/tacet-cli/src/eval_cmd.rs:306-327 | exactly the shared names of which a case, on either side, touches a tool one catalog lacks; none when the catalogs agree or one is missing |
| EvalCompare.Pair | crates/tacet-cli/src/eval_cmd.rs:638-660 | the pairing loop fills all five lists as defined case by case |
| EvalCompare.Compare | crates/tacet-cli/src/eval_cmd.rs:545-695 | reports of different shapes are refused, the excluded cases are gone from both sides, and too small a pairing is refused |
| EvalCompare.PairsUseCommonTools | crates/tacet-cli/src/eval_cmd.rs:589-631 | when both catalogs are known and differ, both cases of every surviving pair touch only tools present in both |
| EvalCompare.SurvivesIff | crates/tacet-cli/src/eval_cmd.rs:589-631 | a case is set aside if and only if the other side has its name and some case so called, on either side, touches a tool one run lacked |
| EvalCompare.ComparedIff | crates/tacet-cli/src/eval_cmd.rs:673-695 | a comparison is made if and only if at least twenty cases have a namesake and they are at least half of one side; with none there is nothing to pair |
| EvalCompare.ComparedIffShared | crates/tacet-cli/src/eval_cmd.rs:673-695 | with unique names: at least twenty shared names, and at least half of one side's |
| EvalCompare.MostOfASideCanBeDiscarded | crates/tacet-cli/src/eval_cmd.rs:669-679 | two reports that are compared although most of one is discarded |
| EvalCompare.PartnerIsFirst | crates/tacet-cli/src/eval_cmd.rs:642-645 | the partner of a case is the first of its name |
| EvalCompare.UnpairedIff | crates/tacet-cli/src/eval_cmd.rs:652-660 | a name is listed as one side's own if and only if that side alone has it |
| EvalCompare.NothingIsLost | crates/tacet-cli/src/eval_cmd.rs:638-655 | pairs and unpaired make up the first side; fixed and broken count the changed pairs |
| EvalCompare.BeforePassedAreCases | crates/tacet-cli/src/eval_cmd.rs:704 | pairs counted as passed before are the cases that passed and have a namesake |
| EvalCompare.DeltaIsFixedLessBroken | crates/tacet-cli/src/eval_cmd.rs:697-706 | passes after minus passes before equals fixed minus broken |
| EvalCompare.AfterSideBalances | crates/tacet-cli/src/eval_cmd.rs:656-660 | the second side adds up if and only if as many of its cases as of the first's have a namesake |
| EvalCompare.RepeatedNamesUnbalance | crates/tacet-cli/src/eval_cmd.rs:642-655 | a concrete pair of reports whose second side does not add up |
| EvalCompare.UniqueNamesBalance | crates/tacet-cli/src/eval_cmd.rs:638-660 | with unique names both sides add up and swapping the reports keeps the number of pairs |
| EvalCompare.ListsAreExact | crates/tacet-cli/src/eval_cmd.rs:646-651 | with unique names a case is listed as fixed or broken exactly when it improved or got worse |
| EvalCompare.SwapSwapsFixedAndBroken | crates/tacet-cli/src/eval_cmd.rs:642-655 | swapping the reports swaps the fixed with the broken, name by name |
| EvalCompare.SwapSwapsTheCounts | crates/tacet-cli/src/eval_cmd.rs:697-706 | with unique names, swapping the reports swaps the numbers of fixed and broken over the same number of pairs |
| EvalCompare.ExclusionIsSymmetric | crates/tacet-cli/src/eval_cmd.rs:313-325 | which cases are set aside does not depend on which report comes first |

## Left out

- Classifier.Device.Infer: the operation counters are unbounded here; the C counters are `uint64_t` and wrap after 2^64 operations.
- Quantise.MarginIsExact: weights, sums and the scale are reals and rounding is exact, so float32 rounding before the weights are quantised is not captured.
- FormatterReadBack.StructuredLineReadsBack: the opening is not read back, nor are rules and table rows; they are replaced on the screen by design, by what `FormatterForms` and `TableLines` state.
- Interrupt.AtMostOneAbsorbed: the two flags are sequentially consistent; the relaxed loads of CANCEL on the chat thread are not weaker here.
- TurnLoop.RunPass: the text a call is recorded under, trimmed by the source, comes with the pass as any string.
- ToolRuns.ToolExecutor.ExecuteRaw: parsing, the catalog, the schema, the approval question and the tool itself are components of the attempt, whether there is a call, whether it is known, valid and approved, and how the tool ends; session taint and chips are not modelled.
- TurnLoop.Session.RunPasses: engine, router, token counter and prompt builder are oracles whose answers are the `Pass` values; a repetition stop and a cancel are read as flags.
- ModelScan.ScanIsDeterministic: assumes the names in one directory listing differ, as a file system guarantees; folder names that differ but decode to the same text are covered, decoding being an arbitrary function.
- ModelScan.Scan: directory listings are given values; reading metadata, symbolic links and GGUF headers is not modelled.
- EvalCompare.Compare: reports are given as values; JSON parsing, the weights and device guards, the sign test and the bootstrap are not modelled.
- The fold in Rust, its dump and the second `unescape` of `esp32/check.py` that reads it.
- Training of the heads: weights are arbitrary reals or int8 values.
- Which escape sequence a style code is, themes, and how a terminal draws: a style is one of four abstract codes.
- Sanitising of turn text, thinking, guides, memory injection, transcripts and session files around the turn.
- SIGINT on platforms other than unix.
- The grammar automaton, the router, the daemon, downloads, add-ons and the evaluation suites.
- Configuration keys, the memory gate and catalog parsing: provable, but each is settled by reading one function.
