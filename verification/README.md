# Models of the PHP 3 interpreter's machinery

PHP 3 runs a script while it parses it: there is no syntax tree, and what is executed is decided by a
handful of flags and stacks that the grammar's actions update. This project models that machinery and
the components around it in Dafny, and proves what each of them is for.

**Control.** `Script` is the language, `Structured` its ordinary big-step semantics, with fuel for loop
passes and calls. `ControlState` gives the effect of each action on the flags and stacks and what each of
them means, `ParserWalk` the order in which the grammar performs them, re-reading loops on every seek in
the token cache. `SkippedCode` proves that code not executed is inert, `ControlRefinement` construct by
construct that walk and semantics agree, `WalkInvariants` what every walk keeps, and `ControlTheorems`
states the result for whole runs. `Decisions` tells by the machine's history what each value decides.
`ControlMachine` is the machine itself, a class whose methods update the state in place. `TokenSwitch` is
the exchange of two `for` header expressions in the token array.

The refinement has one exception. The condition of a `while` loop is parsed before `cs_start_while` puts
the loop's keyword back to its first form (`control_structures_inline.h:213-224`). If the condition,
evaluated again for a further pass, calls a user function whose text contains that same loop, the
parser meets `CONTINUED_WHILE` where the loop begins. What happens then depends on where the loop stands
(`LoopPlaces`), since behind a finished `while` the grammar takes the keyword for one more pass
(`language-parser.y:336-339`):

- Directly behind another `while` the loop is read as it stands, and all is well
  (`QuietScriptsAreRefined`, `BehindAnotherWhileIsRun`).
- Behind a statement that ends in a `while` further inside, such as an `if` without braces, the loop is
  read as part of that statement; the run may complete with the wrong history
  (`StrayScriptGoesWrong`).
- Anywhere else the keyword is a syntax error (`ReentrantScriptIsNotRun`).

The semantics can track this: with `TRACKED` a run that calls a function with a busy loop at a place of
the second or third kind ends as `Misread`. Without such a call the machine ends exactly as the script
does, for every script (`RunAgrees`, `MachineRefinesScript`). For scripts without places of the second
kind, which their text shows (`LoopPlaces.AllFit`), it completes only then (`RunAgreesExactly`,
`MachineRefinesScriptExactly`).

Some behaviour is kept that a reader may not expect: labels after a matching `case` are still
evaluated as control falls through them; `default` comes last; `continue` in a `switch` acts as
`break`; the value left in a slot whose expression was not executed is arbitrary (`World.junk`).

**Configuration parser.** `ConfigGrammar` holds the tables and the grammar of
`configuration-parser.tab.c`, `ConfigSyntax` reads a file statement by statement and proves that this
reads exactly the sentences, `ConfigActions` says what the statements do, `ConfigMeaning` what files mean,
by the scanner's token codes and entry by entry, and `ConfigParser` is the table-driven `yyparse` on its
stacks. It returns 0 for exactly the sentences and never holds more than five states. In browscap mode an
assignment before the first section follows a null pointer; that is the outcome `FAULT`, and exactly when
it occurs is proved (`FaultsExactly`). `BrowscapPattern` is the conversion of patterns to regular
expressions as section 9.4 of POSIX.1-2017 (XBD) reads them.

**Scanners.** `ScannerTables` is the automaton in compressed tables, `ScannerBuffer` the buffer with its
held character, refill, push-back and input, `Scanner` the language scanner with its last accepting
position, `RejectScanner` the configuration scanner with its state buffer and a buffer that does not grow.
A call of either is proved to take the same thing, the longest accepted prefix of all that is pending; the
second fails exactly on a token that has not ended where its buffer is full (`RejectScanner.Overflows`,
with an example in `LineScanner`; `WordScanner` is one with template rows). `ScannerTables.WellFormed` is
what is assumed of the tables: every row leads along `yy_def` to one that answers, the end-of-buffer mark
leads every state into one state that has its own action, jamming states lead nowhere, and any first
character is accepted. State 0, which stands for none, has no row.

**Memory.** `Allocator` is the request allocator with its list, cache and accounting, `Alloca` the
portable alloca with its chain of depth-tagged headers.

**Values.** `Increment` is the string increment of `++`, `ArgTypes` the table of by-reference
parameters, `ArrayIndex` the creation of variables along an index path and taking them back.

`dafny verify dfyconfig.toml` checks everything.

## Model

| member | source | states |
|---|---|---|
| ControlTheorems.RunAgrees | language-parser.y:278-352 | For every well-formed script and every fuel, unless the run calls, from a `while` condition evaluated again, a function in which that loop stands where its keyword must not be continued, the machine ends as the structured semantics does: same operations on the same values in the same order, same functions, same fatal end; completed, all stacks are empty and every `for` header has been switched once |
| ControlTheorems.RunAgreesExactly | language-parser.y:336-339 | If moreover no `while` follows a statement that would take it for a pass of a `while` inside it, the machine completes if and only if the script does and makes no such call |
| ControlTheorems.MachineRefinesScript | language-parser.tab.c:2019-2287 | The same without fuel: a script that makes no such call yields a history with the machine if and only if it yields it by itself |
| ControlTheorems.MachineRefinesScriptExactly | language-parser.tab.c:2019-2287 | And for scripts without such a place the machine yields a history if and only if the script does and makes no such call |
| ControlTheorems.OneHistory | language-parser.tab.c:2019-2287 | A script has at most one history, whatever the fuel |
| ControlTheorems.CallRestores | control_structures_inline.h:943-985 | A user function call that comes back, out of whatever loops and however it recursed, leaves all stacks, the flags, the loop fields and the header orientations as before; continued keywords may have been put back; only the history, the declared functions and the return slot differ besides. It must not have reentered a barred loop, which is certain where texts fit |
| ControlTheorems.ReentrantScriptIsNotRun | control_structures_inline.h:213-254 | A concrete terminating script that the machine does not complete with any fuel: the loop stands first in its function |
| LoopPlaces.TakesNextByShape | language-parser.y:336-339 | A statement whose last part is a statement without braces takes a continued keyword behind it exactly if that part is a `while` or takes it, for every form of `if`, `for` and `while` |
| LoopPlaces.TakesNothing | language-parser.y:278-352 | No other statement does |
| LoopPlaces.BarredBehind | language-parser.y:336-339 | A loop is barred at the beginning of a list, behind every statement that is no `while`, and behind a `while` exactly if that takes what follows |
| StrayLoops.StrayScriptGoesWrong | language-parser.y:336-339 | A concrete script that the machine completes with a history that is not the script's: the loop follows an `if` that ends in a `while` and is passed over with it; such a script fits no set of loops |
| QuietConditions.QuietScriptsAreRefined | language-parser.y:336-339 | If `while` conditions call user functions only in loops directly behind another `while`, the machine and the structured semantics agree on completion, history, fatal errors and exhaustion of fuel alike |
| QuietConditions.BehindAnotherWhileIsRun | language-parser.y:336-339 | A concrete script whose loop calls its own function from its condition, behind another loop: in every world the machine yields what the script does |
| StructuredFacts.StableStmts | language-parser.tab.c:2019-2287 | A finished run keeps its result under any larger fuel, and a tracked run that does not end as Misread is the plain run but for what is busy |
| ControlRefinement.StmtAgrees | language-parser.tab.c:2019-2287 | From any ready state, reading one statement in its place ends as the tracked semantics says: same history, functions and signal, the stacks of the caller as they were, a pending break or continue recorded with its level; and where texts fit, a reentering run does not complete |
| ControlRefinement.StmtsAgree | language-parser.tab.c:2019-2287 | The same for statement lists: after a jump or return the rest is read without effect |
| ControlRefinement.IfAgrees | control_structures_inline.h:306-418 | if, elseif and else execute exactly the first branch whose condition holds, and evaluate no condition after it |
| ControlRefinement.WhileAgrees | control_structures_inline.h:213-254 | A `while`, re-read on every seek, is the structured loop, with break, continue and return out of the body |
| ControlRefinement.DoAgrees | control_structures_inline.h:257-303 | A `do`, whose condition is also evaluated after a continue of this loop, is the structured loop |
| ControlRefinement.ForAgrees | control_structures_inline.h:538-654 | A `for`, met for the first time or with its header already switched, is e1; while (e2) { body; e3 }, and `for_stack` ends as it began |
| ControlRefinement.HeaderFirst | control_structures_inline.h:538-611 | On first entry, whatever the orientation of the header, the first and second expression are evaluated and the third is not |
| ControlRefinement.HeaderLater | control_structures_inline.h:538-611 | On a later pass the third and then the second are evaluated, and the first is not |
| ControlRefinement.SwitchAgrees | control_structures_inline.h:992-1065 | A `switch` counts as a loop level and runs from the first matching label or the default, until a break |
| ControlRefinement.CallAgrees | control_structures_inline.h:830-985 | A call binds the values of its arguments in order, runs the body with a loop state of its own, and yields what it returns or the empty value |
| ControlRefinement.ExprAgrees | control_structures_inline.h:751-827 | `&&`, the or operator and ?: evaluate exactly the operands that lazy semantics requires, in order |
| Decisions.ForEnters | language-parser.y:480 | The machine enters the body of `for (; e2; ) { op(); break; }` exactly if the last expression of `e2` does not yield 0, and always if there is none |
| Decisions.ForDecides | language-parser.tab.c:2425 | At any pass a `for` ends where the last expression of its second list yields 0, and otherwise goes into the body |
| Decisions.WhileEnters | control_structures_inline.h:213-254 | The machine enters a `while` exactly if its condition does not yield 0 |
| Decisions.DoRepeats | control_structures_inline.h:280-303 | A `do` asks for a second pass exactly if its condition, evaluated behind the body, does not yield 0 |
| Decisions.IfChooses | control_structures_inline.h:306-418 | The machine takes the first branch if the condition does not yield 0, the other if it does |
| Decisions.SwitchChooses | control_structures_inline.h:992-1065 | The subject is compared with the label, in this order; a match falls through to the default |
| Decisions.AndYields | control_structures_inline.h:751-791 | The right operand is evaluated exactly if the left one does not yield 0, and the value is 1 if neither does, otherwise 0 |
| Decisions.OrYields | control_structures_inline.h:751-791 | And for the or operator exactly if the left one yields 0; the value is 0 if both do, otherwise 1 |
| Decisions.TernaryYields | control_structures_inline.h:794-827 | The first alternative if the test does not yield 0, otherwise the second, and no other |
| Decisions.CallYields | control_structures_inline.h:830-985 | The values of the arguments are bound before the body runs; the call yields what it returns, and 0 if it returns nothing or comes to its end |
| Decisions.Returns | control_structures_inline.h:657-690 | `return` without a value returns 0 |
| Decisions.InternalYields | control_structures_inline.h:943-985 | A function of the interpreter is done once with the values of its arguments, and yields its value |
| SkippedCode.SkippedStmt | control_structures_inline.h:213-330 | Reading any statement with `Execute` at 0 changes nothing but that the `for` headers in it, not yet switched, are switched and marked so |
| SkippedCode.SkippedExpr | control_structures_inline.h:751-827 | Reading any expression with `Execute` at 0 changes nothing at all |
| KeptKeywords.KeptStmts | control_structures_inline.h:231-254 | In texts that fit, a loop keyword that reads as continued stays so across any code unless the loop stands directly behind a `while`, and code with the loop elsewhere cannot be read to its end meanwhile |
| WalkInvariants.StmtKeeps | control_structures.h:47 | Every statement that is read to its end, from any state in which `Execute` is SHOULD_EXECUTE and however it reenters, leaves it so, and leaves the loop depth and the control-structure, function-state and `switch` stacks as they were, and the `for` stack as it was below the loops of this call |
| WalkInvariants.ExprKeeps | control_structures_inline.h:751-985 | And every expression, calls included, leaves the flag, all loop fields and all four stacks as they were |
| ControlRefinement.WhileEnds | control_structures_inline.h:231-254 | Behind a body that ended with a given signal the loop is back at its keyword exactly on normal end or a continue of it, with the keyword continued, and otherwise out with the signal one level lower |
| ControlRefinement.DoTested | control_structures_inline.h:280-303 | Behind its condition a `do` is back at its keyword exactly if the condition holds, and otherwise out |
| ControlRefinement.DoGoesOn | control_structures_inline.h:268-278 | Behind a body that ended normally or with a continue of this loop the condition is executed, in the state the body left |
| ControlRefinement.SwitchEnds | control_structures_inline.h:1046-1065 | A break or continue of this level ends with the switch, and one of an outer level goes on one level lower |
| ControlState.OpenedCode | control_structures_inline.h:213-322 | Behind each action that opens a piece of code, the code is executed exactly if its surroundings are and the value asks for it |
| ControlState.OneBranch | control_structures_inline.h:306-418 | Of if, elseif and else exactly the first branch whose condition holds is executed, and no condition behind it |
| ControlState.HeaderParts | control_structures_inline.h:538-611 | Which parts of a `for` header are executed in a first and a later pass, switched or not, and that what was written second decides on the body |
| ControlState.LabelRuns | control_structures_inline.h:1007-1044 | A label is executed exactly if it is the first to match or one has matched before |
| ControlState.JumpsStop | control_structures_inline.h:334-365 | break and continue are fatal exactly if the count names no loop around them in the function, return exactly outside functions; behind them nothing is executed, and the level named is the innermost exactly for a count of 1 |
| ControlState.ConstructsClose | control_structures_inline.h:306-418 | The closing actions of branches and operators restore the state before their opening ones |
| ControlState.SwitchCloses | control_structures_inline.h:992-1065 | So do those of a switch, matched or not |
| ControlState.FunctionsClose | control_structures_inline.h:496-985 | A declaration adds its function exactly when executed and is fatal if the name is taken; the actions of a call restore the caller's state but for the return slot |
| ControlState.LoopsClose | control_structures_inline.h:213-303 | A loop with an empty body is back at its keyword exactly when executed with a true condition, and changes nothing but the keyword |
| ControlMachine.Interpreter.RunScript | language-parser.tab.c:2019-2287 | A script on a fresh interpreter: unless it reenters a barred loop it ends as the script does, with its history and functions, at rest; where its text fits, it completes only then |
| ControlMachine.Interpreter.ParseStmt | language-parser.y:278-352 | The parser, updating the state in place, has the effect of the walk over the statement in its place, further passes of loops behind it included |
| ControlMachine.Interpreter.ParseExpr | language-parser.tab.c:2501-2661 | The same for expressions, with the value left in the slot |
| ControlMachine.Interpreter.EndWhile | control_structures_inline.h:231-254 | Whole new state, and seeks back exactly when executing or on a continue of this level |
| ControlMachine.Interpreter.ForPostStatement | control_structures_inline.h:613-654 | Whole new state, header switch included, and whether it seeks back |
| ControlMachine.Interpreter.CallEnd | control_structures_inline.h:943-985 | Whole new state: the `for` stack is popped down to the mark of this call, by a loop, and the saved state is back |
| TokenSwitch.TokenCache.TcSwitch | token_cache.c:206-250 | Fails exactly if the numbers are not places of the cache in order; otherwise the two ranges, of any lengths, change places around the middle token, every token in them is renumbered to its place, and nothing else moves |
| TokenSwitch.SwitchTwice | token_cache.c:206-250 | Switching around the place the middle token has got restores the cache exactly, and every token is numbered by its place in between |
| TokenSwitch.HeaderSwitched | control_structures_inline.h:618-621 | What the parser then reads in the header is the third expression, the semicolon, the second expression, with the tokens before and behind unchanged |
| TokenSwitch.SwitchShows | control_structures_inline.h:618-621 | What tc_switch does to the tokens of one of many headers is what the control machine does to its set of swapped headers |
| TokenSwitch.HeaderReads | control_structures_inline.h:538-611 | In a header the machine takes to be swapped the tokens of the third expression stand second and those of the second third, around the same semicolon; in any other as written |
| TokenSwitch.NumberRoundTrip | token_cache.h:66-71 | A token number gives back its cache and its place |
| ConfigSyntax.ReadIsGrammar | configuration-parser.tab.c:393-397 | Reading statement by statement succeeds on exactly the token sequences that derive from `statement_list` by the rules of the tables |
| ConfigParser.AcceptsTheGrammar | configuration-parser.tab.c:416-456 | A parse ends with 0 for exactly the sentences and with 1 for exactly the other sequences, unless it faults |
| ConfigParser.Parser.Yyparse | configuration-parser.tab.c:724-1086 | The table-driven loop with default reductions terminates on every token sequence, with the code and the tables that the statements completed before the end or the first error give; the moments it passes are a run of the automaton from the start of the file to where the tables accept or have no action, none with more than five stack entries |
| ConfigParser.RunsAreShallow | configuration-parser.tab.c:416-456 | In every run of the automaton on any tokens, however far, the stack holds at most five states |
| ConfigParser.FaultsExactly | configuration-parser.tab.c:961-972 | The null section pointer is followed exactly in browscap mode when an assignment comes before the first section |
| ConfigParser.EarlyAssignmentFaults | configuration-parser.tab.c:961-972 | A browscap file that is one assignment does |
| ConfigParser.ErrorTokenIsNeverShifted | configuration-parser.tab.c:1194-1213 | No state has an entry for the error token |
| ConfigParser.Parser.Unwind | configuration-parser.tab.c:1165-1213 | So every error pops all states and ends with 1 |
| ConfigParser.OnStates | configuration-parser.tab.c:417-456 | What the tables make each state do on each token |
| ConfigParser.Parser.Decide | configuration-parser.tab.c:823-932 | A state decides by its default without reading a token where it has no other entry, and otherwise by its tables on the next token |
| ConfigParser.Parser.Perform | configuration-parser.tab.c:956-1020 | The action of a rule does to the tables what its statement means, and fails where it follows the null pointer |
| ConfigActions.CfgIsLastWriterWins | configuration-parser.tab.c:956-972 | In cfg mode each directive ends with the last value the file gives it and others keep theirs; bare names and sections change no table |
| ConfigMeaning.LastValueStays | configuration-parser.tab.c:961-963 | In cfg mode the last assignment to a name is what the table holds under the name as written |
| ConfigMeaning.OthersStay | configuration-parser.tab.c:961-963 | A name to which nothing is assigned is as before |
| ConfigMeaning.ReadsAssignment | configuration-parser.tab.c:355-397 | By the scanner's codes: a string, 61 and a string, true or false assign its text, a newline the empty string; anything else there ends the reading |
| ConfigMeaning.ReadsExtension | configuration-parser.tab.c:355-397 | The extension code, 61 and a string name a library; anything else there ends the reading |
| ConfigMeaning.ReadsNoEquals | configuration-parser.tab.c:355-397 | A string without 61 behind it is a statement of its own, the extension code an error |
| ConfigMeaning.ReadsOneToken | configuration-parser.tab.c:355-397 | A section and a newline are statements, and no other code begins one |
| ConfigMeaning.LoadedInOrder | configuration-parser.tab.c:978-986 | In both modes exactly the libraries named are loaded, in order |
| ConfigActions.LastValueIsLast | configuration-parser.tab.c:956-972 | The last value is that of the assignment behind which none has the name |
| ConfigActions.BrowscapIsSectionwise | configuration-parser.tab.c:961-1020 | In browscap mode each section ends with exactly its converted pattern and its own lower-cased assignments, a later section of the same title replacing an earlier one, and the whole fails exactly if an assignment comes first |
| ConfigMeaning.SectionPattern | configuration-parser.tab.c:999-1004 | Behind the last section of a title and no assignment to that key, the entry `browser_name_pattern` is there: with plain wildcards it matches exactly what the title does as a pattern, without wildcards it is the title |
| ConfigMeaning.FoundInLowerCase | configuration-parser.tab.c:964-967 | An assignment is found under its name with the letters A to Z moved by 32, unless a later one of its section has the same |
| ConfigMeaning.SectionEntry | configuration-parser.tab.c:961-1004 | For every key the table of a title holds what the last assignment to it in the last section of that title gives, and otherwise the pattern or nothing |
| ConfigMeaning.OtherTitles | configuration-parser.tab.c:961-1004 | A title that no section has keeps its table |
| ConfigActions.ApplyAllAppend | configuration-parser.tab.c:956-1032 | The effect of a file is a left fold: that of its beginning, then that of the rest |
| BrowscapPattern.ConvertPattern | configuration-parser.tab.c:296-336 | The two-index loop fills the buffer with the specified conversion and a final NUL, which falls behind the buffer exactly if every character is a star or a dot, and leaves a pattern without wildcards alone |
| BrowscapPattern.ConvertPreservesMeaning | configuration-parser.tab.c:296-336 | A text matches the pattern if and only if it wholly matches the converted expression, for every plain pattern with a wildcard and every text |
| BrowscapPattern.GlobLiteral | configuration-parser.tab.c:296-336 | A pattern without wildcards matches itself and nothing else |
| BrowscapPattern.GlobWildcards | configuration-parser.tab.c:296-336 | A star matches everything, a question mark what has one character |
| BrowscapPattern.GlobConcat | configuration-parser.tab.c:296-336 | One pattern behind another matches exactly the texts that split into one each matches |
| BrowscapPattern.ConvertedLength | configuration-parser.tab.c:311-332 | The expression has the length of the pattern plus the number of its stars and dots, and at most twice it |
| BrowscapPattern.TerminatorFits | configuration-parser.tab.c:309-332 | The final NUL falls inside the buffer exactly if some character of the pattern is neither star nor dot |
| BrowscapPattern.TerminatorOverruns | configuration-parser.tab.c:309-332 | For the pattern `*` it falls behind the buffer |
| BrowscapPattern.ConvertIsInjective | configuration-parser.tab.c:296-336 | Different wildcard patterns without backslashes become different expressions |
| BrowscapPattern.ConvertCollides | configuration-parser.tab.c:305-307 | Both restrictions are needed |
| Scanner.LexScanner.Lex | language-scanner.c:3007-4238 | For any chunks the file is read in, any growth of the buffer, and texts with NULs: the token is the longest accepted prefix of all that is pending in buffer and file, the action is the one accepted there, the rest stays pending, and end of file is reported only when nothing is |
| Scanner.LexScanner.MatchLoop | language-scanner.c:3025-3043 | The loop stops in a jamming state of the text read, with the last accepting position before it recorded, or has run over an end-of-buffer character |
| Scanner.FoundIsLongest | language-scanner.c:3045-3053 | Where nothing longer is accepted, backing up to the recorded position finds the maximal munch |
| Scanner.LexScanner.PreviousState | language-scanner.c:4381-4407 | Running the automaton again over the token so far, NULs taken as text, gives the state and the record of that text |
| Scanner.LexScanner.AtNul | language-scanner.c:4142-4177 | A NUL in the text is consumed, or the match stops before it with nothing longer accepted |
| Scanner.LexScanner.EndOfBuffer | language-scanner.c:4117-4232 | At the end of the buffer the scan ends with the maximal munch or the end of file, or resumes farther on |
| ScannerTables.Advance | language-scanner.c:3034-3040 | One goes from row to row along `yy_def` to the first that has an entry for the class, which `yy_meta` translates on the way into every row from the first template on, and the result is that row's entry in `yy_nxt` |
| WordScanner.WordIsTaken | language-scanner.c:3034-3040 | With concrete compressed tables, whose words have their entries in a template row and digits only by way of `meta`: of every text that begins with a letter the token is the longest word |
| WordScanner.OtherIsTaken | language-scanner.c:4390 | And of any other text its first character, a NUL as well |
| WordScanner.WordsAreWellFormed | language-scanner.c:3034-3040 | These tables are as the theorems assume |
| ScannerTables.NothingLonger | language-scanner.c:3043 | In a jamming state no longer prefix is accepted |
| ScannerTables.LongestIsUnique | language-scanner.c:3025-3053 | There is one maximal munch, so the two back-up schemes agree |
| RejectScanner.Scanner.MatchLoop | configuration-scanner.c:683-700 | The loop fills the state buffer with the states of all prefixes read and never overruns it: its size is just enough for a full buffer and both marks |
| RejectScanner.Scanner.FindRule | configuration-scanner.c:702-719 | Backing up through accept lists finds the last state that accepts, and its first action |
| RejectScanner.FirstOfList | configuration-scanner.c:705-711 | The action of an accepting state is the first of its part of the accept list |
| RejectScanner.Scanner.Match | configuration-scanner.c:683-719 | The match is the maximal munch and its action, or an end-of-buffer character was met |
| RejectScanner.Scanner.Lex | configuration-scanner.c:671-1007 | For any chunks and texts with NULs: the token is the longest accepted prefix of all that is pending, found by way of the state buffer, the rest stays pending, and end of file is reported only when nothing is; it fails exactly if the file has not ended and the match loop would not stop on the characters that fit into the buffer |
| RejectScanner.OverflowsMeans | configuration-scanner.c:683-700 | That the match loop does not stop on so many characters says that it stops on no fewer |
| LineScanner.LongLineOverflows | configuration-scanner.c:1073-1081 | For tables of a scanner of lines, which are as the theorems assume, a text overflows exactly if there is no newline among the characters that fit |
| LineScanner.ALongLine | configuration-scanner.c:1073-1081 | A line of 16383 characters is too long for the buffer of 16384, and the same behind a newline is not |
| LineScanner.LinesAreLists | configuration-scanner.c:683-719 | Tables and accept lists such as the theorems assume exist |
| RejectScanner.Scanner.TryNul | configuration-scanner.c:1192-1215 | The transition on a NUL is pushed, or nothing longer is accepted |
| RejectScanner.Scanner.PreviousState | configuration-scanner.c:1159-1183 | The state buffer is rebuilt for the token so far |
| ScannerBuffer.Buffer.GetNextBuffer | language-scanner.c:4249-4376 | The token and what the file has still to give are the same text before and after, for any chunk and any growth; the marks are in place; the three codes mean more text, an end with pending text, an end with none |
| ScannerBuffer.Buffer.Grow | language-scanner.c:4300-4335 | Doubling keeps what is in use and makes room |
| ScannerBuffer.Buffer.Unput | language-scanner.c:4446-4485 | The character goes in front of what is pending; it fails exactly if no room is left in front |
| ScannerBuffer.Buffer.Input | language-scanner.c:4492-4559 | The first pending character is taken and the rest stays pending; none only if nothing was |
| ScannerBuffer.Buffer.UnputInput | language-scanner.c:4446-4559 | Reading back what was pushed back, with or without the buffer shifted to make room, yields it and restores the pending text; pushing back fails exactly if no room is left in front |
| Allocator.Manager.Emalloc | alloc.c:88-143 | A block of the size that is not live, the one cached last if its row has one; exits exactly if a new block would exceed the limit by more than 1048576; the exhaustion flag is raised exactly by a new block that exceeds the limit, not while shutting down; list, cache rows and accounting stay consistent |
| Allocator.Manager.Efree | alloc.c:151-175 | The block waits in the row of its size if there is room, still listed and counted; otherwise it leaves list and accounts and is freed |
| Allocator.Manager.Resize | alloc.c:222-254 | The block, or one in its place, in front of the list with the new size, the difference accounted for and the flag raised exactly over the limit; other live blocks and the cache stay |
| Allocator.Manager.Erealloc | alloc.c:207-254 | The same with exact bytes, list, cache rows, flag and frees, and an allocation for a null pointer; exactly when the process exits |
| Allocator.Manager.FreeThenMalloc | alloc.c:105-113 | A small block freed is what the next request of its size gets, and list and cache are as before |
| Allocator.Manager.Remove | alloc.c:75-83 | Taking a block off the head, the middle or the end leaves the others linked in order both ways |
| Allocator.Relinked | alloc.c:75-83 | Making the links around a block skip it gives the list without it |
| Allocator.Manager.Enlist | alloc.c:124-138 | In front of the list, accounted for with its new size, or the limit is exceeded |
| Allocator.Manager.CheckMemoryLimit | alloc.c:45-67 | The counter, an unsigned int, and when the process exits or the exhaustion is flagged |
| Allocator.Manager.Shutdown | alloc.c:338-377 | Every listed block, live or cached, is given back exactly once |
| Allocator.Manager.Start | alloc.c:323-335 | Nothing allocated, and all invariants hold |
| Allocator.TakenFromRow | alloc.c:105-107 | Reusing a cached block keeps live and cached blocks a partition of the list, and the block was not live |
| Allocator.TotalWithout | alloc.c:170 | The bytes listed are those of a block and of the others |
| Alloca.Stack.Alloca | alloca.c:163-235 | Exactly the blocks tagged deeper than the caller, above or below it as the stack grows, are freed, and so never one of a function that has not returned; the chain stays sorted by depth |
| Alloca.Stack.Reclaim | alloca.c:187-201 | Stopping at the first header that is not deeper frees the deeper ones wherever they are in the chain |
| Alloca.NothingDeeper | alloca.c:187-201 | Behind a header that is not deeper, none is |
| Alloca.Stack.Enter | alloca.c:153-163 | A deeper frame is entered without harm to any block |
| Increment.IncrementedValue | operators.c:934-1001 | Only the alphanumeric suffix changes; its value in mixed radix rises by exactly one with the classes unchanged, or from all maxima wraps to minima, and a whole string of maxima grows by one character |
| Increment.BumpCounts | operators.c:945-982 | The carry adds one in the mixed radix, or wraps to zero, and keeps every class |
| Increment.MaxIsLast | operators.c:948-975 | All maxima are exactly the last value of their classes |
| Increment.DigitsCount | operators.c:934-1001 | On strings of the characters 0 to 9 it is the decimal successor, growth included |
| Increment.LettersCount | operators.c:934-1001 | On words of a to z, and of A to Z, it is the successor in bijective base 26, growth included |
| Increment.MixedStrings | operators.c:934-1001 | Six strings of mixed classes, among them growth behind a digit and a carry stopped by a hyphen |
| Increment.BumpIsLocal | operators.c:976-979 | What stands in front of the suffix stays |
| Increment.Pval.CarryLoop | operators.c:945-982 | The loop over the characters in place carries into the string, and asks for growth exactly for a string of maxima |
| Increment.Pval.IncrementString | operators.c:934-1001 | The string is the incremented one |
| Increment.Pval.Increment | operators.c:1004-1026 | By type: integers wrap, the empty string counts as 0, others fail unchanged |
| ArgTypes.TableIsDeclaration | control_structures_inline.h:448-470 | For any declaration whose by-reference parameters are among the first 255 and for every argument: the answer is the declared mode exactly if the argument is among the first 255, or its position modulo 256 names no parameter by reference, or is 0 and there is none |
| ArgTypes.TableAnswers | control_structures_inline.h:477-481 | What the answer is for every argument: the declared mode at its position modulo 256, and the position of the last parameter by reference where that is 0 |
| ArgTypes.LateArguments | control_structures_inline.h:477-481 | The 256th and 257th argument of a function with one parameter by reference are answered wrongly |
| ArgTypes.RightExactlyIf | control_structures_inline.h:465-466 | Up to 256 parameters the answers are right exactly unless the 256th and an earlier one are by reference, since the count then wraps to 0 |
| ArgTypes.CountWraps | control_structures_inline.h:465-466 | In that case each of the first 255 arguments goes by value, whatever is declared |
| ArgTypes.ArgumentsWrap | control_structures_inline.h:477-481 | From the 257th argument on the answers repeat |
| ArgTypes.FunctionState.GetFunctionParameter | control_structures_inline.h:448-470 | One more parameter, in place, with the table that the longer declaration has |
| ArgTypes.FunctionState.Enlarge | control_structures_inline.h:454-464 | The grown table keeps its modes and is zero behind them |
| ArgTypes.FunctionState.PassParameter | control_structures_inline.h:1374-1381 | An argument goes by reference if asked to or if its mode is not by value |
| ArgTypes.FunctionState.PassParameterByValue | control_structures_inline.h:476-485 | An expression keeps the call from executing exactly where a reference is forced |
| ArrayIndex.Store.Isset | variables.c:470-492 | The answer is whether the path leads through existing values to one that is set; the tracker stack is as before, and all tables and values are, exactly unless the path runs into an old blank value |
| ArrayIndex.IsSetInArray | control_structures_inline.h:1209-1261 | In an array a string leads to the entry under that string, an integer to the one under that integer, and a missing entry, any other index and none lead nowhere |
| ArrayIndex.IsSetInString | control_structures_inline.h:1183-1204 | In a string one index leads to a character exactly if its integer value is a place of it, and a second nowhere |
| ArrayIndex.IsSetElsewhere | variables.c:477-479 | Into other values no index leads; without one, all but the undefined are set |
| ArrayIndex.Store.Follow | control_structures_inline.h:1115-1290 | At most one tracker is pushed on a path, the write flag is set if and only if it is, and it names the topmost entry created |
| ArrayIndex.TakenBack | control_structures_inline.h:1290-1323 | Deleting the tracked entry brings the old tables and values back, exactly unless the path has run into a blank value or ends at an old NULL; and the answer about being set is right |
| ArrayIndex.EmptyStringBecomesArray | control_structures_inline.h:1170-1287 | A concrete failing path: an index into the empty string is answered rightly, but the variable does not stay what it is |
| ArrayIndex.OneDimension | control_structures_inline.h:1170-1287 | One more dimension keeps that: old values change only below the topmost new entry |
| ArrayIndex.Store.FetchArrayIndex | control_structures_inline.h:1170-1287 | A character in range, or nothing; in an array, or a blank value made one, the entry under the string or the integer, found or made and then tracked, without an index the next free integer, and otherwise nothing |
| ArrayIndex.Store.StartArrayParsing | control_structures_inline.h:1115-1168 | The variable of that name if it is an array or a string, or created as an empty array and tracked |
| ArrayIndex.Store.CleanTop | control_structures_inline.h:1303-1323 | The top tracker goes, with its entry if asked to |

## Left out

- Reading tokens: the LALR parser of the language is modelled as a walk over the script in the order of its grammar actions; its tables are not.
- ControlTheorems.RunAgreesExactly: of scripts that do not fit, what becomes of a run that reenters a stray loop is shown for one script only (`StrayScriptGoesWrong`); every other run of them is covered by `RunAgrees`.
- After a misread loop keyword: what the parser does with the syntax error.
- Other sources of code: require, include, eval, display of the source, backquotes and encapsed strings.
- Classes: declarations, `new`, methods; `ArrayIndex` has properties only as tables to start from.
- Fatal errors: out-of-range jumps, redeclared or unknown functions, and `return` in the main script end a run as Halted.
- Passing parameters: a call whose argument cannot be passed (function_type set to 0) is modelled in `ArgTypes`, not in the control machine; parameter binding is one event in the history.
- Default labels: the grammar puts `default` last, and so does the model.
- Continued keywords of `do` and `for`: they are put back before anything is evaluated, so that only a `while` is ever met with its keyword continued, and only that is modelled.
- Values: what internal functions compute, and all of operators.c but `++`.
- The scanners' tables: they are a parameter under `ScannerTables.WellFormed`; the language scanner's start conditions are start states of the same tables.
- ScannerBuffer.Buffer.Grow: sizes are unbounded, so that the fallback for a doubling that overflows is not modelled; nor is interactive reading.
- Scanner.LexScanner.Lex: the actions of the rules, among them those that push back or extend the token (yyless, yymore).
- ConfigParser.Parser.Yyparse: extensions are loaded by an event in the tables only, and the memory of token texts is not modelled.
- Allocator.Manager.Emalloc: a failing malloc ends the process and is not modelled; requested sizes are those an int holds, and the configured limit leaves room for one more block in the unsigned counter.
- Allocator.Manager.CheckMemoryLimit: the error raised when the limit is first exceeded may allocate by itself.
- Allocator.Manager.Resize: the contents of blocks.
- Alloca.Stack.Alloca: the direction of stack growth is a parameter, not found at run time.
- Increment.Pval.Increment: doubles are reals, so that a double too large for the addition to matter still grows.
- ArrayIndex.Store.Isset: a variable that is neither array nor string leaves the write flag of the result unset in the source; such variables are excluded. Aliases through references are covered, freeing of values is not.
- ArrayIndex.Store.FetchElement: the next free index of a table stays raised when an entry is taken back, and is not part of what is compared.
- ArgTypes.TableIsDeclaration: parameters by reference behind the 255th are left to `RightExactlyIf`, which goes up to 256 parameters.
- Sockets, files, server modules, signals and logging; per-directory configuration; thread-safe, Windows, Cray and DEBUG variants.
