# A model of make-mcp, and proofs about it

make-mcp serves annotated Makefile targets as MCP tools. It parses comment annotations above targets,
watches the files for changes, swaps the tool registry when they change, and runs `make` with the
arguments of a tool call as variables. This project models these parts in Dafny and proves what they
promise, from the characters of a Makefile to the argument vector of `make`:

| files | part of the program |
|---|---|
| `Text`, `Regex`, `Annotation` | strings, Go's leftmost-first regular expressions, the annotation and target expressions |
| `Schema`, `Parser` | `pkg/parser`: recipes, their validation, the line state machine |
| `LookBack`, `Composition`, `Validation`, `RoundTrip` | the parser against a look-back specification, its algebra, what validation guarantees, printing and parsing |
| `Errors`, `Provenance` | which params are parsed and which violations reported, and the line of the file that each recipe and error comes from |
| `Protocol`, `Debounce`, `Wakeup`, `Draining`, `Watcher` | `pkg/watcher` as a step relation over all interleavings, its invariants, when it stalls, when it drains, and the object that refines it |
| `Config`, `Tools`, `Runner`, `Agreement`, `MakeLine` | configuration layers, advertised schemas, argument vectors, the agreement of the last two, and how make reads a vector |
| `Reload`, `Serving`, `Convergence`, `Declarable` | start-up and hot reload over any run of file events, up to the equivalence with a restart, and what a Makefile can declare that the rest does not expect |
| `Delivery` | from the characters of all configured Makefiles to what the served tools say |
| `Streaming`, `Coverage`, `Docs` | output streaming, coverage totals, the normal forms of the metrics page |

Code that updates state is modelled by methods and classes (`Parser.ParseMakefile`,
`WatcherObject.Watcher`, `Reload.ToolServer`, `Reload.Daemon`, `Coverage.ParseProfile`, ...). Each is
proved against a function or a step relation, and the theorems are about those. The watcher object keeps
a ghost trace of the protocol steps it has taken; between any two accesses to shared state other
goroutines, the clock and the consumer may take any number of steps.

## What the proofs found

- A wake-up can be lost in two ways. A flush that meets a full buffer puts the path back "to try again",
  but schedules nothing (`pkg/watcher/watcher.go:157-162`). And the flush reads the clock a second time
  (`time.Until` at line 168), so a deadline that passes in between gives a wait that is not positive, and
  the timer is not reset. `Wakeup.FullBufferStalls` and `Wakeup.LateClockStalls` are concrete runs;
  `Wakeup.StalledExactly` says exactly when it happens. The next time the timer is set all is well again,
  whatever came before (`Draining.NoWakeUpIsLost`, `Draining.PendingDrains`).
- A config change whose own event fails is dropped: a later event for a Makefile succeeds with the old
  config, although a restart would use the new one (`Convergence.ConfigChangeIsDropped`).
  `Convergence.ReloadIsRestartExactly` gives the exact condition under which reloading amounts to
  restarting.
- Reloading makes none of the checks of start-up: a config file that no longer names a Makefile is a
  successful reload to an empty registry, while a restart is refused (`Convergence.ReloadSkipsChecks`).
- Schema and runner agree exactly when no param name is declared with two types
  (`Agreement.SchemaAgreesExactly`), which the parser does not check. For params with distinct names, the
  arguments can be read back from the vector exactly when no two params share a variable name with
  confusable types (`Agreement.VectorDecodesExactly`): `a-b` and `a_b` are both `A_B`. Makefiles can
  declare both (`Declarable.TwoTypesAreServed`, `Declarable.ClashesAreServed`).
- Target names may start with "-" (`pkg/parser/parser.go:31`). Make takes such a name for a switch and is
  given no goal. `Serving.CallsRunTheirTargetExactly` shows that every call of every other tool runs
  exactly its target, and `Declarable.SwitchesAreServed` that such a tool can be served.
- Between the swap of the registry and the publication of the tools, a call runs the new recipe under the
  old schema. `Serving.WindowAgreesExactly` says for which changes this makes no difference.

Where comments or documentation and code disagree, the model follows the code:

- The lazy part of the annotation expression is said to stop at the first delimiter
  (`pkg/parser/parser.go:97-98`). It stops at the first delimiter that white space, a key and a colon
  follow.
- `wiki/Architecture.md:184-187` says that watched paths follow the `makefiles` list. The code watches the
  paths it was started with.
- `wiki/Architecture.md:96` ties readiness to a parsed Makefile. The code asks for at least one tool, and
  can become unready again.
- The advertised schema does not forbid further properties, but the runner refuses unknown keys;
  `Agreement.Conforms` therefore asks for advertised keys only.

## Model

| member | source | states |
|---|---|---|
| `Regex.MatchIffFits` | pkg/parser/parser.go:348-354 | the backtracking matcher succeeds at a position iff the items of the expression fit there in some way, and what it returns is such a fit |
| `Regex.FindIsLeftmostFit` | pkg/parser/parser.go:348-354 | the search succeeds iff the expression fits somewhere, and returns a fit at the leftmost position that has one |
| `Annotation.ScanIsExtract` | pkg/parser/parser.go:38-51 | on every line and for every delimiter, an explicit scanner accepts exactly what the expression accepts, with the same key and value; the match starts at the first "#" and uses the first delimiter after it that a field follows |
| `Annotation.FieldSplitIsUnique` | pkg/parser/parser.go:38-51 | given the delimiter occurrence, every way to fit the expression gives the same key at the same place, and every one that captures to the end of the line the same value |
| `Annotation.AnnotationExactly` | pkg/parser/parser.go:38-51 | by characters alone: a line is an annotation with a field iff the field stands after the first delimiter occurrence, behind the first "#", that white space, a key and a colon follow |
| `Annotation.TargetLines` | pkg/parser/parser.go:356-365 | a line is a target line iff a target name stands before its first colon with no "=" after it, and then the name is the trimmed text before the colon |
| `Schema.Validate` | pkg/parser/schema.go:93-125 | no violation iff every required field is there, the risk is known and the content type parses |
| `Schema.CollectViolations` | pkg/parser/schema.go:97-125 | the appending code returns the specified violations, all of them and in order |
| `Parser.BuildParams` | pkg/parser/parser.go:276-312 | params and errors for each of the four cases, parsed values and errors each in order |
| `Parser.BuildToolHints` | pkg/parser/parser.go:236-274 | the four hints, and one error for each that is not a boolean |
| `Parser.ValidateStrict` | pkg/parser/parser.go:218-234 | one error for each missing hint under strict rules, none otherwise |
| `Parser.Assemble` | pkg/parser/parser.go:171-195 | the recipe of a target, and param, hint, strict and schema errors in this order |
| `Parser.ReadLine` | pkg/parser/parser.go:133-209 | one turn of the loop emits and leaves what the state machine says, and keeps: the block flag holds iff something is pending, and otherwise all pending state is initial |
| `Parser.ParseMakefile` | pkg/parser/parser.go:90-216 | the loop returns the result of the state machine over all lines |
| `LookBack.StateIsBlockAbove` | pkg/parser/parser.go:117-131 | in every reachable state the pending fields are those of the annotation block directly above |
| `LookBack.ParseIsLookBack` | pkg/parser/parser.go:90-216 | the one-pass machine refines the look-back specification: line i gives a recipe iff it is a target without leading dot and the block above holds an annotation |
| `LookBack.BlockIsMaximalRun` | pkg/parser/parser.go:104-106 | that block is the annotations, in order, of the maximal run of annotation and comment lines directly above |
| `LookBack.LastValueIsLast` | pkg/parser/parser.go:101-102 | a scalar field is the value of the last annotation with its key, and absent iff there is none |
| `LookBack.BuiltIsDescribed` | pkg/parser/parser.go:171-183 | the recipe built from the state has, for each scalar key, the last value in the block, and as params the param values of the block in order |
| `Composition.NothingPendingAfterBlank` | pkg/parser/parser.go:199-203 | after a blank line nothing is pending, whatever came before |
| `Composition.BlankSeparates` | pkg/parser/parser.go:199-203 | the parse of two texts with a blank line between is the parse of the one followed by that of the other, for recipes and errors |
| `Composition.CommentsDoNotMatter` | pkg/parser/parser.go:156-157 | texts that differ only in plain comment lines, anywhere, have the same parse |
| `Composition.CommentLinesVanish` | pkg/parser/parser.go:156-157 | by characters: a line that starts with "#" and holds no annotation can stand anywhere, also inside a block, without a difference |
| `Composition.OtherLinesSeparate` | pkg/parser/parser.go:205-207 | by characters: a line that is not blank, does not start with "#", is no annotation and no target line ends the block, and the parse is that of what stands before followed by that of what stands after |
| `Composition.TargetLinesSeparate` | pkg/parser/parser.go:159-197 | the same for target lines, whose recipe belongs to what stands before |
| `Composition.DefaultDelimiter` | pkg/parser/parser.go:90-106 | without a delimiter the parse is that with "@" |
| `Composition.ParseMakefiles` | pkg/parser/parser.go:75-88 | the tagged results of all files in order, or an error iff some file cannot be read |
| `Composition.FilesAreOneText` | pkg/parser/parser.go:53-88 | apart from the source tags this is one parse of all files with blank lines between them |
| `Provenance.PlacesExactly` | pkg/parser/parser.go:53-88 | the places that produce a recipe, over all files, are listed once each, file by file and line by line |
| `Provenance.RecipesHavePlaces` | pkg/parser/parser.go:53-88 | the merged recipes are one for each of these places, in order: the target of its line, what the block above says, and the path of its file |
| `Provenance.ErrorsHavePlaces` | pkg/parser/parser.go:53-88 | an error is in the merged result iff the block above some target line commits its violation, and it carries that target's name and the path of its file |
| `Validation.AnnotationIsWellFormed` | pkg/parser/parser.go:344-354 | every extracted key has the key syntax, every value is trimmed and on one line |
| `Validation.TargetNameIsWellFormed` | pkg/parser/parser.go:356-365 | every target name is non-empty, trimmed, of target characters, without a colon |
| `Validation.ParsedIsParam` | pkg/parser/parser.go:314-342 | a value that parses gives a param with a valid name, a known type and a non-empty trimmed description |
| `Errors.FieldsExactly` | pkg/parser/parser.go:321-325 | a text is split into two given words iff it is these words with white space between and around them |
| `Errors.ParseParamSplits` | pkg/parser/parser.go:314-325 | a value has the wrong format iff it holds no separator, and the wrong fields iff the text before the first one is not two words |
| `Errors.ParseParamDecides` | pkg/parser/parser.go:321-342 | otherwise the name is checked first and then the type, and a param that parses has the two words and the trimmed rest, in this order |
| `Errors.BoolsExactly` | pkg/parser/parser.go:257-274 | which values of a hint read as true and which as false |
| `Validation.ViolationsAreComplete` | pkg/parser/parser.go:184-195 | a recipe has no violation iff the annotations above it meet every clause of the documentation |
| `Errors.ViolationsExactly` | pkg/parser/parser.go:171-195 | a violation, with the data it carries, is reported iff the annotations above the target commit it |
| `Errors.ViolationsInOrder` | pkg/parser/parser.go:184-195 | violations come as params, hints, strict rules, fields, each group in its own order, and none twice except the errors of params |
| `Validation.ValidIsComplete` | pkg/parser/schema.go:148-157 | `Valid` holds iff every emitted recipe meets every clause |
| `Validation.NamedParamsAreAccountedFor` | pkg/parser/parser.go:297-311 | with named params only, parsed params plus param errors are as many as param lines |
| `Validation.ValidParsesAreWellFormed` | pkg/parser/parser.go:184-195 | every recipe of a valid parse is well formed, under strict rules with all four hints |
| `Validation.EveryIDIsATargetName` | pkg/parser/parser.go:159-182 | every emitted recipe, valid or not, has a non-empty ID without colon or leading dot |
| `RoundTrip.AnnotationLineIsRead` | pkg/parser/parser.go:344-354 | a printed annotation line is read back as its key and value, whatever the delimiter is |
| `RoundTrip.LineEndings` | pkg/parser/parser.go:115-124 | lines end at a newline or at the end of the text, and one carriage return before the end is dropped |
| `RoundTrip.ShownIsParsed` | pkg/parser/parser.go:314-342 | a printed param is parsed back, also when its description holds the separator |
| `RoundTrip.PrintThenParse` | pkg/parser/parser.go:107-216 | for all well-formed recipes and every one-line delimiter, the text of the printed Makefile parses to exactly those recipes without errors, in strict mode too |
| `RoundTrip.WellFormedIsTheImage` | pkg/parser/parser.go:107-216 | recipes are well formed iff some Makefile declares exactly them without errors |
| `RoundTrip.ParseThenPrintThenParse` | pkg/parser/parser.go:107-216 | for every text with a valid parse, printing the recipes and parsing again gives the same parse |
| `Protocol.Settle` | pkg/watcher/watcher.go:37-39 | the settle time is positive |
| `Debounce.InvariantHolds` | pkg/watcher/watcher.go:77-181 | in every interleaving: done precedes the close of raw and of the channel, no flush runs over a closed channel, no deadline is more than settle ahead, the buffer holds at most 16 |
| `Debounce.NothingIsSentAfterClose` | pkg/watcher/watcher.go:83-156 | in every interleaving nothing is sent after the loop has closed the events channel, and it is closed once |
| `Debounce.PendingIsOwed` | pkg/watcher/watcher.go:125-173 | in every interleaving, even with a full buffer, a path is pending iff it was enqueued since its last event |
| `Debounce.EventsNeedEnqueues` | pkg/watcher/watcher.go:125-173 | between two events for a path, and before the first, there is an enqueue of it |
| `Debounce.EventsAreSettled` | pkg/watcher/watcher.go:125-173 | an event is sent only when the requested settle time, or 200 ms if none is requested, has passed since every earlier enqueue of its path |
| `Debounce.EventsAreConserved` | pkg/watcher/watcher.go:44-163 | events sent are events received followed by the buffer, which never holds more than 16 |
| `Debounce.EventsAreBacked` | pkg/watcher/watcher.go:125-173 | every path has had at least as many enqueues as events, a pending path counting as an event to come |
| `Debounce.ArmCoversAllPending` | pkg/watcher/watcher.go:125-135 | right after any enqueue, with no proviso, the timer is due at or after every pending deadline |
| `Wakeup.FoldedIsLeast` | pkg/watcher/watcher.go:166-172 | the running choice of the loop is the least of the waits when all are positive |
| `Wakeup.FoldedSign` | pkg/watcher/watcher.go:166-174 | in any visiting order, the choice is positive iff no wait is negative and the last one is positive |
| `Wakeup.TimesAreExact` | pkg/watcher/watcher.go:125-181 | the exact deadlines, timers and waits of every step: an enqueue is due a settle time after it, a path put back a settle time after the flush began, and a flush ends with the timer a least wait ahead or as it was |
| `Wakeup.FlushLeavesExactly` | pkg/watcher/watcher.go:149-172 | a flush leaves a path pending iff it has met a full buffer or a path that is not ready |
| `Wakeup.FlushStallsExactly` | pkg/watcher/watcher.go:149-181 | a flush that ends with nothing running or in flight stalls the watcher iff it met a full buffer and waited for no path, or its waits do not reset the timer |
| `Wakeup.StalledStays` | pkg/watcher/watcher.go:125-181 | a stalled watcher keeps its pending paths and sends nothing until the next enqueue |
| `Wakeup.StalledExactly` | pkg/watcher/watcher.go:125-181 | over all runs: stalled iff not closed and some flush lost the wake-up with no enqueue since |
| `Wakeup.FullBufferStalls` | pkg/watcher/watcher.go:155-164 | a run with 16 events in the buffer, none of them received, after which no retry is scheduled |
| `Wakeup.LateClockStalls` | pkg/watcher/watcher.go:150-174 | a run without a full buffer in which the second clock reading loses the wake-up |
| `Draining.SettingWakes` | pkg/watcher/watcher.go:125-181 | whatever came before, an enqueue, or a flush whose waits reset the timer, leaves the watcher awake: a timer that is running is not early for every pending path |
| `Draining.NoWakeUpIsLost` | pkg/watcher/watcher.go:125-181 | before Close, as long as no step since the timer was last set is one of the two exceptional ones: whenever something is pending and the lock is free, the timer is running, due no earlier than the least deadline, or a flush is in flight and that deadline has come |
| `Draining.PendingDrains` | pkg/watcher/watcher.go:137-181 | once enqueues stop, whatever came before and whatever is in flight: after as many flushes as are in flight plus two for every pending path, nothing is pending |
| `Draining.DrainsAfterLastEnqueue` | pkg/watcher/watcher.go:125-181 | the same from the last enqueue on, with no condition on the steps before it |
| `Draining.EveryFlushSends` | pkg/watcher/watcher.go:137-181 | if no flush is in flight when enqueues stop, every flush sends an event until nothing is pending |
| `WatcherObject.Watcher.constructor` | pkg/watcher/watcher.go:30-59 | the new watcher is in the start state of the protocol |
| `WatcherObject.Watcher.Enqueue` | pkg/watcher/watcher.go:125-135 | sets the path's deadline, arms the timer a settle time ahead, and is a Mark and an Arm step with only outside steps between |
| `WatcherObject.Watcher.HandleEvent` | pkg/watcher/watcher.go:105-123 | an event with a write, a creation or a rename is enqueued, any other changes nothing |
| `WatcherObject.Watcher.VisitReady` | pkg/watcher/watcher.go:153-165 | a ready path is deleted and sent, or put back with a new deadline |
| `WatcherObject.Watcher.VisitWaiting` | pkg/watcher/watcher.go:167-171 | a path that is not ready stays, and its wait is folded into the next settle time |
| `WatcherObject.Watcher.VisitAll` | pkg/watcher/watcher.go:149-172 | the range loop ends in every order and with every choice of revisits, having visited every path |
| `WatcherObject.Watcher.Flush` | pkg/watcher/watcher.go:137-181 | after done nothing changes; otherwise paths not ready keep their deadlines and every ready one is sent or due again a settle time later |
| `WatcherObject.Watcher.Close` | pkg/watcher/watcher.go:77-81 | done and then raw are closed, with any enqueues, flushes and the end of the loop in between |
| `WatcherObject.Watcher.CloseEvents` | pkg/watcher/watcher.go:83-91 | the deferred close is the Exit step, under the lock |
| `Config.MergeFields` | pkg/config/config.go:91-126 | the field-by-field assignments give the merged config |
| `Config.MergeLayers` | pkg/config/config.go:91-126 | layers can be grouped in any way, the empty layer changes nothing, every field that the upper layer sets is its own, and every field that it leaves unset is that of the lower one |
| `Tools.BuildInputSchema` | pkg/server/tools.go:42-60 | the loop gives the specified properties |
| `Tools.PropertiesAreDeclared` | pkg/server/tools.go:42-60 | a name is advertised iff it is declared |
| `Tools.PropertyOfLast` | pkg/server/tools.go:42-60 | the advertised type and description are those of the last declaration of the name |
| `Tools.BuildServerTools` | pkg/server/tools.go:12-29 | all tools in order and the index, or an error iff some schema cannot be encoded |
| `Tools.IndexMatchesTools` | pkg/server/tools.go:12-29 | the index has the tool names as keys, maps each to the last recipe with that ID, and the last tool of a name is made from that recipe |
| `Runner.DecimalDecodes` | pkg/runner/runner.go:206-218 | the decimal text of every integer parses back to it, and starts with "-" iff it is negative |
| `Runner.DecimalNatIsCanonical` | pkg/runner/runner.go:206-218 | the decimal text is digits without a leading zero |
| `Runner.BuildArgs` | pkg/runner/runner.go:161-196 | the vector or the first type error in declaration order; the order of the argument map decides only which unknown key is named |
| `Agreement.AcceptsExactly` | pkg/runner/runner.go:161-239 | for all params, the runner accepts exactly the arguments that use names declared with one type, each with its type |
| `Agreement.AcceptedConforms` | pkg/runner/runner.go:161-239 | whatever the runner accepts conforms to the advertised schema, for all params |
| `Agreement.ErrorIsOfFirstMisfit` | pkg/runner/runner.go:183-246 | a refused value is reported for the first param in declaration order whose value has not its type, under its name and the type advertised for it |
| `Agreement.SchemasAgreeExactly` | pkg/server/tools.go:42-60 | two schemas allow the same arguments iff their names and types are the same |
| `Agreement.RunnerAgreesExactly` | pkg/runner/runner.go:161-239 | any schema and the runner agree on all arguments iff the schema has the usable names with their types |
| `Agreement.SchemaAgreesExactly` | pkg/runner/runner.go:161-239 | the runner accepts exactly the arguments that conform to the advertised schema iff no name is declared with two types |
| `Agreement.EntryDecodes` | pkg/runner/runner.go:192 | splitting an entry at its first "=" gives back a variable name in `[A-Z][A-Z0-9_]*` and the exact text, whatever it holds |
| `Agreement.VariablesExactly` | pkg/runner/runner.go:248-251 | a param name that is a variable name sets itself, and two set the same variable iff they are the same up to letter case and "-" against "_" |
| `Agreement.TextDecodes` | pkg/runner/runner.go:198-239 | for every param type the text of a value determines the value |
| `Agreement.EntriesDecode` | pkg/runner/runner.go:183-193 | one entry for every provided param in declaration order, each decoding to the param's variable and the exact value |
| `Agreement.EntriesDecodeInOrder` | pkg/runner/runner.go:183-193 | the same by position: the entry of a provided param stands after as many entries as there are provided params before it |
| `Agreement.NoClashIsInjective` | pkg/runner/runner.go:183-193 | for all params without a clash, with repeated names too, different accepted arguments give different vectors |
| `Agreement.VectorDecodesExactly` | pkg/runner/runner.go:183-193 | for params with distinct names, different accepted arguments give different vectors iff no two params clash |
| `Agreement.VectorDecodesOnSamples` | pkg/runner/runner.go:183-193 | for all params, different accepted arguments give different vectors iff they do when every value is 1, true, "1" or "true" |
| `Agreement.RepetitionCanTell` | pkg/runner/runner.go:183-193 | with a repeated name a clash need not be ambiguous |
| `MakeLine.VectorReadings` | pkg/runner/runner.go:161-196 | how make reads the vector for any target and settings: the target as its only goal and the rest as variables iff the target does not start with "-" |
| `Reload.Registry.Swap` | pkg/server/server.go:347-352 | both fields are replaced |
| `Reload.Registry.GetRecipesByNames` | pkg/server/server.go:361-371 | the recipes of the registered names, in the order of the names |
| `Reload.LookupIsByName` | pkg/server/server.go:361-371 | the recipes come name by name: of two lists in sequence, of one name its own recipe or none |
| `Reload.ToolServer.constructor` | pkg/server/server.go:104-111 | registry and served tools are those built from the recipes |
| `Reload.ToolServer.HandleToolCall` | pkg/server/server.go:147-217 | unknown names, missing targets and refused arguments are answered by their errors, every other call by the vector for the recipe |
| `Reload.ToolServer.Reload` | pkg/server/server.go:126-145 | one swap, one notification, one success; or one failure and no change |
| `Reload.Daemon.OnEvent` | cmd/mcp-server/main.go:214-253 | one turn of the loop is one step of the system, including the four ways to fail |
| `Reload.Daemon.WatchLoop` | cmd/mcp-server/main.go:204-255 | any number of events is a run of the system |
| `Reload.NewServer` | pkg/server/server.go:47-112 | a server for the recipes, or none iff a schema cannot be encoded |
| `Reload.Start` | cmd/mcp-server/main.go:79-155 | config, checks, log file, telemetry, parse, validation, New and watcher in this order; starts iff all succeed |
| `Reload.DirAndBaseSplit` | pkg/server/server.go:326-334 | the root directory and the file name given to make put the path of a Makefile together |
| `Serving.HandleIsAllOrNothing` | cmd/mcp-server/main.go:214-253 | an event succeeds iff the config loads, all Makefiles are readable and valid and every schema can be encoded; otherwise config and registry are unchanged |
| `Serving.ReloadsAreAccountedFor` | cmd/mcp-server/main.go:214-253 | over any run: one outcome per event, and as many successes as swaps and notifications |
| `Serving.ServedIsLastGoodParse` | cmd/mcp-server/main.go:204-255 | in every reachable state the registry is built from the valid parse, under the current config, of the files at the last successful step |
| `Serving.ConfigStaysLayered` | cmd/mcp-server/main.go:192-252 | in every reachable state the config is defaults, then file, then command line, and every field set there survives |
| `Serving.ServedAreWellFormed` | cmd/mcp-server/main.go:128-142 | every recipe that is ever served, also under a name that a later one shadows, is well formed, validates, and has all four hints under a strict config |
| `Serving.ReadyExactly` | pkg/server/server.go:119-124 | in every reachable state the server is ready iff the last good parse holds a recipe |
| `Serving.AdvertisedIsIndexed` | pkg/server/tools.go:12-29 | the tool a client sees under a name is made from the recipe a call of that name runs |
| `Serving.StrictHintsAreDeclared` | pkg/server/tools.go:66-81 | in every reachable state with a strict config, the four advertised hints of a tool are those its Makefile declares, never defaults |
| `Serving.CallableNamesAreAdvertised` | pkg/server/tools.go:12-29 | a name can be called iff it is advertised |
| `Serving.CallsReachMake` | pkg/server/server.go:147-217 | end to end: after any run over any contents, a call of an advertised tool is refused unless its arguments conform to the schema advertised with it, reaches make if they do and no name has two types, and the vector decodes to the exact arguments |
| `Serving.RootDirIsSet` | pkg/server/server.go:326-334 | a server that has started always has the directory of its first Makefile as root directory, so make is never given the name of a recipe's Makefile |
| `Serving.CallsHaveFixedPrefix` | pkg/runner/runner.go:84-91 | from a root directory the vector is the fixed flag, the tool's name and one setting per provided param |
| `Serving.CallsRunTheirTargetExactly` | pkg/runner/runner.go:71-101 | for every reachable state, advertised tool and call that reaches make: make reads the name as its only goal and all arguments as variables iff the name does not start with "-"; otherwise it is given no goal |
| `Serving.WindowAgreesExactly` | pkg/server/server.go:133-143 | between swap and SetTools, the schema a client still sees and the recipe a call already runs agree on all arguments iff names and types are unchanged, up to names with two types |
| `Serving.MadeIfAccepted` | pkg/server/server.go:147-217 | at any moment, over any index, a call reaches make iff the runner accepts its arguments |
| `Serving.ReloadsAreBackedByEnqueues` | cmd/mcp-server/main.go:204-255 | watcher and loop together: every reload goes back to an enqueue of its path of its own |
| `Convergence.ChangesAreReceived` | pkg/watcher/watcher.go:125-173 | when the watcher is quiet, every enqueue has been followed by an event for its path that the consumer received after it |
| `Convergence.StartUpExactly` | cmd/mcp-server/main.go:79-155 | start-up succeeds iff the disk can be loaded and config and host pass the checks, and serves what the disk produces |
| `Convergence.ConfigIsLastGoodConfig` | cmd/mcp-server/main.go:220-251 | the config in force is the one on the disk at the last successful event for the config file, or at start-up |
| `Convergence.SettingsAreLayered` | cmd/mcp-server/main.go:192-252 | in every reachable state each setting is that of the command line if set there, otherwise that of the config file at its last successful event or at start-up, otherwise the named default |
| `Convergence.ReloadIsRestartExactly` | cmd/mcp-server/main.go:204-255 | once the disk has stopped changing and an event has been handled, live config and registry are those of a restart iff the config in force was up to date or one of these events was for the config file |
| `Convergence.QuietMeansRestarted` | cmd/mcp-server/main.go:144-155 | watcher and loop together: a file was written and enqueued and the disk stayed as it is; once the watcher is quiet the live server is the one a restart would give, always for the config file, and for a Makefile if the config in force was up to date |
| `Convergence.QuietHappens` | pkg/watcher/watcher.go:125-173 | for every path there is a run that enqueues it, delivers its event and is quiet |
| `Convergence.ConfigChangeIsDropped` | cmd/mcp-server/main.go:220-251 | a run in which a config change is lost because its own event failed, although the last event succeeded |
| `Convergence.ReloadSkipsChecks` | cmd/mcp-server/main.go:83-88 | from every state, an event after which no tool is left although start-up would refuse that config |
| `Declarable.WellFormedIsServed` | cmd/mcp-server/main.go:79-155 | every well-formed recipe can be declared, and a server that starts on its Makefile serves exactly it |
| `Declarable.TwoTypesAreServed` | pkg/parser/parser.go:297-311 | whatever params declare a name with two types can be served, and then some call that conforms to the advertised schema is refused |
| `Declarable.ClashesAreServed` | pkg/runner/runner.go:248-251 | whatever params with distinct names clash can be served, and then two different calls run make alike |
| `Declarable.TwoTypesAndClashesExist` | pkg/parser/parser.go:297-311 | there are such params |
| `Declarable.SwitchesAreServed` | pkg/parser/parser.go:24-31 | the target `-fother.mk` can be declared and its tool called, and then make is given no goal |
| `Delivery.ParseAllReads` | pkg/parser/parser.go:75-88 | the parse for a config is the merge of all configured Makefiles, in order, under its delimiter and strictness, and fails iff one is not on the disk |
| `Delivery.StartUpNeedsAllFiles` | cmd/mcp-server/main.go:128-134 | a server does not start if any configured Makefile is not on the disk |
| `Delivery.ReloadNeedsAllFiles` | cmd/mcp-server/main.go:232-240 | an event is a failure that changes nothing if any Makefile of the config it leads to is not on the disk |
| `Delivery.ToolsSayWhatFilesSay` | pkg/server/tools.go:31-81 | in every reachable state the tools are one for each block above a target line of the configured Makefiles, in order: its name the target, description and title the values of `description` and `name`, each hint the declared one or its default, the properties those of its params |
| `Delivery.StartUpServesAllFiles` | cmd/mcp-server/main.go:128-142 | for any number of Makefiles, any one-line delimiter, strict or not: a server that starts on printed Makefiles serves the recipes of all of them, in order, each with the path of its own file |
| `Delivery.ReloadServesAllFiles` | cmd/mcp-server/main.go:214-253 | the same for a running server after an event |
| `Streaming.NotificationsFollowBuffers` | pkg/runner/runner.go:108-124 | at every moment of every interleaving each buffer is the concatenation of the chunks that its stream has written, and the notifications shuffle the chunks of the two streams, each without at most its last, in order |
| `Streaming.StreamingConserves` | pkg/server/server.go:219-228 | when both streams are through, the notifications shuffle exactly the chunks written to stdout and to stderr, whose concatenations are the returned texts, and their total length is the recorded byte count |
| `Coverage.ParseProfile` | internal/covercheck/covercheck.go:122-165 | one counter object per file with a block, holding the file's statements and executed statements |
| `Coverage.StatementCoverage` | internal/covercheck/covercheck.go:108-120 | the weighted coverage over all well-formed lines, in every visiting order, or none iff there is no statement |
| `Coverage.ExecutedIsLess` | internal/covercheck/covercheck.go:78-82 | covered never exceeds total, for every set of files |
| `Coverage.CoverageExtremes` | internal/covercheck/covercheck.go:97-120 | there is no overall coverage iff no block has statements, it is full iff every block with statements was executed and zero iff none was; the ratio of a file likewise |
| `Coverage.CoverageIgnoresOrder` | internal/covercheck/covercheck.go:134-163 | reordering the profile lines changes no ratio and not the overall coverage |
| `Coverage.OverallIsBetween` | internal/covercheck/covercheck.go:97-120 | the overall coverage meets every threshold that all files with statements meet, and exceeds no bound that none exceeds |
| `Coverage.OverallIsAMean` | internal/covercheck/covercheck.go:97-120 | some file with statements is at or below the overall coverage and some at or above, and it lies between 0 and 1 |
| `Docs.NormalizeIsNormal` | cmd/gen-metrics-doc/main.go:486-494 | the result has no three newlines in a row and exactly one at its end, and keeps every other character in order with the gaps before them, up to a blank line |
| `Docs.NormalizeDecidesShape` | cmd/gen-metrics-doc/main.go:486-494 | two texts have the same result iff they have the same characters with the same gaps up to a blank line |
| `Docs.NormalizeFixesNormal` | cmd/gen-metrics-doc/main.go:486-494 | a text is left alone iff it is normal, and normalising twice is normalising once |
| `Docs.MergeKeys` | cmd/gen-metrics-doc/main.go:496-511 | the loops with the seen map give the specified union |
| `Docs.MergedIsUnion` | cmd/gen-metrics-doc/main.go:496-511 | the old keys are a prefix, exactly the keys of both lists are there, and no duplicate is added |
| `Docs.MergedIsAssociative` | cmd/gen-metrics-doc/main.go:496-511 | merging is associative |
| `Docs.LessExactly` | cmd/gen-metrics-doc/main.go:184-189 | the order of the labels: a proper prefix comes first, otherwise the first differing character decides |
| `Docs.CollectLabels` | cmd/gen-metrics-doc/main.go:156-182 | for each field the merged keys of all functions, in every order of the fields |
| `Docs.LabelListIsCanonical` | cmd/gen-metrics-doc/main.go:184-189 | the sorted label list is the one strictly increasing list of the keys found for the field, whatever the functions and their order |

## Left out

- Draining.NoWakeUpIsLost: asks for steps without a full buffer and without a wait that is not positive since the timer was last set; without this it is false, and `Wakeup.StalledExactly` gives the exact condition.
- Draining.PendingDrains: asks for the same.
- Draining.EveryFlushSends: also asks for no flush in flight, since a second one may find nothing ready; `Draining.PendingDrains` does not.
- Agreement.VectorDecodesExactly: asks for distinct names. With repeated names the numbers of entries can tell clashing params apart; `Agreement.VectorDecodesOnSamples` is exact there.
- Convergence.QuietMeansRestarted: takes the paths of events as clean, as the comparison with the config path does.
- Reload.ToolServer.HandleToolCall: stops at the argument vector; running the process, its timeout, exit code and result are the operating system's.
- Coverage.ParseProfile: takes lines that are already cut into fields, without negative counts, which Go does not write.
- MakeLine.VectorReadings: which switches of make take an operand is an input.
- fsnotify, adding and removing watches (also the repeated one after a rename), and `filepath.Clean` in `enqueue`: raw events with clean paths are inputs.
- The errors channel of the watcher, and the second call of `Close`, which panics in Go.
- File opening and the limits of `bufio.Scanner`: a file is a text or cannot be read. Invalid UTF-8: texts are characters.
- A Makefile that is listed twice is read twice by the code; the model gives it one content within a step.
- YAML decoding: the decoded config is an input. So is whether the log file opens, telemetry starts and the paths can be watched.
- `mime.ParseMediaType` is an uninterpreted predicate. `json.Marshal` failing on a schema is an input of each step.
- Error message texts: errors are values of a datatype with the data they carry.
- Numbers outside the int64 range, where Go's conversion is implementation-defined, and Go integers that JSON decoding does not produce. Floating point is modelled by reals.
- Upper-casing beyond ASCII: param names are ASCII.
- Tool metadata under `_meta`, the mcp-go library, sessions and transports, telemetry, logging and timeouts per risk.
- Updating the server's own config on reload: the code does not, and only the root directory and timeouts depend on it.
- Rounding of coverage ratios; the threshold and exit code of `reportResult`.
- The AST walk and template of `cmd/gen-metrics-doc`: the keys found per function are inputs, and `sort.Strings` is taken as what it promises.
- `cmd/validate` and `cmd/gen-ci-doc`, which parse and validate, and normalise newlines, as the modelled code does.
