# freqtable word-count pipeline in Dafny

This project models the word-count extraction core of the freqtable service.
Given a repository URL, the processor asks a *cloner* for the repository and its
file names. It keeps the names ending in `.go` and reads each kept file into a
`File` record. It parses each record into a Go syntax tree, with one file set
shared by the whole run. It collects the parsed files into a slice and drives a
caller-supplied *miner* (a stateful `ast.Visitor`) over every tree. The result is
the miner's word-count map. Around the processor sit three more pieces. The
create use case extracts the counts and then saves the table. An in-memory store
keeps tables by identifier. A table's status is "valid" or "invalid".

How the model is built:

- **Channels are sequences.** Each channel has one producer and one consumer, so
  it delivers values in the order they were sent. Each goroutine loop is a
  `for` loop that appends to a `seq`.
- **The cloner and the Go parser are parameters.** `Clone.Cloner` holds the
  outcome of each cloner call. `Parse.Parser` gives the tree and the error that
  `parser.ParseFile` returns for a file's name and bytes. The model does not
  assume that a tree is present exactly when no error is recorded.
- **Syntax trees are `Ast.Node`.** `Ast.Walked` specifies `ast.Walk`: visit the
  node; stop if the visitor prunes; otherwise walk the children in order and
  finish with `Visit(nil)`.
- **The miner is a class.** `Mine.Miner` keeps its state in a field. `Visit`
  updates the field. `Mine.Walk` and `Mine.Mine` are proved against the
  specification functions `Ast.Walked` and `Mine.Mined`.
- **The store is a class.** `Persistence.Memory` has a map field. `Save`
  replaces the field with an updated map.
- **Extraction and creation are functions.** `Wordcount.Extraction` says what
  `Processor.Extract` returns. `Usecase.CreateFrequencyTableUsecase.Create` is a
  function over the outcomes of the two repositories.

Where the code and its tests disagree, the model follows the code:

- `TestExtract_OnProcessorWithFailingParsingStep_ShouldReturnError` expects
  `ErrParsingFile` (adapter/wordcount/processor_test.go:33-52). No such error
  exists in the code, and no check produces one. In the model, parse errors never
  make `Extract` fail (`Wordcount.ExtractFailsOnlyWhenCloningFails`).
- The create test expects an identifier derived from the URL
  (usecase/create_freqtable_test.go:39). The code always sets `""`, and
  `Create`'s contract says so.
- The create tests expect the zero table on error
  (usecase/create_freqtable_test.go:56, 79). The code returns the table with its
  `Error` set. `Create`'s contract states that behaviour.
- adapter/wordcount/processor.go:43 calls `step.Clone`; the model uses
  `wordcount.Clone` (adapter/wordcount/clone.go) for it.
- adapter/wordcount/processor.go:12-37 and adapter/wordcount/processor_config.go:6-29
  both declare `ProcessorConfig`, `Cloner` and `Miner`. processor.go names the
  config fields `ClonerFunc` and `MinerFunc` and reads them in `Extract`
  (processor.go:43, :55); its `Miner` has no `Results()`. processor_config.go
  names the fields `Cloner` and `Miner` and gives `Miner` a `Results()`, and the
  tests and the entry point build the config that way
  (adapter/wordcount/processor_test.go:24-25, main.go:20-21). The model follows
  processor_config.go.

## Model

| member | source | states |
|---|---|---|
| `Clone.Clone` | adapter/wordcount/clone.go:7-48 | the stage's two loops (filter the names, then read each kept file) return exactly `Cloning(url, cloner)`: each cloner failure is returned as it is, and otherwise the result is the cloner's repository plus one record per kept name, in order |
| `Clone.CloneFailureShortCircuits` | adapter/wordcount/clone.go:8-11 | a failing `Clone` is returned unchanged, and the outcome does not depend on `Filenames` or `File`, so neither is consulted |
| `Clone.ListingFailureShortCircuits` | adapter/wordcount/clone.go:13-16 | a failing `Filenames` is returned unchanged, and the outcome does not depend on `File` |
| `Clone.GoNamesSound` | adapter/wordcount/clone.go:20-23 | every name that is kept ends in ".go" and comes from the listing |
| `Clone.GoNamesCounts` | adapter/wordcount/clone.go:20-26 | each ".go" name is kept as many times as it occurs; every other name is dropped (no drops, no extras, duplicates counted) |
| `Clone.GoNamesAppend` | adapter/wordcount/clone.go:20-26 | filtering distributes over concatenation, so kept names keep their relative order |
| `Clone.NoGoNames` | adapter/wordcount/clone.go:20-23 | a listing with no ".go" name sends nothing, and this is not an error |
| `Clone.ClonedFiles` | adapter/wordcount/clone.go:33-47 | on success the repository is the cloner's; the record names are exactly the ".go" names with their multiplicities; each record has its name's bytes and read error, and no tree or file set |
| `Clone.ReadErrorsDoNotStopCloning` | adapter/wordcount/clone.go:33-42 | a read error never stops the stream: the names sent do not depend on what `File` returns |
| `Parse.ParseStream` | adapter/wordcount/parse.go:14-25 | the goroutine sends exactly one parsed file per received file, in order, each equal to `Parsed(parser, fset, file)` |
| `Parse.Parse` | adapter/wordcount/parse.go:10-28 | a new file set is allocated, and every file in the output stream carries that same file set |
| `Parse.Merge` | adapter/wordcount/parse.go:31-38 | the collected slice is the stream itself: every file in arrival order, and empty for an empty stream |
| `Parse.ParseOverwritesTreeAndError` | adapter/wordcount/parse.go:15-21 | the output has the same length as the input; name and bytes are kept; tree and error are the parser's for that file (a read error from cloning is replaced, possibly by nil); all files share the file set |
| `Parse.ParsedAllAppend` | adapter/wordcount/parse.go:15-22 | each file is parsed on its own: parsing `a + b` is parsing `a` followed by parsing `b`, so a syntax error stops no later file |
| `Step.Parse` | adapter/wordcount/step/parse.go:12-30 | the duplicate in package `step` gives the same stream and the same shared, new file set |
| `Step.Merge` | adapter/wordcount/step/parse.go:33-40 | the duplicate collector returns every file in arrival order |
| `Step.Mine` | adapter/wordcount/step/mine.go:19-29 | the duplicate returns the miner it was given, whose state is `Mined` over the files' trees |
| `Mine.Miner.constructor` | adapter/wordcount/processor_config.go:22-29 | a miner starts with the given visitor behaviour and initial state |
| `Mine.Miner.Name` | adapter/wordcount/processor_config.go:23-24 | `Name()` is the label the miner was built with, unchanged by visiting |
| `Mine.Miner.Results` | adapter/wordcount/processor_config.go:27-28 | `Results()` is the miner's reporting function applied to its current accumulated state; this is the map `Extract` returns |
| `Mine.Miner.Visit` | adapter/wordcount/processor_config.go:26 | one `Visit` call moves the state by the visit step and reports whether to descend (a non-nil visitor is returned) |
| `Mine.Walk` | adapter/wordcount/mine.go:13 | `ast.Walk(miner, tree)` leaves the miner in state `Walked`: pre-order, pruned where `Visit` returns nil, with `Visit(nil)` after each walked subtree |
| `Mine.Mine` | adapter/wordcount/mine.go:7-17 | returns the very miner it was given; the trees are walked in slice order, once each, and nil trees are skipped |
| `Mine.MinedAppend` | adapter/wordcount/mine.go:8-14 | mining `a + b` is mining `a`, then `b`, starting from the state `a` left |
| `Mine.MinedSkipsNil` | adapter/wordcount/mine.go:9-11 | files with a nil tree are never visited: leaving them out changes nothing |
| `Mine.NothingMinedWithoutTrees` | adapter/wordcount/mine_test.go:13-28 | with no files, or only files with a nil tree, the miner's state is unchanged |
| `Ast.WalkedReplaysEvents` | adapter/wordcount/mine.go:13 | a visitor that never prunes is called exactly on `Events(n)`: each node in pre-order on entry, and one `Visit(nil)` after each subtree |
| `Ast.EventsCount` | adapter/wordcount/mine_test.go:31-74 | a walk with a visitor that never prunes makes two visits per node |
| `Mine.WalkedCountsVisits` | adapter/wordcount/mine_test.go:86-89 | the test's counting miner adds 2 × (number of nodes) per tree |
| `Mine.MinedCountsVisits` | adapter/wordcount/mine.go:8-14 | with the counting miner, visit counts add up over the files that have a tree |
| `Mine.TwoPackageClausesGiveEightVisits` | adapter/wordcount/mine_test.go:31-74 | two files of one package clause each give 8 visits |
| `Wordcount.Processor.Extract` | adapter/wordcount/processor.go:41-59 | clone, then parse, merge and mine, in that order; the result is `Extraction`; after a cloning failure the miner is left untouched; on success the configured miner keeps the state `Mined` over the parsed trees, so a later `Extract` with the same processor starts from it |
| `Wordcount.ExtractFailsOnlyWhenCloningFails` | adapter/wordcount/processor.go:43-58 | `Extract` fails exactly when cloning fails, and then always with `ErrCloningRepository` |
| `Wordcount.CloningFailureHidesEverything` | adapter/wordcount/processor.go:43-48 | after a cloning failure the outcome depends on none of these: the cloner's own error, the parser, the miner's state |
| `Wordcount.ExtractMinesOnlyParsedTrees` | adapter/wordcount/processor.go:50-58 | on success the result is the miner's `Results()` after mining only the trees the parser produced |
| `Wordcount.ExtractWithoutTrees` | adapter/wordcount/processor.go:50-58 | when the parser gives no tree for any file, extraction still succeeds, with the results of an unvisited miner |
| `Wordcount.ExtractWithoutGoFiles` | adapter/wordcount/processor.go:41-58 | a repository without ".go" files completes with the results of an unvisited miner |
| `Entity.FrequencyTable.Status` | entity/freqtable.go:12-18 | the status is one of "valid" and "invalid": "invalid" exactly when an error is recorded |
| `Entity.StatusDependsOnlyOnError` | entity/freqtable.go:12-18 | the status depends only on whether an error is set, not on the identifier or the counts |
| `Persistence.Memory.NewInMemory` | adapter/persistence/memory.go:15-19 | a new store holds no entries |
| `Persistence.Memory.Save` | adapter/persistence/memory.go:21-24 | `Save` never fails, and it sets the entry for `ft.ID` to `ft` while changing nothing else |
| `Persistence.Memory.Get` | adapter/persistence/memory.go:26-33 | `Get` leaves the store unchanged; it returns the stored table with no error exactly when the identifier is present, and otherwise the zero table with "not found" |
| `Persistence.EmptyStoreFindsNothing` | adapter/persistence/memory.go:15-30 | on a new store, `Get` of any identifier fails with "not found" and the zero table |
| `Persistence.GetAfterSave` | adapter/persistence/memory.go:21-32 | after `Save(ft)`, `Get(ft.ID)` returns `ft` with no error |
| `Persistence.SaveLeavesOthers` | adapter/persistence/memory.go:22 | saving changes what `Get` answers for no other identifier |
| `Persistence.LastSaveWins` | adapter/persistence/memory.go:22 | a second save under the same identifier overwrites the first |
| `Usecase.CreateFrequencyTableUsecase.Create` | usecase/create_freqtable.go:33-54 | the table records exactly the returned error, and its ID is ""; `Create` succeeds exactly when extraction and saving both succeed; an extraction error is returned as it is, with no counts; a save error is returned as it is; when extraction succeeds, the table holds the extracted counts |
| `Usecase.CreateStatus` | usecase/create_freqtable.go:41-53 | the returned table is "valid" exactly when `Create` returns no error, and "invalid" on either failure |
| `Usecase.CreateSkipsSaveAfterExtractFailure` | usecase/create_freqtable.go:38-43 | when extraction fails, `Save` is never called: no saver changes the outcome |
| `Usecase.CreateSavesExtractedTable` | usecase/create_freqtable.go:44-51 | `Save` is called only on the table with ID "", no error and the extracted counts |

## Left out

- Goroutines and channels: each stage is a sequential loop over a sequence. With one producer and one consumer per channel, this is the order the channels deliver.
- `parser.ParseFile` and `token.FileSet` belong to Go's libraries. Parsing is the caller's `Parse.Parser` function, and a file set is an object with no fields.
- Parse.Parse: the positions `parser.ParseFile` records in the shared file set are not modelled. Only the file set's identity is.
- Go's `ast` node kinds and fields: every node is a text plus its children.
- Go's `parser.ParseFile` usually returns a partial, non-nil tree together with a syntax error. In the program, such a file is still walked by `Mine`. The model follows whatever tree the caller's parser gives. It does not capture which partial tree Go builds for a file with syntax errors.
- Mine.Walk: `Visit` may return a different visitor for a node's children in Go. Here it either continues with the same miner or prunes.
- Wordcount.Processor.Extract: adapter/wordcount/processor.go:56 asserts that the miner is a `miner.Count`, and processor.go:58 asserts that its `Results()` is a `map[string]int`. Each assertion panics when it fails. `miner.Count` (package adapter/wordcount/miner) is outside this model, so the model assumes both assertions succeed, and a miner's results are the caller's `Visitor.results` function of its state. A nil miner (`Miner: nil`, as at adapter/wordcount/processor_test.go:25 and :47) panics once cloning succeeds, either in `ast.Walk` or in the assertion at :56. In the model a nil miner cannot be built.
- A cloner's answers are fixed values. The model does not capture answers that change from one call to the next.
- The `*Repository` that `Clone` returns is modelled as a value. The processor discards it.
- `NewProcessor` is outside this model; the model builds the `Processor` datatype directly. `NewCreateFrequencyTableUsecase` only stores its arguments, and the model builds that datatype directly too.
- `CreateMultiple`: usecase/create_freqtable.go declares it in the interface (line 15) but implements only `Create`; `CreateMultiple` is not modelled.
- Go slices and maps are values here. A nil map and an empty map are both `map[]`, and a nil slice and the non-nil empty slice that `Merge` makes (adapter/wordcount/parse.go:32) are both `[]`. A table stored by `Save` shares its `Values` map with the caller in Go (adapter/persistence/memory.go:22). The model does not capture that sharing. Nothing in the core observes either difference.
- Go's `int` is unbounded here. Visit counts and word counts do not wrap around.
- `context.Context` arguments and logging calls have no effect on results.
- SQL persistence (adapter/persistence/postgresql.go, adapter/persistence/relational.go), the HTTP handler (adapter/rest/handler.go) and main.go are not part of this model.
