# mapjitsu field-mapping engine in Dafny

This project models the core of mapjitsu, a Go library that copies values
between records. A `Definition` is an ordered list of mappings. Each mapping
reads one value from a source, folds it through a pipeline of transform
functions and writes the result to a target. `Apply` stops at the first
error and never undoes the writes that earlier mappings already made.

Modules, one per Go package:

- `Values`: the dynamic payload (`Value`: nil, string, int or bool), the error kinds, `Result` for Go's `(T, error)` and `Outcome` for a nilable `error`.
- `Text`: the ASCII parts of `strings.ToUpper`, `strings.EqualFold`, `fmt`'s decimal rendering and `strconv.Atoi` (64-bit `int`).
- `TreeDoc`: the tree-document library (`mxj.Map`) reduced to a shared class over a `map<string, Value>`. A read of an absent path fails with `PathNotExist`. A set-by-path fails only on the paths in `rejects`.
- `CsvData` (csv/data/data.go): field resolution as specification functions (`Locate`, `Resolve`, `ReadField`, `WriteField`) and the two accessors. The record is an `array<string>` shared with the caller, and `Target.SetValue` overwrites one cell of it in place.
- `Sources` (sources/sources.go), `Targets` (targets/targets.go), `MxjData` (mxj/data/data.go): the source and target variants with their optional error handlers.
- `Mapjitsu` (mapjitsu.go): the reference transforms, pipelines, and `Apply`. `Apply` is a method over the heap. It is proved against `ApplyIn`, a function over a `World` that holds the contents of every record and document the mappings touch.
- `SeifaData` (seifa/data/data.go): the first-match lookup over six tables and its integer-parsing wrapper.
- `Scenarios`: the repository's delimited and tree examples (tests/csv_test.go, tests/mxj_test.go) worked through the model, plus a short-circuit example and a type-mismatch example.

`Sources.Csv.Value` and `CsvData.Source.Value` are separate methods, as in the
Go code. Both are proved to return `CsvData.ReadField` of the record's
current cells, so the two resolve a column identically. `mapjitsu.SourceFunc`
is used by the tests but is not defined in the modelled files; it is the
`Func` source variant and behaves like `Calculated`. `targets.CSV` is also
used by the tests without a definition here; it is `CsvData.Target`.

Two points about the Go code that the model keeps as written:
- `ToLower` upper-cases its input, as mapjitsu.go:60 does (see Findings).
- `sources.Calculated` only wraps a formula (sources/sources.go:13-19).

## Model

| member | source | states |
|---|---|---|
| `Mapjitsu.Apply` | mapjitsu.go:23-45 | runs the mappings in order and ends with exactly the error and the record/document contents that `ApplyIn` prescribes for the starting state; nothing outside the targets' records and documents changes |
| `Mapjitsu.ApplyMapping` | mapjitsu.go:26-41 | one mapping: source read, then the pipeline, then the target write; on failure the state is as before this mapping |
| `Mapjitsu.ReadSource` | mapjitsu.go:26 | reading any source variant returns the value its specification function gives for the current state |
| `Mapjitsu.WriteTarget` | mapjitsu.go:38 | writing any target variant leaves the state its specification gives, or fails and leaves the state unchanged |
| `Mapjitsu.Transform` | mapjitsu.go:31-36 | the inner loop computes the left fold of the value through the stages, stopping at the first stage error |
| `Mapjitsu.PipelineAppend` | mapjitsu.go:31-36 | running `p + q` is running `p` and then, only if it succeeded, `q` on its output |
| `Mapjitsu.PipelineSingle` | mapjitsu.go:32 | a one-stage pipeline returns exactly that stage's result |
| `Mapjitsu.PipelineStopsAtFailingStage` | mapjitsu.go:32-35 | when stage k fails on the output of the earlier stages, the pipeline returns that error and no later stage contributes |
| `Mapjitsu.SourceFailureStopsMapping` | mapjitsu.go:26-29 | a failing source fails its mapping with exactly that error, before any stage or target write |
| `Mapjitsu.TargetReceivesPipelineOutput` | mapjitsu.go:31-41 | the target receives f_n(...f_1(v)); an empty pipeline hands the source value through unchanged; a failing stage fails the mapping before the write |
| `Mapjitsu.ApplyAppend` | mapjitsu.go:24-43 | applying `ms1 + ms2` applies `ms1` and, only if it succeeded, `ms2` from the state `ms1` left |
| `Mapjitsu.ApplyShortCircuit` | mapjitsu.go:24-44 | if mapping k fails after the first k succeeded, `Apply` returns its error, no later mapping runs, and the earlier writes persist with no rollback |
| `Mapjitsu.ApplyFailsIff` | mapjitsu.go:23-45 | `Apply` returns an error exactly when some mapping fails in the state its successful predecessors left, so it returns nil iff every read, stage and write succeeded |
| `Mapjitsu.RunPipeline` | mapjitsu.go:31-36 | the left fold of a value through the stages, stopping at the first error; the empty pipeline is the identity |
| `Mapjitsu.StepIn` | mapjitsu.go:26-41 | one mapping's read, fold and write on a state; success keeps the set of records and documents |
| `Mapjitsu.ApplyIn` | mapjitsu.go:23-45 | the mappings applied in order from a state, stopping at the first error with the state reached; the set of records and documents never changes |
| `Mapjitsu.SourceIn` | mapjitsu.go:26 | a source reads from the current state: a calculated or function source gives its function's result, a tree source gives the value stored at its path in the document as it now is, and a delimited-field source only ever yields a string |
| `Mapjitsu.TargetIn` | mapjitsu.go:38 | a target write keeps the set of records and documents in the state |
| `Mapjitsu.ToString` | mapjitsu.go:47-53 | never fails and always yields a string; nil becomes "", a string stays itself, and any other value becomes its `Format` text |
| `Mapjitsu.Format` | mapjitsu.go:52 | a string prints as itself; a 64-bit integer prints as decimal text, with a leading digit iff it is non-negative, that `Atoi` reads back to the integer |
| `Mapjitsu.ToUpper` | mapjitsu.go:63-69 | succeeds exactly on strings; otherwise a type error naming the value's type; the result equals the input ignoring case and has no lower-case letter |
| `Mapjitsu.ToLower` | mapjitsu.go:55-61 | succeeds exactly on strings, otherwise a type error naming the value's type |
| `Mapjitsu.ToLowerIsToUpper` | mapjitsu.go:55-69 | as written `ToLower` succeeds on the same values as `ToUpper` and equals it on every string, so "a" comes out as "A" |
| `Mapjitsu.LowerIntended` | mapjitsu.go:55-61 | the intended lower-casing: the same type check, and a result equal to the input ignoring case with no upper-case letter |
| `Mapjitsu.LowerIntendedDiffers` | mapjitsu.go:60 | on "A" the written `ToLower` gives "A" and the intended one gives "a" |
| `Text.Upper` | mapjitsu.go:68 | upper-casing keeps the length, turns each lower-case letter into its own capital and changes no other character |
| `Text.UpperIdempotent` | mapjitsu.go:68 | upper-casing twice is upper-casing once |
| `Text.Atoi` | seifa/data/data.go:67 | a syntax error exactly when the text after an optional sign is empty or holds a non-digit; otherwise the signed decimal value when it lies in the 64-bit range, and a range error when it does not |
| `Text.EqualFold` | seifa/data/data.go:50 | case-insensitive equality relates only strings of one length, holds of equal strings and is symmetric |
| `Text.AtoiRoundTrip` | seifa/data/data.go:67 | `Atoi` inverts the decimal rendering of every 64-bit integer |
| `Text.AtoiNonCanonical` | seifa/data/data.go:67 | a leading plus sign and leading zeros parse: "+5" is 5, "007" is 7 and "-0" is 0 |
| `Text.AtoiNeedsDigits` | seifa/data/data.go:67-70 | text without a digit, such as an empty cell, is a parse error |
| `CsvData.FirstIndex` | csv/data/data.go:19-24 | an index the header scan returns holds the name |
| `CsvData.FirstIndexSpec` | csv/data/data.go:19-24 | the header scan finds nothing iff the name is absent, and otherwise finds the earliest index holding it |
| `CsvData.FirstIndexIsEarliest` | csv/data/data.go:19-24 | the earliest index holding the name is what the scan returns |
| `CsvData.Locate` | csv/data/data.go:15-28 | a located column is at least 1, and an explicit column number >= 1 is located as itself |
| `CsvData.Resolve` | csv/data/data.go:15-31 | a resolved column lies in 1..len(record) and is the located column; a located column that fails the range check gives out-of-range with that column and the record length |
| `CsvData.ReadField` | csv/data/data.go:14-33 | the read succeeds iff resolution does, and then yields the cell at the resolved column; otherwise it returns the resolution error |
| `CsvData.WriteField` | csv/data/data.go:42-66 | the write succeeds iff resolution succeeds and the value is a string; then exactly the resolved cell changes and the length stays; a resolution error is returned as it is, and a non-string value with a resolved column is a type mismatch |
| `CsvData.PositionalIgnoresNames` | csv/data/data.go:15-16 | with a column number >= 1 the header and name never matter: the column number itself is the resolved column when it fits the record, and out-of-range is the only possible error |
| `CsvData.MissingIdentifierIff` | csv/data/data.go:16-18 | the missing-identifier error arises exactly when there is no column number and the header or the name is empty |
| `CsvData.NameResolvesToFirstMatch` | csv/data/data.go:19-24 | name lookup picks one past the first matching header index; later duplicates are ignored |
| `CsvData.UnknownNameIff` | csv/data/data.go:25-27 | with a header and name given, the unknown-name error arises exactly when the name is not in the header |
| `CsvData.OutOfRangeIff` | csv/data/data.go:29-31 | out-of-range arises exactly when the located column exceeds the record length, even when a longer header held the name |
| `CsvData.TypeCheckedLast` | csv/data/data.go:43-63 | for a non-string value, a resolution error wins, and otherwise the error is a type mismatch |
| `CsvData.WriteThenRead` | csv/data/data.go:32-64 | reading a field back after writing a string to it yields that string |
| `CsvData.WriteIdempotent` | csv/data/data.go:64-65 | writing the same value twice leaves the record as one write does |
| `CsvData.Source.Value` | csv/data/data.go:14-33 | the header-scan loop returns exactly `ReadField` of the record's cells and modifies nothing |
| `CsvData.Target.SetValue` | csv/data/data.go:42-66 | on success the record's cells become `WriteField`'s result; on any error they are unchanged |
| `Sources.Calculated.Value` | sources/sources.go:17-19 | returns exactly the result of one call of the formula |
| `Sources.Mxj.ValueIn` | sources/sources.go:27-36 | present path: its value; absent path with a handler: the handler's result for (path, nil, PathNotExist); otherwise a read failure wrapping PathNotExist |
| `Sources.MxjFailsIff` | sources/sources.go:27-36 | the reader fails exactly when the path is absent and either no handler is set or the handler reports an error |
| `Sources.Csv.Value` | sources/sources.go:45-64 | resolves and reads exactly as `CsvData.ReadField`, the same function `CsvData.Source.Value` is proved against; modifies nothing |
| `Targets.Mxj.SetIn` | targets/targets.go:19-28 | a settable path is bound to the value; a refused path with a handler gives the handler's error for (path, v, err), where nil suppresses the failure; without a handler it gives a write failure |
| `Targets.Mxj.SetValue` | targets/targets.go:19-28 | the shared document becomes `SetIn`'s tree, or is unchanged and the error is returned |
| `Targets.MxjWriteFrame` | targets/targets.go:20-27 | only a refused path fails, and a successful write leaves every other key of the modelled path-to-value map as it was |
| `MxjData.Source.ValueIn` | mxj/data/data.go:15-24 | the same dispatch as `Sources.Mxj.ValueIn`: the value, the handler's result, or a wrapped read failure naming the path |
| `MxjData.Target.SetIn` | mxj/data/data.go:32-41 | the same dispatch as `Targets.Mxj.SetIn`: the bound value, the handler's error, or a wrapped write failure naming the path |
| `MxjData.Target.SetValue` | mxj/data/data.go:32-41 | the shared document becomes `SetIn`'s tree, or is unchanged and the error is returned |
| `MxjData.SourceAgrees` | mxj/data/data.go:15-24 | this reader answers exactly as `Sources.Mxj` configured alike |
| `MxjData.TargetAgrees` | mxj/data/data.go:32-41 | this writer answers exactly as `Targets.Mxj` configured alike |
| `SeifaData.SelectTable` | seifa/data/data.go:20-35 | a table is selected exactly for the numbers 1..6 |
| `SeifaData.Scan` | seifa/data/data.go:42-53 | a returned row matches the postal area, and the end of input is never reported as an error |
| `SeifaData.InputEnd` | seifa/data/data.go:43-46 | the rows read before the end of input are those before the first `EndOfInput` |
| `SeifaData.FirstMatch` | seifa/data/data.go:16-56 | a table number outside 1..6 is an error; a missing or unreadable header fails with the reader's error wrapped as a header failure; otherwise the data rows are scanned, and a returned row matches the postal area |
| `SeifaData.Matches` | seifa/data/data.go:50 | a matching row has a first cell as long as the postal area, never for an empty area, and a row whose first cell equals the area exactly matches |
| `SeifaData.ScanStopsAtReadError` | seifa/data/data.go:42-48 | an unreadable row other than the end of input, reached after only readable, non-matching rows, makes the scan return that reader error unchanged |
| `SeifaData.ScanErrorIsFirst` | seifa/data/data.go:42-48 | every scan error is the error of an unreadable row before the end of input, reached after only readable, non-matching rows |
| `SeifaData.ScanFindsFirst` | seifa/data/data.go:42-53 | a matching row read after only readable, non-matching rows is the result, whatever follows |
| `SeifaData.ScanResultIsFirst` | seifa/data/data.go:42-53 | a returned row is a matching row preceded only by readable, non-matching rows |
| `SeifaData.ScanNotFoundIff` | seifa/data/data.go:42-55 | (nil, nil) is returned exactly when every row before the end of input was read and none matched, so not found is not an error |
| `SeifaData.EmptyKeyNeverFound` | seifa/data/data.go:50 | rows with an empty or missing first cell never match, so the empty key is never found |
| `SeifaData.FirstMatchShape` | seifa/data/data.go:20-41 | a table number outside 1..6 is an error, and a result is always a data row, never the header |
| `SeifaData.FirstMatchingRecord` | seifa/data/data.go:16-56 | the read loop returns exactly `FirstMatch`: table check, header read, then the first match, the first read error, or nothing |
| `SeifaData.ParseIntFromFirstMatchingRecord` | seifa/data/data.go:58-72 | a lookup error gives (0, false, err); no match gives (0, false, nil); a match gives (Atoi(cell), true, nil), or (0, false, err) when the cell is not an integer |
| `Scenarios.FullName` | tests/csv_test.go:68-83 | the example formula fails exactly when both names are empty, and joins two non-empty names with a space |
| `Scenarios.CsvRowFields` | tests/csv_test.go:51-86 | the field reads and writes of the delimited example's first row, by position and by name |
| `Scenarios.CsvRow` | tests/csv_test.go:49-93 | the row "Tim,Test," fills the output row ",Tim,Tim Test,Test," and `Apply` reports no error |
| `Scenarios.TreeDocument` | tests/mxj_test.go:36-102 | the absent "user.title" becomes "" through the default handler, a nil "user.dob" becomes "" through `ToString`, and `Apply` reports no error |
| `Scenarios.ShortCircuit` | mapjitsu.go:26-29 | when the second mapping's source fails, `Apply` returns its error, the third mapping never writes, and the first write stays |
| `Scenarios.TypeMismatchAborts` | csv/data/data.go:60-63 | a stage producing an integer for a delimited target aborts `Apply` with a type mismatch and writes nothing |

## Left out

- Go's `error` messages: the model keeps error kinds and the data their messages are built from, not the texts.
- Caller-supplied functions: formulas, pipeline stages and error handlers are function-valued parameters. Their bodies belong to the caller.
- The tree-document library: path syntax, nested-node creation and the library's own rules for refusing a set are not modelled. The document is a map from path to value, and a set fails exactly on a fixed set of refused paths. A failed read hands the handler a nil value. Because the map is flat, a write does not update the values at ancestor paths of the path written, as the tree library would.
- `fmt.Sprintf("%v")`: nil, strings and 64-bit integers are specified. Booleans are rendered as true/false but no contract states it.
- Unicode: `strings.ToUpper` and `strings.EqualFold` are modelled on ASCII letters only.
- Delimited-text parsing and writing: each SEIFA table is the sequence of results of reading its records, header first. A read is either a record or a reader error, and the end of the sequence is the end of input. The contents of the six tables are not part of this model.
- seifa/percentiles/percentiles.go: four bindings of constant table and column numbers to `ParseIntFromFirstMatchingRecord`. Nothing beyond that function is modelled.
- `Text.Atoi`: reports a syntax error for any non-digit, even where Go's `strconv` would first report a range error because the digits before the bad character already overflow (for example "99999999999999999999x").
- `SeifaData.ParseIntFromFirstMatchingRecord`: requires the column to lie inside the matched row. The Go code indexes without a check and panics otherwise.
- Column numbers are `nat`; the `uint` to `int` conversion at csv/data/data.go:29 cannot overflow in the model.
- Formulas, stages and handlers are pure functions of their arguments: they cannot read or write the shared records and documents, as Go closures can (tests/csv_test.go:69-71 reads `inputRecord`, tests/mxj_test.go:79-80 reads `input`). The examples pass the names such closures would read in as constants.
- `Value` has only nil, string, integer and boolean cases. Floating-point numbers, maps and slices, which the tree library returns for JSON numbers and for subtree paths, are not modelled, and neither is `ToString` of them.
- Concurrency and unsynchronised sharing of records and documents between threads are not modelled.
- Tree sources have no separate `Value` method: `Mapjitsu.ReadSource` reads through its specification function over the document's current contents rather than through a separate method.

## Findings

| source | as written | input that shows it | evidently intended | confidence | as-written member | corrected member |
|---|---|---|---|---|---|---|
| mapjitsu.go:60 | `ToLower` returns `strings.ToUpper(s)` | `ToLower("A")` returns "A" | a lower-cased string, "a" | high, not executed | `Mapjitsu.ToLowerIsToUpper` | `Mapjitsu.LowerIntended` |
