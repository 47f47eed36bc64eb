# UpdateControls: control reconciliation and field propagation

This project models the Google Apps Script macros in `UpdateControls/`, which keep a folder of
*documented* audit controls up to date from a folder of *tested* controls. Every control is a
spreadsheet with a fixed layout: classification cells in rows 2–5, a description, the evidence,
the test to perform, and the sample size in E14:F14. There are two versions of the macros:

- the current one, `Update-Controls.gs.js`, called `Current` in the model;
- the older one, `Code.gs.js`, called `Legacy`.

Most operations take the version as a parameter, so one definition covers both and the
differences are explicit.

The pipeline has four steps:

1. **Inventory capture** (`almacenarIDs`, `almacenarIDsDocus`) walks a Drive folder and writes
   one inventory row per Google Sheets file from row 3 down. The id, the first tab and the
   control name go in columns A–C. For tested controls the name is the subfolder's name with
   the status suffix `_PASA`, `_FALLA` or `_INCONCLUSO` removed (`cleanControlName`).
2. **Reconciliation** (`compararSheets`) builds a pool of documented names in insertion order;
   a later duplicate overwrites the earlier value. Each tested name is matched against the
   pool. The first key that contains the trimmed, lower-cased name wins and writes one mapping
   row. An unmatched name opens a y/n dialog. "y" asks for a name and copies the tested file
   into the documented folder; a failed copy asks again. "n" logs one warning. The legacy
   version also clears the input cells of the new copy (`limpiarControlCreado`).
3. **Propagation** (`copiarCeldasDesdeControl`) handles every mapping row after the header:
   - It opens both files. A failed `openById` logs the error and skips the row.
   - The current version repairs the layout of both sheets (`checkFormat` / `updateFormat`).
     The legacy version instead detects the row offset `numRango` (5 or 6).
   - A fixed table of (source range → destination range) pairs is copied conservatively: a
     pair is copied only when its source has a non-blank cell.
   - The current version then syncs F14. The legacy version handles the test-description field
     and reads the frequency and sample-size cells.
   - It runs the read-only validation pass (`verificarCeldas`).
   - Finally it marks the control's rows in the agenda sheet.
4. **Logging**: every step appends lines to a log sheet.

The host APIs become values:

- A sheet is a `Grid.Sheet` object whose `cells` are a sequence of rows of strings, 0-based (A1
  is (0, 0)). The number of stored rows stands for `getMaxRows()`. Cells outside the stored
  area read as blank, and writes there pad the sheet (see "## Left out").
- The log is a `Grid.Log` whose lines only grow.
- The Drive folder tree is a `seq<Subfolder>` of typed files.
- The user's answers are an injected `seq<string>`.
- `makeCopy` is an oracle `seq<CopyOutcome>` whose attempts may fail.
- The files `openById` can open are a set of ids.

An exception that reaches the outer `catch` of `copiarCeldasDesdeControl` ends the whole batch.
The model keeps this as an `aborted` flag, and no later mapping row runs once it is set. There
are three such exceptions:

- the current version's F14 step passes a `Range` to `getRange` once F14 had to be written;
- `getSheetByName` returns null for a missing tab;
- the legacy version's `valoresB12F12` has never been assigned.

The legacy `valoresB12F12` is a function-scoped variable that keeps its value from one mapping
row to the next. In the "Prueba a realizar" branch with an inserted row 10, the legacy version
therefore writes the B12:F12 values of an *earlier* control. The model carries this variable
(`stale`) across rows and proves the behaviour (`TestField.InsertedRowWritesCarried`,
`TestField.AbortsIff`).

Three behaviours of the code worth knowing:

- Name matching only tests whether the documented key contains the tested name, not the other
  direction (`UpdateControls/Update-Controls.gs.js:445`).
- An exception in the copy, F14 or agenda steps is outside the per-row `try` blocks. It ends the
  whole batch rather than skipping one row (`UpdateControls/Update-Controls.gs.js:619-621`).
- The current version's layout repair runs only when one of the seven anchor checks fails. The
  legacy version does not repair the layout at all; it reads with offset 6 instead.

Modules, in dependency order:

- `Wrappers`, `Text`: `Option`, and the JavaScript string operations used (`indexOf`, `trim`,
  `toLowerCase`, `join`).
- `Grid`: cells, ranges, `Sheet`, `Log`.
- `ControlNames`: `cleanControlName`, the match predicate, the name pool.
- `Prompts`: `preguntaMenu`.
- `Inventory`: capture.
- `Layout`: `checkFormat` and `updateFormat`.
- `Validation`: `verificarCeldas`.
- `FieldCopy`: the copy tables and the conservative copy.
- `TestField`: the legacy test-description branch and `frecuenciasYMuestras`.
- `Agenda`: the tracking-sheet update.
- `Reconcile`: `compararSheets`.
- `Propagate`: `copiarCeldasDesdeControl`.

## Model

| member | source | states |
|---|---|---|
| `Text.LowerTrimCommute` | UpdateControls/Update-Controls.gs.js:112 | lower-casing then trimming (the prompt) and trimming then lower-casing (name matching) normalise every string alike |
| `Text.BlankIff` | UpdateControls/Update-Controls.gs.js:586 | a value is blank after `trim()` exactly when all its characters are white space |
| `ControlNames.CleanControlName` | UpdateControls/Update-Controls.gs.js:281-290 | the result is always a prefix of the name; a name with none of the three suffixes comes back unchanged; a changed name contains one of them |
| `ControlNames.CleanFrom` | UpdateControls/Update-Controls.gs.js:283-289 | the loop from suffix k on: a prefix of the name, cut only when one of the suffixes from k on occurs |
| `ControlNames.CleanCutsAtFirstListedSuffix` | UpdateControls/Update-Controls.gs.js:282-287 | the first listed suffix that occurs decides, and the name is cut at its first occurrence |
| `ControlNames.CleanRemovesStatusTag` | UpdateControls/Update-Controls.gs.js:281-290 | round trip: a name tagged with suffix k is recovered, provided the name contains neither suffix k nor an earlier one |
| `ControlNames.SuffixesDoNotNest` | UpdateControls/Update-Controls.gs.js:282 | no status suffix occurs inside another |
| `ControlNames.CleanNotIdempotent` | UpdateControls/Update-Controls.gs.js:281-290 | "X_FALLA_PASA" cleans to "X_FALLA", which cleans again to "X": cleaning is not idempotent |
| `ControlNames.MatchIsContainment` | UpdateControls/Update-Controls.gs.js:445 | the match test is exactly containment of the trimmed, lower-cased tested name in the trimmed, lower-cased key; equality is the special case |
| `ControlNames.Put` | UpdateControls/Update-Controls.gs.js:430-433 | assigning a key keeps the pool's length or appends the entry |
| `ControlNames.PutKeys` | UpdateControls/Update-Controls.gs.js:430-433 | an existing key keeps its place and takes the new value; a new key goes last; other entries are untouched |
| `ControlNames.PoolKeyOrder` | UpdateControls/Update-Controls.gs.js:428-434 | the pool's keys are the names of column C without repeats, in order of first appearance, and are pairwise distinct |
| `ControlNames.PoolLastWins` | UpdateControls/Update-Controls.gs.js:428-434 | each pool entry carries the id and tab of the last row with its name: a later duplicate overwrites the earlier value |
| `ControlNames.CollectPool` | UpdateControls/Update-Controls.gs.js:428-434 | the loop from row 1 builds the pool `BuildPool` describes |
| `ControlNames.FirstMatch` | UpdateControls/Update-Controls.gs.js:444-458 | the chosen entry matches and no earlier entry does; no entry is chosen only when none matches |
| `ControlNames.FindFirstMatch` | UpdateControls/Update-Controls.gs.js:444-458 | the `for ... in` loop with `break` returns the first matching entry in pool order |
| `ControlNames.NameColumn` | UpdateControls/Update-Controls.gs.js:428-429 | the name column read from rows 1..n-1 has n-1 entries |
| `ControlNames.LastRowNamed` | UpdateControls/Update-Controls.gs.js:429-430 | the row found carries the name and lies in 1..n-1 |
| `Grid.Read` | UpdateControls/Update-Controls.gs.js:584 | `getValues` on a one-row range gives one value per column, each the cell's value |
| `Grid.Write` | UpdateControls/Update-Controls.gs.js:590 | `setValues` sets exactly the cells of the range and leaves every other cell as it was |
| `Grid.SetCell` | UpdateControls/Update-Controls.gs.js:450-454 | `setValue` sets exactly one cell |
| `Grid.Clear` | UpdateControls/Code.gs.js:98 | `clearContent` blanks exactly the cells of the range and keeps the sheet's shape |
| `Grid.WithoutRow` | UpdateControls/Update-Controls.gs.js:159 | `deleteRow` removes one row: rows above stay, rows below move up one |
| `Grid.WithRowInserted` | UpdateControls/Update-Controls.gs.js:166 | `insertRowBefore` adds one blank row: rows above stay, rows from it on move down one |
| `Grid.ReadWritten` | UpdateControls/Update-Controls.gs.js:590 | a written range reads back the values written |
| `Grid.ReadApart` | UpdateControls/Update-Controls.gs.js:590 | a write leaves every disjoint range as it was |
| `Grid.ReadWithoutFirstRow` | UpdateControls/Update-Controls.gs.js:159 | after deleting row 1 a range reads what the range one row below read before |
| `Grid.SetCellStartsRow` | UpdateControls/Update-Controls.gs.js:319 | a value set in column A of the first free row appends a row |
| `Grid.Sheet.SetValues` | UpdateControls/Update-Controls.gs.js:590 | the sheet's new values are `Write` of the old ones |
| `Grid.Sheet.SetValue` | UpdateControls/Update-Controls.gs.js:609 | the sheet's new values are `SetCell` of the old ones |
| `Grid.Sheet.ClearContent` | UpdateControls/Code.gs.js:98 | the sheet's new values are `Clear` of the old ones |
| `Grid.Sheet.ClearAll` | UpdateControls/Update-Controls.gs.js:418 | `clear()` leaves no values |
| `Grid.Sheet.DeleteRow` | UpdateControls/Update-Controls.gs.js:159 | the sheet loses the row |
| `Grid.Sheet.InsertRowBefore` | UpdateControls/Update-Controls.gs.js:166 | the sheet gains a blank row |
| `Grid.Log.Append` | UpdateControls/Update-Controls.gs.js:47-55 | `logToSheet` appends exactly one line after the existing ones |
| `Grid.Log.AppendAll` | UpdateControls/Update-Controls.gs.js:47-55 | consecutive `logToSheet` calls append their lines in order |
| `Inventory.InventoryGrid` | UpdateControls/Update-Controls.gs.js:274-323 | the inventory has two header rows plus one row per record |
| `Inventory.InventoryRows` | UpdateControls/Update-Controls.gs.js:274-323 | the folder name is in A1 and the headers are in row 2; record k is in row k + 3, so rows 3, 4, 5, ... are filled with no gap |
| `Inventory.WriteHeader` | UpdateControls/Update-Controls.gs.js:268-277 | the cleared sheet holds the folder name and the three column headers |
| `Inventory.AddRecord` | UpdateControls/Update-Controls.gs.js:319-323 | the three `setValue` calls on the next free row append exactly that record |
| `Inventory.CaptureFile` | UpdateControls/Update-Controls.gs.js:302-325 | a Google Sheets file adds its row and a success line; an Excel file adds one error line and no row; other types add nothing |
| `Inventory.CaptureFiles` | UpdateControls/Update-Controls.gs.js:300-326 | the inner loop adds the files' rows and lines in file order, and the returned row is the next free one |
| `Inventory.CaptureNested` | UpdateControls/Update-Controls.gs.js:258-328 | `almacenarIDs`: the sheet holds one row per spreadsheet of each subfolder, named by its cleaned folder name, and the log gains their lines |
| `Inventory.CaptureFlat` | UpdateControls/Update-Controls.gs.js:338-391 | `almacenarIDsDocus`: the sheet holds one row per spreadsheet of the folder, named by its file name, and the log gains their lines |
| `Inventory.FileCounts` | UpdateControls/Update-Controls.gs.js:305-325 | one row per Google Sheets file, one line per Google Sheets or Excel file; every row comes from a spreadsheet file |
| `Inventory.NestedCounts` | UpdateControls/Update-Controls.gs.js:292-327 | over all subfolders the row and line counts are those per type; every row's name is the cleaned name of a subfolder |
| `Inventory.InventoryNameColumn` | UpdateControls/Update-Controls.gs.js:428-429 | column C of a captured inventory, read from row 2 on as `compararSheets` reads it, is the header followed by the recorded names |
| `Prompts.CurrentAnswerIsNormalised` | UpdateControls/Update-Controls.gs.js:112-115 | the current version accepts exactly the responses that trim and lower-case to "y" or "n" |
| `Prompts.LegacyAnswerAlsoCurrent` | UpdateControls/Code.gs.js:82-85 | every answer the legacy version accepts, the current one reads the same way |
| `Prompts.PaddedAnswerDiffers` | UpdateControls/Code.gs.js:82 | " Y " is yes to the current version and invalid to the legacy one, which does not trim |
| `Prompts.FirstAnswer` | UpdateControls/Update-Controls.gs.js:110-121 | the answer comes from the first valid response and every response before it is invalid; with none left, all responses are used |
| `Prompts.AskYesNo` | UpdateControls/Update-Controls.gs.js:105-124 | `preguntaMenu` returns the first valid answer from the given response on, and the index after it |
| `Layout.NormalisedRowCount` | UpdateControls/Update-Controls.gs.js:150-170 | each repair rule changes the row count by exactly one and only when it applies, so the count moves by one at most per rule |
| `Layout.NormalisedUnchangedIff` | UpdateControls/Update-Controls.gs.js:156-169 | `updateFormat` leaves the sheet as it was exactly when neither rule applies |
| `Layout.ExtraRowRemoved` | UpdateControls/Update-Controls.gs.js:156-160 | deleting the extra top row brings the title to A1 and the type label to A2 |
| `Layout.RowTenInserted` | UpdateControls/Update-Controls.gs.js:164-169 | the inserted row 10 is blank, A9 stays and the test title moves to A11 |
| `Layout.UpdateFormat` | UpdateControls/Update-Controls.gs.js:150-170 | the sheet becomes `Normalised` of its old values: the row deletion is tested first, then row 10 on the shifted sheet |
| `Layout.CheckFormat` | UpdateControls/Update-Controls.gs.js:134-142 | a sheet missing any of the seven anchors is repaired and one warning is logged; otherwise nothing changes |
| `Validation.MustBeEmptyShape` | UpdateControls/Update-Controls.gs.js:182-184 | nine ranges that should be empty, with distinct names |
| `Validation.MustHaveDataShape` | UpdateControls/Code.gs.js:341-343 | five ranges that should hold data in the current version, three in the legacy one |
| `Validation.EmptyWarnings` | UpdateControls/Update-Controls.gs.js:191-213 | at most one warning per range that should be empty |
| `Validation.FilledWarnings` | UpdateControls/Update-Controls.gs.js:216-238 | at most one warning per range that should hold data |
| `Validation.AtMostFifteen` | UpdateControls/Update-Controls.gs.js:180-245 | at most 15 warnings in the current version and 13 in the legacy one |
| `Validation.SentinelGuardsRanges` | UpdateControls/Update-Controls.gs.js:210 | without "Prueba a realizar" exactly in A12 the only possible warning is the extra-row one |
| `Validation.NotEmptyWarned` | UpdateControls/Update-Controls.gs.js:191-213 | the first loop warns about range k exactly when it has content and the sentinel holds |
| `Validation.EmptyWarned` | UpdateControls/Update-Controls.gs.js:216-238 | the second loop warns about range k exactly when it is all blank and the sentinel holds |
| `Validation.WarnsNotEmpty` | UpdateControls/Update-Controls.gs.js:209-212 | a range that should be empty is reported exactly when it has content and A12 is "Prueba a realizar" |
| `Validation.WarnsEmpty` | UpdateControls/Update-Controls.gs.js:234-237 | a range that should hold data is reported exactly when it is all blank and A12 is "Prueba a realizar" |
| `Validation.WarnsExtraRows` | UpdateControls/Update-Controls.gs.js:240-244 | the extra-row warning is logged exactly when `getMaxRows() > 14` and E14 is exactly "Tamaño Muestra." |
| `Validation.ContentIn` | UpdateControls/Update-Controls.gs.js:197-207 | the nested loops with their `break`s find a non-blank cell exactly when the range has content |
| `Validation.CheckEmpty` | UpdateControls/Update-Controls.gs.js:191-213 | the first loop produces the must-be-empty warnings in range order |
| `Validation.CheckFilled` | UpdateControls/Update-Controls.gs.js:216-238 | the second loop produces the must-have-data warnings of the version in range order |
| `Validation.VerifyCells` | UpdateControls/Update-Controls.gs.js:180-245 | `verificarCeldas` produces exactly `Warnings` and modifies no sheet |
| `FieldCopy.Classification` | UpdateControls/Update-Controls.gs.js:568-573 | one single-cell field per column, from the source row to the destination row |
| `FieldCopy.CurrentTable` | UpdateControls/Update-Controls.gs.js:567-577 | the nine pairs are well formed, their destinations do not overlap and cover no destination label |
| `FieldCopy.LegacyTable` | UpdateControls/Code.gs.js:463-471 | the seven pairs for offset n are well formed and apart |
| `FieldCopy.LegacyCoordinates` | UpdateControls/Code.gs.js:464-470 | classification cells go from row n to row n-2, description and evidence one row up; columns are kept; labels sit where the table says |
| `FieldCopy.LegacyFiveIsCurrent` | UpdateControls/Code.gs.js:463-471 | with offset 5 the legacy table is the current one without F5 and without B13:F13 |
| `FieldCopy.LegacySixIsFiveBelow` | UpdateControls/Code.gs.js:463-471 | offset 6 reads every source range and label one row below offset 5 |
| `FieldCopy.OffsetValues` | UpdateControls/Code.gs.js:453-461 | `numRango` is 5, 6 or undetected, and is detected exactly when A2 or A3 holds "Tipo de Control" or "Clase" |
| `FieldCopy.OffsetOfExtraTopRow` | UpdateControls/Code.gs.js:453-457 | a sheet the current version repairs by deleting row 1 gets offset 6, and the repaired sheet gets offset 5 |
| `FieldCopy.OffsetsReadAlike` | UpdateControls/Code.gs.js:463-471 | on such a sheet the offset-6 table reads what the offset-5 table reads after the repair |
| `FieldCopy.Labels` | UpdateControls/Update-Controls.gs.js:591 | at most one label per field |
| `FieldCopy.Lines` | UpdateControls/Update-Controls.gs.js:592 | one log line per label pushed |
| `FieldCopy.FieldOutcome` | UpdateControls/Update-Controls.gs.js:581-594 | a field's destination ends with its source's values when the source has a non-blank cell, and keeps its values otherwise |
| `FieldCopy.NotYetWritten` | UpdateControls/Update-Controls.gs.js:581-594 | a destination is unchanged until the loop reaches its field |
| `FieldCopy.CellOutside` | UpdateControls/Update-Controls.gs.js:589-590 | a cell outside every destination range keeps its value |
| `FieldCopy.CopyIsConservative` | UpdateControls/Update-Controls.gs.js:581-594 | the copy never blanks a destination: each one takes its source's values or keeps its own, and every other cell is unchanged |
| `FieldCopy.LabelsKept` | UpdateControls/Update-Controls.gs.js:592 | the destination labels read after the writes still hold their old values |
| `FieldCopy.Selected` | UpdateControls/Update-Controls.gs.js:586-589 | the indices of the fields copied so far are all earlier fields |
| `FieldCopy.SelectedExactly` | UpdateControls/Update-Controls.gs.js:586-591 | the fields copied are exactly those whose source has content, each once, in table order |
| `FieldCopy.LabelsAreSelected` | UpdateControls/Update-Controls.gs.js:591 | label k pushed to `textoCopiado` is the source label of the k-th copied field |
| `FieldCopy.LinesNameLabels` | UpdateControls/Update-Controls.gs.js:592 | log line k names label k and the destination label, as it was before the copy, of the same field |
| `FieldCopy.LinesReadDst` | UpdateControls/Update-Controls.gs.js:592 | reading the destination labels after the writes gives the lines they would give before |
| `FieldCopy.CopyField` | UpdateControls/Update-Controls.gs.js:582-593 | one turn of the loop extends the destination, the labels and the log by that field's effect |
| `FieldCopy.CopyTable` | UpdateControls/Update-Controls.gs.js:581-594 | the loop leaves the destination `Copied`, returns the labels and appends the lines of the copied fields, in table order |
| `TestField.TestStep` | UpdateControls/Code.gs.js:494-537 | `valoresB12F12` stays either unassigned or one row of five values |
| `TestField.StaleCarried` | UpdateControls/Code.gs.js:516-519 | `valoresB12F12` changes exactly when the source's A12 is "Prueba. Actualizaciones", to that source's B12:F12 |
| `TestField.CopiedIff` | UpdateControls/Code.gs.js:494-525 | the test update is copied and labelled exactly when the selected source row has content and the destination's A12 is "Prueba a realizar"; only B12:F12 changes then |
| `TestField.NoContentNoChange` | UpdateControls/Code.gs.js:494-537 | without a selected row with content nothing changes; an unrecognised A12 logs one REVISAR line |
| `TestField.AbortsIff` | UpdateControls/Code.gs.js:498-514 | the batch stops exactly when a "Prueba a realizar" source with content meets a destination labelled in A11 and `valoresB12F12` was never assigned |
| `TestField.InsertedRowWritesCarried` | UpdateControls/Code.gs.js:507-513 | in the inserted-row branch, row 10 becomes blank, the label moves to A12 and B12:F12 receives the values carried from an earlier row |
| `TestField.PlaceTest` | UpdateControls/Code.gs.js:503-514 | the in-place step leaves the sheet, labels, abort flag and log lines `Place` gives |
| `TestField.CopyTest` | UpdateControls/Code.gs.js:494-537 | the three A12 branches leave the destination and log as `TestStep` says and return the new `valoresB12F12` |
| `TestField.FrequenciesAndSamples` | UpdateControls/Code.gs.js:540-567 | the loop writes nothing and pushes exactly two texts, the destination's D(n-2) and F(n+9) |
| `Agenda.WrittenCells` | UpdateControls/Update-Controls.gs.js:609-614 | the four `setValue` calls set columns B..E of that row and nothing else |
| `Agenda.MarkLinesCount` | UpdateControls/Update-Controls.gs.js:607-617 | the loop logs exactly one line per agenda row from index 2 on whose column A names the control |
| `Agenda.MarkLines` | UpdateControls/Update-Controls.gs.js:615 | every agenda line logged names the destination tab |
| `Agenda.MarkedCell` | UpdateControls/Update-Controls.gs.js:607-617 | a cell changes only in columns B..E of a row from index 2 on whose column A names the control, and there takes the entry's value |
| `Agenda.MarkedCells` | UpdateControls/Update-Controls.gs.js:607-617 | the same for every cell at once |
| `Agenda.UpdateAgenda` | UpdateControls/Update-Controls.gs.js:607-617 | the loop leaves the agenda `Marked` and logs one line per matching row |
| `Propagate.FindTab` | UpdateControls/Update-Controls.gs.js:540-544 | the tab found has the id and name asked for and no earlier tab does; no tab is found only when none has them |
| `Propagate.Row` | UpdateControls/Update-Controls.gs.js:525-618 | a mapping row keeps the tabs' count and `valoresB12F12` well formed |
| `Propagate.Run` | UpdateControls/Update-Controls.gs.js:525-618 | the batch keeps the tabs' count and `valoresB12F12` well formed |
| `Propagate.LegacyPair` | UpdateControls/Code.gs.js:463-584 | the legacy pair step keeps `valoresB12F12` well formed |
| `Propagate.OpenFailureSkipsRow` | UpdateControls/Update-Controls.gs.js:538-560 | a file that cannot be opened costs only its row: header lines plus one error line, no tab or agenda change, no abort |
| `Propagate.NoOffsetSkipsRow` | UpdateControls/Code.gs.js:452-461 | legacy: with no offset detected the row logs one REVISAR line and writes nothing |
| `Propagate.RowTouchesItsTabs` | UpdateControls/Update-Controls.gs.js:538-617 | a row changes only its source and destination tabs; the source only by the current version's format repair |
| `Propagate.SampleSizeSynced` | UpdateControls/Update-Controls.gs.js:596-601 | after the F14 step the destination's F14 equals the source's; the batch stops exactly when F14 had to be written |
| `Propagate.CurrentPairAgenda` | UpdateControls/Update-Controls.gs.js:596-617 | the agenda is unchanged after an abort, otherwise marked with the current entry |
| `Propagate.LegacyPairAgenda` | UpdateControls/Code.gs.js:569-584 | the agenda is unchanged after an abort, otherwise marked with the legacy entry: the labels of the table and the test field, the joined frequency texts and F(n+9) |
| `Propagate.CurrentRowMarksAgenda` | UpdateControls/Update-Controls.gs.js:607-617 | a completed row puts "OK", the joined labels, "D3, F14" and F14 of the destination in each agenda row naming its control |
| `Propagate.LegacyRowMarksAgenda` | UpdateControls/Code.gs.js:574-584 | a completed legacy row puts "OK", "D(n-2), F(n+9)" and F(n+9) of the destination in each agenda row naming its control |
| `Propagate.RowAgendaCell` | UpdateControls/Update-Controls.gs.js:607-617 | a row changes an agenda cell only in columns B..E of a row from index 2 on naming its control |
| `Propagate.AbortIsFinal` | UpdateControls/Update-Controls.gs.js:619-621 | once a row stops the batch, no later row changes anything |
| `Propagate.HeaderRowIgnored` | UpdateControls/Update-Controls.gs.js:525 | mapping row 0 never influences the batch |
| `Propagate.AgendaCellChanged` | UpdateControls/Update-Controls.gs.js:525-617 | over the whole batch an agenda cell changes only in columns B..E of a row from index 2 on naming the control of a mapping row that ran |
| `Propagate.CurrentPairOn` | UpdateControls/Update-Controls.gs.js:564-617 | on the open tabs the current version leaves the destination, agenda and log as `CurrentPair` says |
| `Propagate.LegacyPairOn` | UpdateControls/Code.gs.js:463-584 | on the open tabs the legacy version leaves them as `LegacyPair` says |
| `Propagate.CurrentRowOn` | UpdateControls/Update-Controls.gs.js:562-564 | the source check, then a missing destination tab stops the batch |
| `Propagate.LegacyRowOn` | UpdateControls/Code.gs.js:452-461 | the offset detection, then a missing destination tab stops the batch |
| `Propagate.UpdateRow` | UpdateControls/Update-Controls.gs.js:525-617 | one mapping row on the sheets leaves the state `Row` gives |
| `Propagate.UpdateControls` | UpdateControls/Update-Controls.gs.js:512-622 | `copiarCeldasDesdeControl` leaves the tabs, agenda and log as `Run` over the mapping rows after the header gives |
| `Reconcile.Resolve` | UpdateControls/Update-Controls.gs.js:462-499 | a finished dialog consumes at least one response, never more than there are, and never goes back to an earlier copy attempt |
| `Reconcile.ResolveShape` | UpdateControls/Update-Controls.gs.js:462-499 | a created control uses the first successful copy attempt and the name typed after the accepted "y"; a refusal logs the warning; every attempt before it failed |
| `Reconcile.RefusalLogsOnce` | UpdateControls/Update-Controls.gs.js:495-498 | "n" ends the dialog with exactly one warning and no mapping row |
| `Reconcile.FailedCopyAsksAgain` | UpdateControls/Update-Controls.gs.js:492-494 | a copy exception does not end the loop: the user is asked again and the next attempt is used |
| `Reconcile.CopiedEnds` | UpdateControls/Update-Controls.gs.js:469-491 | a successful copy ends the dialog with the mapping row for the copy and the "Control creado" line |
| `Reconcile.UnansweredStalls` | UpdateControls/Update-Controls.gs.js:465-475 | running out of responses before an answer, or before the name, leaves the dialog open |
| `Reconcile.PaddedYesCreatesInCurrent` | UpdateControls/Update-Controls.gs.js:466-475 | the current version reads " y " as yes and creates the control under the trimmed typed name |
| `Reconcile.PaddedYesStallsInLegacy` | UpdateControls/Code.gs.js:291-330 | the legacy version rejects " y " and keeps asking |
| `Reconcile.DialogOfSound` | UpdateControls/Update-Controls.gs.js:462-499 | the dialog's results satisfy what the comparison relies on |
| `Reconcile.HandleRowShape` | UpdateControls/Update-Controls.gs.js:437-500 | a matched row writes its first matching entry and nothing else; an unmatched row logs one line unless it stalls and creates a copy exactly when it writes a row; at most one mapping row per tested row |
| `Reconcile.RunRows` | UpdateControls/Update-Controls.gs.js:437-501 | mapping rows come one per tested row at most, in tested-row order, each starting with its tested row's id and tab |
| `Reconcile.RunCopies` | UpdateControls/Update-Controls.gs.js:462-499 | the comparison reads no more responses than there are and uses each successful copy once |
| `Reconcile.StalledStays` | UpdateControls/Update-Controls.gs.js:465-499 | once a dialog stalls, later tested rows are never reached |
| `Reconcile.MatchedStep` | UpdateControls/Update-Controls.gs.js:444-458 | a matched tested row adds its mapping row and nothing else |
| `Reconcile.AllMatchedNoDialog` | UpdateControls/Update-Controls.gs.js:437-460 | when every tested row matches, no response and no copy is used, nothing is logged and there is one mapping row per tested row |
| `Reconcile.AllMatchedRows` | UpdateControls/Update-Controls.gs.js:437-460 | then mapping row k pairs tested row k + 1 with the first entry it matches |
| `Reconcile.OneLinePerUnmatchedRow` | UpdateControls/Update-Controls.gs.js:462-499 | unless a dialog stalled, each unmatched tested row logs exactly one line and matched rows log none |
| `Reconcile.FirstRowMatched` | UpdateControls/Update-Controls.gs.js:437-458 | a first tested row that matches gives the first mapping row |
| `Reconcile.HeaderRowMapsToHeader` | UpdateControls/Update-Controls.gs.js:428-458 | the pool's first key is the documented inventory's row 2 name, and a tested row 2 with that name matches it |
| `Reconcile.CapturedHeaderEntry` | UpdateControls/Update-Controls.gs.js:428-458 | between two captured inventories the header rows match each other, giving the mapping row of headers |
| `Reconcile.CapturedHeaderRow` | UpdateControls/Update-Controls.gs.js:274-277 | a captured inventory holds the headers in row 2 and the recorded names below |
| `Reconcile.CapturedPoolHead` | UpdateControls/Update-Controls.gs.js:428-434 | the pool of a captured inventory starts with its header row |
| `Reconcile.CapturedHeadersMapped` | UpdateControls/Update-Controls.gs.js:424-458 | so mapping row 1 between two captured inventories pairs their header rows |
| `Reconcile.WriteMappingRow` | UpdateControls/Update-Controls.gs.js:450-455 | the five `setValue` calls on the next free row append the mapping row, and `row++` |
| `Reconcile.ClearedExactly` | UpdateControls/Code.gs.js:96-100 | clearing a list of ranges blanks exactly the cells inside one of them and adds no rows |
| `Reconcile.ClearListed` | UpdateControls/Code.gs.js:96-100 | `limpiarControlCreado` leaves the sheet `ClearAllOf` the ranges |
| `Reconcile.ClearCreated` | UpdateControls/Code.gs.js:316-318 | clearing a new copy clears it alone among the copies |
| `Reconcile.DialogRound` | UpdateControls/Update-Controls.gs.js:465-499 | one round either ends the dialog with `Resolve`'s result or starts over later with the same outcome ahead |
| `Reconcile.AskDialog` | UpdateControls/Update-Controls.gs.js:464-499 | the `do ... while` loop ends with `Resolve`'s result |
| `Reconcile.MatchOrAsk` | UpdateControls/Update-Controls.gs.js:441-500 | the first matching entry, or else the dialog, gives the row's outcome |
| `Reconcile.ApplyOutcome` | UpdateControls/Update-Controls.gs.js:484-490 | the writes append the mapping row and the log line, and the legacy version clears the new copy |
| `Reconcile.CompareRow` | UpdateControls/Update-Controls.gs.js:437-500 | one tested row moves the sheets from the state before it to the state after it |
| `Reconcile.CompareRows` | UpdateControls/Update-Controls.gs.js:437-501 | the loop leaves the mapping sheet, the log and the copies as `RunUpTo` over all tested rows gives |
| `Reconcile.Compare` | UpdateControls/Update-Controls.gs.js:403-502 | `compararSheets`: the mapping sheet holds the rows, the log gains the dialog lines, and copies are cleared by the legacy version only |

## Left out

- Host glue: `onOpen`, `main`, `solicitarNombreHoja` and `checkSheetExists` are menus and host
  lookups. The option chosen, the sheet names and the answers are inputs.
- `createLogSheet` depends on the clock and fonts. The log is an append-only sequence, and the
  log sheet is not one of the modelled sheets.
- Alerts, styling and merges (`UI.alert`, `setBackground`, `mergeAcross`, `setFontSize`,
  `setFontWeight`) have no effect on cell values, so they are not modelled.
- Drive and the document store are inputs:
  - the folder tree is a list of subfolders of typed files;
  - `openById` succeeds for a given set of ids;
  - the tabs of the open files are given `Sheet` objects;
  - `makeCopy` is a sequence of outcomes.
  Opening, copying and naming are not otherwise modelled.
- `Grid.Get`: a read outside a sheet's rows or columns gives a blank value. In the host,
  `getRange` on a range outside the sheet's dimensions throws. On a control tab with fewer
  than 15 rows, the reads and writes of A12, E14:F14, B12:F12 and F(n+9) would therefore reach
  the outer `catch` and end the batch. The model has no such abort: it reads blanks. The model
  assumes every control tab has at least 15 rows, which the fixed layout gives.
- `Grid.Write`, `Grid.SetCell`: a write outside the stored area pads the sheet with blank rows
  and cells instead of throwing. Only the mapping and inventory sheets are written past their
  stored rows, from their next free row. The model does not bound how far they grow; in the
  host a new sheet's fixed number of blank rows bounds it.
- `Validation.ExtraRows` reads `getMaxRows()` as the number of stored rows. For a control tab
  the count is exact as long as the tab is never written beyond its rows. The 15-row
  assumption above ensures that.
- `Grid.Sheet.ClearAll` leaves no rows, while `clear()` keeps the sheet's dimensions and blanks
  its values. The sheets cleared this way are read back only through `getDataRange()`, which
  drops the trailing blank rows, so the values read are the same.
- Cells hold strings only. `trim()` on a numeric or date cell throws in the source, which would
  abort the batch; the model has no such values.
- `Text.ToLower` lower-cases ASCII and Latin-1 capitals only, not the whole of Unicode.
- JavaScript object key order enumerates integer-like keys first. The pool is an ordered list in
  insertion order, as for non-numeric names.
- `getDataRange()` trims trailing empty rows and columns; the model takes the sheets' values
  as given.
- A missing inventory, mapping or agenda sheet (`getSheetByName` giving null) is not modelled;
  these sheets are assumed to exist.
- A dialog that runs out of responses waits forever in the source. The model reports it as
  stalled, and no later tested row runs.
- `Reconcile.Compare`: the mapping sheet and the new copies are distinct sheets
  (`CopiesApart`), and clearing a new copy never throws. In the source a throw there would be
  caught after the mapping row was written, and the dialog would ask again.
- `Propagate.UpdateControls`: each mapping row names two different files (`DistinctFiles`),
  and the agenda is none of the tabs. A row whose source and destination are the same sheet
  (aliasing) is not modelled.
- `FieldCopy.CopyTable`: the source and destination sheets are distinct objects, as above.
- `Propagate.LegacyRowMarksAgenda` states columns B, D and E. Column C, the joined labels, is
  stated by `Propagate.LegacyPairAgenda`.
- The legacy `frecuenciasYMuestras` loop reads source cells whose values are never used; those
  reads are not modelled.
- Legacy `copiarCeldasDesdeControl` with a missing destination tab: the model follows the first
  throw (the first copied field, else the frequency loop) and logs only what comes before it.
- `HerramientaAuditorias.js` is not part of this model. It creates Drive folders and
  spreadsheets, and its only logic is a comma split and string concatenation.
