/**
 * Inventory capture: `almacenarIDs` (tested controls, one subfolder per control) and
 * `almacenarIDsDocus` (documented controls, all files in one folder). The inventory sheet gets
 * the folder name in A1, the column headers in row 2 and one row per Google Sheets file from row
 * 3 down. The Drive folder tree is an input value.
 */
module Inventory {
  import opened Text
  import opened Grid
  import opened Prompts
  import opened ControlNames

  datatype Mime = GoogleSheets | MicrosoftExcel | OtherType

  /**
   * A Drive file: its id, name, MIME type, the name of its first tab (for spreadsheets) and the
   * text the host produces when the file object itself is concatenated into a string.
   */
  datatype DriveFile = DriveFile(id: string, name: string, mime: Mime, firstTab: string, shown: string)

  datatype Subfolder = Subfolder(name: string, files: seq<DriveFile>)

  /** One inventory row: A = file id, B = first tab, C = control name. */
  datatype Record = Record(id: string, tab: string, control: string)

  const Headers: seq<string> := ["ID de control", "Hoja de control", "Nombre de Sheet"]

  function RecordRow(rec: Record): Row
  {
    [rec.id, rec.tab, rec.control]
  }

  /** The inventory sheet holding `recs`. */
  function InventoryGrid(rootName: string, recs: seq<Record>): (g: Cells)
    ensures |g| == |recs| + 2
  {
    if recs == [] then [[rootName], Headers]
    else InventoryGrid(rootName, recs[..|recs| - 1]) + [RecordRow(recs[|recs| - 1])]
  }

  /**
   * The inventory's layout: the folder name in A1, the headers in row 2, and record k in row k + 3,
   * so the records fill rows 3, 4, 5, ... with no gap.
   */
  lemma {:induction false} InventoryRows(rootName: string, recs: seq<Record>)
    ensures InventoryGrid(rootName, recs)[0] == [rootName]
    ensures InventoryGrid(rootName, recs)[1] == Headers
    ensures forall k :: 0 <= k < |recs| ==> InventoryGrid(rootName, recs)[k + 2] == RecordRow(recs[k])
    decreases |recs|
  {
    if recs != [] {
      var init := recs[..|recs| - 1];
      InventoryRows(rootName, init);
      assert forall k :: 0 <= k < |init| ==> recs[k] == init[k];
    }
  }

  function SuccessLine(control: string): string
  {
    "Se ha copiado el ID del control: \"" + control + "\" correctamente."
  }

  /** The Excel warning: per-control in the nested capture, per-file in the flat one. */
  function ExcelLine(v: Version, nested: bool, shown: string): string
  {
    if nested then
      (if v == Current then "ERROR. " else "Error. ")
      + "El control: \"" + shown + "\" tiene formato EXCEL y no se puede extraer su ID."
    else if v == Current then "ERROR. El control: \"" + shown + "\" tiene formato EXCEL y no se puede extraer su ID."
    else "El control: \"" + shown + "\" tiene formato EXCEL."
  }

  /** The control name a file is recorded under: its cleaned subfolder name, or its own name. */
  function Label(nested: bool, folderLabel: string, f: DriveFile): string
  {
    if nested then folderLabel else f.name
  }

  /** The rows the files contribute, in order: one per Google Sheets file. */
  function FileRecords(nested: bool, folderLabel: string, files: seq<DriveFile>, n: nat): seq<Record>
    requires n <= |files|
  {
    if n == 0 then [] else FileRecords(nested, folderLabel, files, n - 1) + FileRecord(nested, folderLabel, files[n - 1])
  }

  /** The log lines the files contribute, in order. */
  function FileLog(v: Version, nested: bool, folderLabel: string, files: seq<DriveFile>, n: nat): seq<string>
    requires n <= |files|
  {
    if n == 0 then [] else FileLog(v, nested, folderLabel, files, n - 1) + FileLine(v, nested, folderLabel, files[n - 1])
  }

  function NestedRecords(folders: seq<Subfolder>): seq<Record>
  {
    if folders == [] then []
    else
      var d := folders[|folders| - 1];
      NestedRecords(folders[..|folders| - 1]) + FileRecords(true, CleanControlName(d.name), d.files, |d.files|)
  }

  function NestedLog(v: Version, folders: seq<Subfolder>): seq<string>
  {
    if folders == [] then []
    else
      var d := folders[|folders| - 1];
      NestedLog(v, folders[..|folders| - 1]) + FileLog(v, true, CleanControlName(d.name), d.files, |d.files|)
  }

  /** Three values written one at a time, left to right, on the row just below the last one append a row. */
  lemma AppendThree(g: Cells, a: string, b: string, c: string, g1: Cells, g2: Cells, g3: Cells)
    requires g1 == SetCell(g, |g|, 0, a)
    requires g2 == SetCell(g1, |g|, 1, b)
    requires g3 == SetCell(g2, |g|, 2, c)
    ensures g3 == g + [[a, b, c]]
  {
    SetCellStartsRow(g, a);
    SetCellExtendsRow(g, [a], b);
    assert [a] + [b] == [a, b];
    SetCellExtendsRow(g, [a, b], c);
    assert [a, b] + [c] == [a, b, c];
  }

  lemma GridAppend(rootName: string, recs: seq<Record>, rec: Record)
    ensures InventoryGrid(rootName, recs + [rec]) == InventoryGrid(rootName, recs) + [RecordRow(rec)]
  {
    assert (recs + [rec])[..|recs|] == recs;
  }

  /** Clears the inventory sheet and writes the folder name and the headers. */
  method WriteHeader(rootName: string, sheet: Sheet)
    modifies sheet
    ensures sheet.cells == InventoryGrid(rootName, [])
  {
    sheet.ClearAll();
    sheet.SetValue(0, 0, rootName);
    SetCellStartsRow([], rootName);
    ghost var g0 := sheet.cells;
    sheet.SetValue(1, 0, Headers[0]);
    ghost var g1 := sheet.cells;
    sheet.SetValue(1, 1, Headers[1]);
    ghost var g2 := sheet.cells;
    sheet.SetValue(1, 2, Headers[2]);
    AppendThree(g0, Headers[0], Headers[1], Headers[2], g1, g2, sheet.cells);
  }

  /** Writes one record's cells on the next free row. */
  method AddRecord(rootName: string, ghost recs: seq<Record>, rec: Record, row: nat, sheet: Sheet)
    requires sheet.cells == InventoryGrid(rootName, recs) && row == |sheet.cells|
    modifies sheet
    ensures sheet.cells == InventoryGrid(rootName, recs + [rec])
  {
    ghost var g0 := sheet.cells;
    sheet.SetValue(row, 0, rec.id);
    ghost var g1 := sheet.cells;
    sheet.SetValue(row, 1, rec.tab);
    ghost var g2 := sheet.cells;
    sheet.SetValue(row, 2, rec.control);
    AppendThree(g0, rec.id, rec.tab, rec.control, g1, g2, sheet.cells);
    GridAppend(rootName, recs, rec);
  }

  /** The log line a file contributes, if any. */
  function FileLine(v: Version, nested: bool, folderLabel: string, f: DriveFile): seq<string>
  {
    match f.mime
    case GoogleSheets => [SuccessLine(Label(nested, folderLabel, f))]
    case MicrosoftExcel => [ExcelLine(v, nested, if nested then folderLabel else f.shown)]
    case OtherType => []
  }

  /** The row a file contributes, if any. */
  function FileRecord(nested: bool, folderLabel: string, f: DriveFile): seq<Record>
  {
    if f.mime == GoogleSheets then [Record(f.id, f.firstTab, Label(nested, folderLabel, f))] else []
  }

  /** One file of the inner loop: a spreadsheet is recorded and logged, an Excel file only logged. */
  method CaptureFile(v: Version, nested: bool, rootName: string, folderLabel: string, f: DriveFile,
                     ghost recs: seq<Record>, row: nat, sheet: Sheet, log: Log) returns (next: nat)
    requires sheet.cells == InventoryGrid(rootName, recs) && row == |sheet.cells|
    modifies sheet, log
    ensures sheet.cells == InventoryGrid(rootName, recs + FileRecord(nested, folderLabel, f))
    ensures next == |sheet.cells|
    ensures log.lines == old(log.lines) + FileLine(v, nested, folderLabel, f)
  {
    next := row;
    if f.mime == MicrosoftExcel {
      log.Append(ExcelLine(v, nested, if nested then folderLabel else f.shown));
      assert recs + [] == recs;
    } else if f.mime == GoogleSheets {
      var rec := Record(f.id, f.firstTab, Label(nested, folderLabel, f));
      AddRecord(rootName, recs, rec, row, sheet);
      log.Append(SuccessLine(rec.control));
      next := row + 1;
    } else {
      assert recs + [] == recs;
    }
  }

  /** Iteration j of the inner loop, stated against the records and log lines of the first j files. */
  method CaptureAt(v: Version, nested: bool, rootName: string, folderLabel: string, files: seq<DriveFile>, j: nat,
                   ghost recs: seq<Record>, ghost base: seq<string>, row: nat, sheet: Sheet, log: Log) returns (next: nat)
    requires j < |files|
    requires sheet.cells == InventoryGrid(rootName, recs + FileRecords(nested, folderLabel, files, j))
    requires row == |sheet.cells|
    requires log.lines == base + FileLog(v, nested, folderLabel, files, j)
    modifies sheet, log
    ensures sheet.cells == InventoryGrid(rootName, recs + FileRecords(nested, folderLabel, files, j + 1))
    ensures next == |sheet.cells|
    ensures log.lines == base + FileLog(v, nested, folderLabel, files, j + 1)
  {
    next := CaptureFile(v, nested, rootName, folderLabel, files[j], recs + FileRecords(nested, folderLabel, files, j), row, sheet, log);
    CaptureStep(v, nested, folderLabel, files, j, recs, base);
  }

  /** The records and log lines of the first j + 1 files extend those of the first j by file j's. */
  lemma CaptureStep(v: Version, nested: bool, folderLabel: string, files: seq<DriveFile>, j: nat,
                    recs: seq<Record>, base: seq<string>)
    requires j < |files|
    ensures recs + FileRecords(nested, folderLabel, files, j) + FileRecord(nested, folderLabel, files[j])
            == recs + FileRecords(nested, folderLabel, files, j + 1)
    ensures base + FileLog(v, nested, folderLabel, files, j) + FileLine(v, nested, folderLabel, files[j])
            == base + FileLog(v, nested, folderLabel, files, j + 1)
  {
  }

  /** The inner `while (files.hasNext())` loop, writing from row `start` on; returns the next free row. */
  method CaptureFiles(v: Version, nested: bool, rootName: string, folderLabel: string, files: seq<DriveFile>,
                      ghost recs: seq<Record>, start: nat, sheet: Sheet, log: Log) returns (row: nat)
    requires sheet.cells == InventoryGrid(rootName, recs) && start == |recs| + 2
    modifies sheet, log
    ensures sheet.cells == InventoryGrid(rootName, recs + FileRecords(nested, folderLabel, files, |files|))
    ensures row == |sheet.cells|
    ensures log.lines == old(log.lines) + FileLog(v, nested, folderLabel, files, |files|)
  {
    row := start;
    var j := 0;
    ghost var base := log.lines;
    assert recs + FileRecords(nested, folderLabel, files, 0) == recs;
    assert log.lines == base + FileLog(v, nested, folderLabel, files, 0);
    while j < |files|
      invariant 0 <= j <= |files|
      invariant sheet.cells == InventoryGrid(rootName, recs + FileRecords(nested, folderLabel, files, j))
      invariant row == |sheet.cells|
      invariant log.lines == base + FileLog(v, nested, folderLabel, files, j)
    {
      row := CaptureAt(v, nested, rootName, folderLabel, files, j, recs, base, row, sheet, log);
      j := j + 1;
    }
  }

  lemma NestedStep(v: Version, folders: seq<Subfolder>, i: nat, base: seq<string>)
    requires i < |folders|
    ensures NestedRecords(folders[..i + 1])
      == NestedRecords(folders[..i]) + FileRecords(true, CleanControlName(folders[i].name), folders[i].files, |folders[i].files|)
    ensures NestedLog(v, folders[..i + 1])
      == NestedLog(v, folders[..i]) + FileLog(v, true, CleanControlName(folders[i].name), folders[i].files, |folders[i].files|)
    ensures base + NestedLog(v, folders[..i]) + FileLog(v, true, CleanControlName(folders[i].name), folders[i].files, |folders[i].files|)
      == base + NestedLog(v, folders[..i + 1])
  {
    assert folders[..i + 1][..i] == folders[..i];
  }

  /** Iteration i of the outer loop: subfolder i's files go below the rows of the first i subfolders. */
  method CaptureFolderAt(v: Version, rootName: string, folders: seq<Subfolder>, i: nat, ghost base: seq<string>,
                         row: nat, sheet: Sheet, log: Log) returns (next: nat)
    requires i < |folders|
    requires sheet.cells == InventoryGrid(rootName, NestedRecords(folders[..i]))
    requires row == |sheet.cells|
    requires log.lines == base + NestedLog(v, folders[..i])
    modifies sheet, log
    ensures sheet.cells == InventoryGrid(rootName, NestedRecords(folders[..i + 1]))
    ensures next == |sheet.cells|
    ensures log.lines == base + NestedLog(v, folders[..i + 1])
  {
    var d := folders[i];
    var folderLabel := CleanControlName(d.name);
    next := CaptureFiles(v, true, rootName, folderLabel, d.files, NestedRecords(folders[..i]), row, sheet, log);
    NestedStep(v, folders, i, base);
  }

  /** `almacenarIDs`: every subfolder is one control, named by its cleaned folder name. */
  method CaptureNested(v: Version, rootName: string, folders: seq<Subfolder>, sheet: Sheet, log: Log)
    modifies sheet, log
    ensures sheet.cells == InventoryGrid(rootName, NestedRecords(folders))
    ensures log.lines == old(log.lines) + NestedLog(v, folders)
  {
    WriteHeader(rootName, sheet);
    var row := 2;
    var i := 0;
    ghost var base := log.lines;
    assert folders[..0] == [];
    assert log.lines == base + NestedLog(v, folders[..0]);
    while i < |folders|
      invariant 0 <= i <= |folders|
      invariant sheet.cells == InventoryGrid(rootName, NestedRecords(folders[..i]))
      invariant row == |sheet.cells|
      invariant log.lines == base + NestedLog(v, folders[..i])
    {
      row := CaptureFolderAt(v, rootName, folders, i, base, row, sheet, log);
      i := i + 1;
    }
    assert folders[..i] == folders;
  }

  /** `almacenarIDsDocus`: every spreadsheet file of the folder is one control, named by its file name. */
  method CaptureFlat(v: Version, rootName: string, files: seq<DriveFile>, sheet: Sheet, log: Log)
    modifies sheet, log
    ensures sheet.cells == InventoryGrid(rootName, FileRecords(false, "", files, |files|))
    ensures log.lines == old(log.lines) + FileLog(v, false, "", files, |files|)
  {
    WriteHeader(rootName, sheet);
    assert [] + FileRecords(false, "", files, |files|) == FileRecords(false, "", files, |files|);
    var _ := CaptureFiles(v, false, rootName, "", files, [], 2, sheet, log);
  }

  /** How many of the first n files have MIME type m. */
  function CountMime(files: seq<DriveFile>, n: nat, m: Mime): nat
    requires n <= |files|
  {
    if n == 0 then 0 else CountMime(files, n - 1, m) + (if files[n - 1].mime == m then 1 else 0)
  }

  /**
   * One row per Google Sheets file, one log line per Google Sheets or Excel file, and every row
   * carries the label and a spreadsheet's id and first tab.
   */
  lemma {:induction false} FileCounts(v: Version, nested: bool, folderLabel: string, files: seq<DriveFile>, n: nat)
    requires n <= |files|
    ensures |FileRecords(nested, folderLabel, files, n)| == CountMime(files, n, GoogleSheets)
    ensures |FileLog(v, nested, folderLabel, files, n)| == CountMime(files, n, GoogleSheets) + CountMime(files, n, MicrosoftExcel)
    ensures forall rec :: rec in FileRecords(nested, folderLabel, files, n) ==>
      exists f :: f in files && f.mime == GoogleSheets && rec == Record(f.id, f.firstTab, Label(nested, folderLabel, f))
  {
    if n > 0 {
      FileCounts(v, nested, folderLabel, files, n - 1);
    }
  }

  function NestedCount(folders: seq<Subfolder>, m: Mime): nat
  {
    if folders == [] then 0
    else
      var d := folders[|folders| - 1];
      NestedCount(folders[..|folders| - 1], m) + CountMime(d.files, |d.files|, m)
  }

  /**
   * `almacenarIDs` writes exactly one row per Google Sheets file and one log line per Google Sheets
   * or Excel file; every row's control name is the cleaned name of a subfolder.
   */
  lemma {:induction false} NestedCounts(v: Version, folders: seq<Subfolder>)
    ensures |NestedRecords(folders)| == NestedCount(folders, GoogleSheets)
    ensures |NestedLog(v, folders)| == NestedCount(folders, GoogleSheets) + NestedCount(folders, MicrosoftExcel)
    ensures forall rec :: rec in NestedRecords(folders) ==>
      exists d :: d in folders && rec.control == CleanControlName(d.name)
  {
    if folders != [] {
      var init := folders[..|folders| - 1];
      var d := folders[|folders| - 1];
      NestedCounts(v, init);
      FileCounts(v, true, CleanControlName(d.name), d.files, |d.files|);
      forall rec | rec in NestedRecords(folders)
        ensures exists d' :: d' in folders && rec.control == CleanControlName(d'.name)
      {
        if rec in NestedRecords(init) {
          var d' :| d' in init && rec.control == CleanControlName(d'.name);
          assert d' in folders;
        } else {
          assert rec in FileRecords(true, CleanControlName(d.name), d.files, |d.files|);
          assert d in folders;
        }
      }
    }
  }

  /**
   * The inventory written by a capture reads back, column C from row 2 on, as the header followed
   * by the recorded names: the list `compararSheets` builds its pool from.
   */
  lemma {:induction false} InventoryNameColumn(rootName: string, recs: seq<Record>)
    ensures |InventoryGrid(rootName, recs)| == |recs| + 2
    ensures NameColumn(InventoryGrid(rootName, recs), |recs| + 2)
            == [Headers[2]] + seq(|recs|, k requires 0 <= k < |recs| => recs[k].control)
  {
    var g := InventoryGrid(rootName, recs);
    if recs == [] {
      assert NameColumn(g, 2) == NameColumn(g, 1) + [Get(g, 1, 2)];
    } else {
      var init := recs[..|recs| - 1];
      InventoryNameColumn(rootName, init);
      var g0 := InventoryGrid(rootName, init);
      assert forall r :: 0 <= r < |recs| + 1 ==> g[r] == g0[r];
      NameColumnPrefix(g0, g, |recs| + 1);
      assert Get(g, |recs| + 1, 2) == recs[|recs| - 1].control;
    }
  }

  /** Column C read down to row n depends only on the first n rows. */
  lemma {:induction false} NameColumnPrefix(a: Cells, b: Cells, n: nat)
    requires n <= |a| && n <= |b|
    requires forall r :: 0 <= r < n ==> a[r] == b[r]
    ensures NameColumn(a, n) == NameColumn(b, n)
  {
    if n > 1 {
      NameColumnPrefix(a, b, n - 1);
    }
  }
}
