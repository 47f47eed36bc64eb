/**
 * The conservative field copy of `copiarCeldasDesdeControl`: a fixed table of (source range,
 * destination range) pairs, each copied only when its source holds something. Both versions
 * share it; the legacy table depends on the row offset `numRango` read from the source sheet.
 */
module FieldCopy {
  import opened Wrappers
  import opened Text
  import opened Grid
  import opened Layout

  /**
   * One row of a copy table: the source range `from` goes to the destination range `to`; the
   * label cells name the field in the log (`nombreOrigen`, `nombreDestino`).
   */
  datatype Field = Field(srcLabel: Range, from: Range, dstLabel: Range, to: Range)

  predicate FieldOk(f: Field)
  {
    f.from.Valid() && f.to.Valid() && f.from.Width() == f.to.Width()
  }

  predicate TableOk(t: seq<Field>)
  {
    forall j :: 0 <= j < |t| ==> FieldOk(t[j])
  }

  /** No two destinations overlap, and no destination covers a destination label. */
  predicate TableApart(t: seq<Field>)
  {
    && (forall j, k {:trigger Disjoint(t[j].to, t[k].to)} :: 0 <= j < |t| && 0 <= k < |t| && j != k ==>
         Disjoint(t[j].to, t[k].to))
    && (forall j, k {:trigger t[j].to.Holds(t[k].dstLabel.row, t[k].dstLabel.first)} :: 0 <= j < |t| && 0 <= k < |t| ==>
         !t[j].to.Holds(t[k].dstLabel.row, t[k].dstLabel.first))
  }

  /** `getRange(label).getValue().toString()` on a label cell. */
  function Label(g: Cells, rg: Range): string
  {
    Get(g, rg.row, rg.first)
  }

  /**
   * The classification block of a table: for each column c < w, the label in row `srcLabelRow`
   * over the source cell in row `fromRow`, copied to row `toRow` under the label in `dstLabelRow`.
   */
  function Classification(srcLabelRow: nat, fromRow: nat, dstLabelRow: nat, toRow: nat, w: nat): (t: seq<Field>)
    ensures |t| == w
    ensures forall c :: 0 <= c < w ==>
      t[c] == Field(Range(srcLabelRow, c, c), Range(fromRow, c, c), Range(dstLabelRow, c, c), Range(toRow, c, c))
  {
    seq(w, c requires 0 <= c < w =>
      Field(Range(srcLabelRow, c, c), Range(fromRow, c, c), Range(dstLabelRow, c, c), Range(toRow, c, c)))
  }

  /** A whole-row field: B:F of row `fromRow` to B:F of row `toRow`, each labelled in its column A. */
  function RowField(fromRow: nat, toRow: nat): Field
  {
    Field(Range(fromRow, 0, 0), Range(fromRow, 1, 5), Range(toRow, 0, 0), Range(toRow, 1, 5))
  }

  /**
   * The table of the current version: A5..F5 to A3..F3 (labels A4..F4 and A2..F2), then B7:F7 to
   * B6:F6, B9:F9 to B8:F8 and B13:F13 to B12:F12. Row r of A1 notation is index r-1 here.
   */
  function CurrentTable(): (t: seq<Field>)
    ensures TableOk(t) && TableApart(t) && |t| == 9
  {
    var rows := [RowField(6, 5), RowField(8, 7), RowField(12, 11)];
    assert rows[0] == RowField(6, 5) && rows[1] == RowField(8, 7) && rows[2] == RowField(12, 11);
    ShapeApart(3, 4, 1, 2, 6, rows);
    Classification(3, 4, 1, 2, 6) + rows
  }

  /**
   * The legacy table for offset n (`numRango`, an A1 row number): columns A..E of row n to row
   * n-2 (labels in the rows above), then B(n+2):F(n+2) to B(n+1):F(n+1) and B(n+4):F(n+4) to
   * B(n+3):F(n+3).
   */
  function LegacyTable(n: nat): (t: seq<Field>)
    requires 4 <= n
    ensures TableOk(t) && TableApart(t) && |t| == 7
  {
    var rows := [RowField(n + 1, n), RowField(n + 3, n + 2)];
    assert rows[0] == RowField(n + 1, n) && rows[1] == RowField(n + 3, n + 2);
    ShapeApart(n - 2, n - 1, n - 4, n - 3, 5, rows);
    Classification(n - 2, n - 1, n - 4, n - 3, 5) + rows
  }

  /**
   * A classification block followed by whole-row fields is apart when the block's destination
   * row differs from every whole-row destination and no destination row holds the block's labels.
   */
  lemma ShapeApart(srcLabelRow: nat, fromRow: nat, dstLabelRow: nat, toRow: nat, w: nat, rows: seq<Field>)
    requires w <= 6 && toRow != dstLabelRow
    requires forall k :: 0 <= k < |rows| ==> exists a, b :: rows[k] == RowField(a, b)
    requires forall k :: 0 <= k < |rows| ==> rows[k].to.row != toRow && rows[k].to.row != dstLabelRow
    requires forall k, l :: 0 <= k < l < |rows| ==> rows[k].to.row != rows[l].to.row
    ensures var t := Classification(srcLabelRow, fromRow, dstLabelRow, toRow, w) + rows;
      TableOk(t) && TableApart(t)
  {
  }

  /**
   * In A1 rows: the classification cells go two rows up (row n to row n-2) with their labels one
   * row above them; the description and evidence ranges go one row up, labelled in column A of
   * their own row; every field keeps its columns.
   */
  lemma LegacyCoordinates(n: nat, j: nat)
    requires 4 <= n && j < 7
    ensures var f := LegacyTable(n)[j];
      && f.from.row == (if j < 5 then n - 1 else if j == 5 then n + 1 else n + 3)
      && f.to.row == (if j < 5 then f.from.row - 2 else f.from.row - 1)
      && f.to.first == f.from.first && f.to.last == f.from.last
      && (if j < 5 then f.srcLabel.row + 1 == f.from.row && f.dstLabel.row + 1 == f.to.row
          else f.srcLabel == Range(f.from.row, 0, 0) && f.dstLabel == Range(f.to.row, 0, 0))
  {
  }

  /** With offset 5 the legacy table is the current one without column F of the classification. */
  lemma LegacyFiveIsCurrent()
    ensures LegacyTable(5) == CurrentTable()[..5] + CurrentTable()[6..8]
  {
  }

  /** Going from offset 5 to offset 6 moves every source range and label one row down. */
  lemma LegacySixIsFiveBelow(j: nat)
    requires j < 7
    ensures LegacyTable(6)[j].from == Below(LegacyTable(5)[j].from)
    ensures LegacyTable(6)[j].srcLabel == Below(LegacyTable(5)[j].srcLabel)
  {
  }

  /** `numRango`: 5 when A2 is the type (or class) label, 6 when only A3 is; otherwise none. */
  function Offset(g: Cells): Option<nat>
  {
    if Get(g, 1, 0) == TypeLabel || Get(g, 1, 0) == ClassLabel then Some(5)
    else if Get(g, 2, 0) == TypeLabel || Get(g, 2, 0) == ClassLabel then Some(6)
    else None
  }

  lemma OffsetValues(g: Cells)
    ensures Offset(g).Some? <==>
      Get(g, 1, 0) in {TypeLabel, ClassLabel} || Get(g, 2, 0) in {TypeLabel, ClassLabel}
    ensures Offset(g) == Some(5) || Offset(g) == Some(6) || Offset(g) == None
  {
  }

  /**
   * Offset 6 is the layout the current version repairs by deleting row 1: the legacy version reads
   * such a sheet with offset 6, and the repaired sheet with offset 5.
   */
  lemma OffsetOfExtraTopRow(g: Cells)
    requires ExtraTopRow(g)
    ensures Offset(g) == Some(6) && Offset(DropExtraTopRow(g)) == Some(5)
  {
    assert !Contains(TypeLabel, DocTitle) && !Contains(ClassLabel, DocTitle);
  }

  /** So the offset-6 table reads, on such a sheet, what the offset-5 table reads on the repaired one. */
  lemma OffsetsReadAlike(g: Cells, j: nat)
    requires ExtraTopRow(g) && j < 7
    ensures Read(g, LegacyTable(6)[j].from) == Read(DropExtraTopRow(g), LegacyTable(5)[j].from)
    ensures Label(g, LegacyTable(6)[j].srcLabel) == Label(DropExtraTopRow(g), LegacyTable(5)[j].srcLabel)
  {
    LegacySixIsFiveBelow(j);
    ReadWithoutFirstRow(g, LegacyTable(5)[j].from);
  }

  const CopiedTag := "Se ha copiado el campo: \""
  const CopiedMiddle := "\" de la hoja origen al campo: \""
  const CopiedTail := "\" de la hoja destino"

  function CopiedLine(srcLabel: string, dstLabel: string): string
  {
    CopiedTag + srcLabel + CopiedMiddle + dstLabel + CopiedTail
  }

  /** The destination after copying the first n fields of table t from src, in table order. */
  function Copied(src: Cells, dst: Cells, t: seq<Field>, n: nat): Cells
    requires TableOk(t) && n <= |t|
  {
    if n == 0 then dst
    else
      var vs := Read(src, t[n - 1].from);
      if HasContent(vs) then Write(Copied(src, dst, t, n - 1), t[n - 1].to, vs) else Copied(src, dst, t, n - 1)
  }

  /** The labels pushed to `textoCopiado` by the first n fields. */
  function Labels(src: Cells, t: seq<Field>, n: nat): (ls: seq<string>)
    requires TableOk(t) && n <= |t|
    ensures |ls| <= n
  {
    if n == 0 then []
    else if HasContent(Read(src, t[n - 1].from)) then Labels(src, t, n - 1) + [Label(src, t[n - 1].srcLabel)]
    else Labels(src, t, n - 1)
  }

  /** The log lines of the first n fields; each names its destination label as read after the write. */
  function Lines(src: Cells, dst: Cells, t: seq<Field>, n: nat): (ls: seq<string>)
    requires TableOk(t) && n <= |t|
    ensures |ls| == |Labels(src, t, n)|
  {
    if n == 0 then []
    else if HasContent(Read(src, t[n - 1].from)) then
      Lines(src, dst, t, n - 1) + [CopiedLine(Label(src, t[n - 1].srcLabel), Label(Copied(src, dst, t, n), t[n - 1].dstLabel))]
    else Lines(src, dst, t, n - 1)
  }

  /** A field the copy has not reached yet still reads as before. */
  lemma {:induction false} NotYetWritten(src: Cells, dst: Cells, t: seq<Field>, n: nat, j: nat)
    requires TableOk(t) && TableApart(t) && n <= j < |t|
    ensures Read(Copied(src, dst, t, n), t[j].to) == Read(dst, t[j].to)
  {
    if n > 0 {
      NotYetWritten(src, dst, t, n - 1, j);
      var vs := Read(src, t[n - 1].from);
      if HasContent(vs) {
        ReadApart(Copied(src, dst, t, n - 1), t[n - 1].to, vs, t[j].to);
      }
    }
  }

  /** Field j ends up with its source's values when the source has content, and keeps its own otherwise. */
  lemma {:induction false} FieldOutcome(src: Cells, dst: Cells, t: seq<Field>, n: nat, j: nat)
    requires TableOk(t) && TableApart(t) && j < n <= |t|
    ensures Read(Copied(src, dst, t, n), t[j].to)
      == if HasContent(Read(src, t[j].from)) then Read(src, t[j].from) else Read(dst, t[j].to)
  {
    if j == n - 1 {
      LastFieldOutcome(src, dst, t, n);
    } else {
      FieldOutcome(src, dst, t, n - 1, j);
      LaterFieldKeeps(src, dst, t, n, j);
    }
  }

  /** The field copied last ends up with its source's values when they have content. */
  lemma LastFieldOutcome(src: Cells, dst: Cells, t: seq<Field>, n: nat)
    requires TableOk(t) && TableApart(t) && 1 <= n <= |t|
    ensures Read(Copied(src, dst, t, n), t[n - 1].to)
      == if HasContent(Read(src, t[n - 1].from)) then Read(src, t[n - 1].from) else Read(dst, t[n - 1].to)
  {
    if HasContent(Read(src, t[n - 1].from)) {
      LastFieldWritten(src, dst, t, n);
    } else {
      NotYetWritten(src, dst, t, n - 1, n - 1);
      SkippedBy(src, dst, t, n);
    }
  }

  lemma LastFieldWritten(src: Cells, dst: Cells, t: seq<Field>, n: nat)
    requires TableOk(t) && 1 <= n <= |t| && HasContent(Read(src, t[n - 1].from))
    ensures Read(Copied(src, dst, t, n), t[n - 1].to) == Read(src, t[n - 1].from)
  {
    ReadWritten(Copied(src, dst, t, n - 1), t[n - 1].to, Read(src, t[n - 1].from));
  }

  /** Copying field n-1 leaves an earlier field's destination as it was. */
  lemma LaterFieldKeeps(src: Cells, dst: Cells, t: seq<Field>, n: nat, j: nat)
    requires TableOk(t) && TableApart(t) && j + 1 < n <= |t|
    ensures Read(Copied(src, dst, t, n), t[j].to) == Read(Copied(src, dst, t, n - 1), t[j].to)
  {
    var vs := Read(src, t[n - 1].from);
    if HasContent(vs) {
      ReadApart(Copied(src, dst, t, n - 1), t[n - 1].to, vs, t[j].to);
    }
  }

  /** A cell outside the first n destination ranges keeps its value. */
  lemma {:induction false} CellOutside(src: Cells, dst: Cells, t: seq<Field>, n: nat, r: nat, col: nat)
    requires TableOk(t) && n <= |t|
    requires forall j :: 0 <= j < n ==> !t[j].to.Holds(r, col)
    ensures Get(Copied(src, dst, t, n), r, col) == Get(dst, r, col)
  {
    if n > 0 {
      CellOutside(src, dst, t, n - 1, r, col);
    }
  }

  /**
   * The copy is conservative: each destination range ends up holding its source's values when the
   * source has content and keeps its own values otherwise; every cell outside the destination
   * ranges keeps its value.
   */
  lemma CopyIsConservative(src: Cells, dst: Cells, t: seq<Field>)
    requires TableOk(t) && TableApart(t)
    ensures forall j :: 0 <= j < |t| ==>
      Read(Copied(src, dst, t, |t|), t[j].to)
        == if HasContent(Read(src, t[j].from)) then Read(src, t[j].from) else Read(dst, t[j].to)
    ensures forall r: nat, col: nat :: (forall j :: 0 <= j < |t| ==> !t[j].to.Holds(r, col)) ==>
      Get(Copied(src, dst, t, |t|), r, col) == Get(dst, r, col)
  {
    forall j | 0 <= j < |t|
      ensures Read(Copied(src, dst, t, |t|), t[j].to)
        == if HasContent(Read(src, t[j].from)) then Read(src, t[j].from) else Read(dst, t[j].to)
    {
      FieldOutcome(src, dst, t, |t|, j);
    }
    forall r: nat, col: nat | forall j :: 0 <= j < |t| ==> !t[j].to.Holds(r, col)
      ensures Get(Copied(src, dst, t, |t|), r, col) == Get(dst, r, col)
    {
      CellOutside(src, dst, t, |t|, r, col);
    }
  }

  /** The destination labels are read after the writes, but no destination covers them. */
  lemma {:induction false} LabelsKept(src: Cells, dst: Cells, t: seq<Field>, n: nat, k: nat)
    requires TableOk(t) && TableApart(t) && n <= |t| && k < |t|
    ensures Label(Copied(src, dst, t, n), t[k].dstLabel) == Label(dst, t[k].dstLabel)
  {
    var lab := t[k].dstLabel;
    CellOutside(src, dst, t, n, lab.row, lab.first);
  }

  /** The indices of the first n fields whose source has content, in table order. */
  function Selected(src: Cells, t: seq<Field>, n: nat): (s: seq<nat>)
    requires TableOk(t) && n <= |t|
    ensures forall k :: 0 <= k < |s| ==> s[k] < n
  {
    if n == 0 then []
    else if HasContent(Read(src, t[n - 1].from)) then Selected(src, t, n - 1) + [n - 1]
    else Selected(src, t, n - 1)
  }

  /** The fields copied are exactly those whose source has content, each once, in increasing order. */
  lemma {:induction false} SelectedExactly(src: Cells, t: seq<Field>, n: nat)
    requires TableOk(t) && n <= |t|
    ensures var s := Selected(src, t, n);
      && (forall j :: 0 <= j < n ==> (j in s <==> HasContent(Read(src, t[j].from))))
      && (forall k, l :: 0 <= k < l < |s| ==> s[k] < s[l])
  {
    if n > 0 {
      SelectedExactly(src, t, n - 1);
    }
  }

  /** One label per selected field, in table order: the source label of that field. */
  lemma {:induction false} LabelsAreSelected(src: Cells, t: seq<Field>, n: nat)
    requires TableOk(t) && n <= |t|
    ensures var s := Selected(src, t, n);
      |Labels(src, t, n)| == |s| && forall k :: 0 <= k < |s| ==> Labels(src, t, n)[k] == Label(src, t[s[k]].srcLabel)
  {
    if n > 0 {
      LabelsAreSelected(src, t, n - 1);
    }
  }

  /** The k-th log line names the k-th label and the destination label of the same field, as it was before the copy. */
  lemma {:induction false} LinesNameLabels(src: Cells, dst: Cells, t: seq<Field>, n: nat)
    requires TableOk(t) && TableApart(t) && n <= |t|
    ensures NamesLines(Lines(src, dst, t, n), Labels(src, t, n), Selected(src, t, n), dst, t)
  {
    LinesReadDst(src, dst, t, n);
    LinesBeforeNamed(src, dst, t, n);
  }

  /** The log lines with each destination label read from the destination as it was before the copy. */
  function LinesBefore(src: Cells, dst: Cells, t: seq<Field>, n: nat): seq<string>
    requires TableOk(t) && n <= |t|
  {
    if n == 0 then []
    else if HasContent(Read(src, t[n - 1].from)) then
      LinesBefore(src, dst, t, n - 1) + [CopiedLine(Label(src, t[n - 1].srcLabel), Label(dst, t[n - 1].dstLabel))]
    else LinesBefore(src, dst, t, n - 1)
  }

  /** Reading a destination label after the writes gives what it held before them. */
  lemma {:induction false} LinesReadDst(src: Cells, dst: Cells, t: seq<Field>, n: nat)
    requires TableOk(t) && TableApart(t) && n <= |t|
    ensures Lines(src, dst, t, n) == LinesBefore(src, dst, t, n)
  {
    if n > 0 {
      LinesReadDst(src, dst, t, n - 1);
      if HasContent(Read(src, t[n - 1].from)) {
        LabelsKept(src, dst, t, n, n - 1);
      }
    }
  }

  lemma {:induction false} LinesBeforeNamed(src: Cells, dst: Cells, t: seq<Field>, n: nat)
    requires TableOk(t) && n <= |t|
    ensures NamesLines(LinesBefore(src, dst, t, n), Labels(src, t, n), Selected(src, t, n), dst, t)
  {
    if n > 0 {
      LinesBeforeNamed(src, dst, t, n - 1);
      if HasContent(Read(src, t[n - 1].from)) {
        NamesGrow(LinesBefore(src, dst, t, n - 1), Labels(src, t, n - 1), Selected(src, t, n - 1), dst, t,
                  Label(src, t[n - 1].srcLabel), n - 1);
      }
    }
  }

  /** A field whose source is empty adds no line, no label and no selected index. */
  lemma SkippedBy(src: Cells, dst: Cells, t: seq<Field>, n: nat)
    requires TableOk(t) && 1 <= n <= |t| && !HasContent(Read(src, t[n - 1].from))
    ensures Lines(src, dst, t, n) == Lines(src, dst, t, n - 1)
    ensures Labels(src, t, n) == Labels(src, t, n - 1)
    ensures Selected(src, t, n) == Selected(src, t, n - 1)
    ensures Copied(src, dst, t, n) == Copied(src, dst, t, n - 1)
  {
  }

  /**
   * Log lines, labels and selected fields go together: the k-th line names the k-th label and
   * the destination label, in `dst`, of the k-th selected field.
   */
  predicate NamesLines(lines: seq<string>, labels: seq<string>, s: seq<nat>, dst: Cells, t: seq<Field>)
  {
    && |lines| == |labels| == |s|
    && forall k :: 0 <= k < |s| ==>
      s[k] < |t| && lines[k] == CopiedLine(labels[k], Label(dst, t[s[k]].dstLabel))
  }

  /** Appending a field's line, label and index keeps them together. */
  lemma NamesGrow(lines: seq<string>, labels: seq<string>, s: seq<nat>, dst: Cells, t: seq<Field>, name: string, m: nat)
    requires NamesLines(lines, labels, s, dst, t) && m < |t|
    ensures NamesLines(lines + [CopiedLine(name, Label(dst, t[m].dstLabel))], labels + [name], s + [m], dst, t)
  {
    var line := CopiedLine(name, Label(dst, t[m].dstLabel));
    forall k | 0 <= k < |s| + 1
      ensures (s + [m])[k] < |t|
      ensures (lines + [line])[k] == CopiedLine((labels + [name])[k], Label(dst, t[(s + [m])[k]].dstLabel))
    {
      if k < |s| {
        assert (lines + [line])[k] == lines[k] && (labels + [name])[k] == labels[k] && (s + [m])[k] == s[k];
      }
    }
  }

  /** One turn of the copy loop: field j of the table. */
  method CopyField(t: seq<Field>, j: nat, src: Sheet, dst: Sheet, log: Log, ghost d0: Cells, labels: seq<string>, ghost lines0: seq<string>)
    returns (labels': seq<string>)
    requires TableOk(t) && j < |t| && src != dst
    requires dst.cells == Copied(src.cells, d0, t, j) && labels == Labels(src.cells, t, j)
    requires log.lines == lines0 + Lines(src.cells, d0, t, j)
    modifies dst, log
    ensures dst.cells == Copied(src.cells, d0, t, j + 1) && labels' == Labels(src.cells, t, j + 1)
    ensures log.lines == lines0 + Lines(src.cells, d0, t, j + 1)
  {
    var f := t[j];
    var vs := Read(src.cells, f.from);
    labels' := labels;
    if HasContent(vs) {
      dst.SetValues(f.to, vs);
      var name := src.Value(f.srcLabel.row, f.srcLabel.first);
      labels' := labels + [name];
      log.Append(CopiedLine(name, dst.Value(f.dstLabel.row, f.dstLabel.first)));
    }
  }

  /**
   * The copy loop over table t: `setValues` on the destination for each field whose source has
   * content, pushing the field's label and logging it.
   */
  method CopyTable(t: seq<Field>, src: Sheet, dst: Sheet, log: Log) returns (labels: seq<string>)
    requires TableOk(t) && src != dst
    modifies dst, log
    ensures dst.cells == Copied(src.cells, old(dst.cells), t, |t|) && labels == Labels(src.cells, t, |t|)
    ensures log.lines == old(log.lines) + Lines(src.cells, old(dst.cells), t, |t|)
  {
    ghost var d0 := dst.cells;
    ghost var lines0 := log.lines;
    labels := [];
    var j := 0;
    while j < |t|
      invariant j <= |t|
      invariant dst.cells == Copied(src.cells, d0, t, j) && labels == Labels(src.cells, t, j)
      invariant log.lines == lines0 + Lines(src.cells, d0, t, j)
    {
      labels := CopyField(t, j, src, dst, log, d0, labels, lines0);
      j := j + 1;
    }
  }
}
