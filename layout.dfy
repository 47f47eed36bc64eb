/**
 * The standard layout of a control sheet and the repair the current version applies to a sheet
 * that does not follow it (`checkFormat` and `updateFormat`). A merged range such as A1:F1
 * reads as its top-left cell.
 */
module Layout {
  import opened Text
  import opened Grid

  const DocTitle := "DOCUMENTACI\U{D3}N DEL CONTROL"
  const TypeLabel := "Tipo de Control"
  const ClassLabel := "Clase"
  const DescriptionLabel := "Descripci\U{F3}n"
  const EvidenceLabel := "Evidencia"
  const EvidenceUpdates := "Evidencia. Actualizaciones"
  const TestTitle := "DESCRIPCI\U{D3}N DE LA PRUEBA A EJECUTAR"
  const TestLabel := "Prueba a realizar"
  const SampleLabel := "Tama\U{F1}o Muestra"

  /** The seven anchors: A1, A2, A6, A8, A11, A12 and E14 contain their labels. */
  predicate FollowsFormat(g: Cells)
  {
    && Contains(Get(g, 0, 0), DocTitle)
    && Contains(Get(g, 1, 0), TypeLabel)
    && Contains(Get(g, 5, 0), DescriptionLabel)
    && Contains(Get(g, 7, 0), EvidenceLabel)
    && Contains(Get(g, 10, 0), TestTitle)
    && Contains(Get(g, 11, 0), TestLabel)
    && Contains(Get(g, 13, 4), SampleLabel)
  }

  /** A3 is exactly the type (or class) label and A2 holds the title: one row too many above the title. */
  predicate ExtraTopRow(g: Cells)
  {
    (Get(g, 2, 0) == TypeLabel || Get(g, 2, 0) == ClassLabel) && Contains(Get(g, 1, 0), DocTitle)
  }

  /** A10 holds the test title and A9 the evidence-updates label: the blank row before the title is missing. */
  predicate MissingRowTen(g: Cells)
  {
    Contains(Get(g, 9, 0), TestTitle) && Contains(Get(g, 8, 0), EvidenceUpdates)
  }

  /** The first rule of `updateFormat`: `deleteRow(1)` on a sheet with an extra top row. */
  function DropExtraTopRow(g: Cells): Cells
  {
    if ExtraTopRow(g) then WithoutRow(g, 0) else g
  }

  /** The second rule: `insertRowBefore(10)` when row 10 is missing. */
  function InsertRowTen(g: Cells): Cells
  {
    if MissingRowTen(g) then WithRowInserted(g, 9) else g
  }

  /** `updateFormat`: the second rule looks at the sheet the first one left. */
  function Normalised(g: Cells): Cells
  {
    InsertRowTen(DropExtraTopRow(g))
  }

  /** Each rule moves the row count by one at most, and only when it applies. */
  lemma NormalisedRowCount(g: Cells)
    ensures var h := DropExtraTopRow(g);
      && |h| == (if ExtraTopRow(g) then |g| - 1 else |g|)
      && |Normalised(g)| == (if MissingRowTen(h) then |h| + 1 else |h|)
      && |g| - 1 <= |Normalised(g)| <= |g| + 1
  {
  }

  /** `updateFormat` leaves the sheet as it was exactly when neither rule applies. */
  lemma NormalisedUnchangedIff(g: Cells)
    ensures Normalised(g) == g <==> !ExtraTopRow(g) && !MissingRowTen(g)
  {
    var h := DropExtraTopRow(g);
    if ExtraTopRow(g) {
      if MissingRowTen(h) {
        assert Get(Normalised(g), 1, 0) == Get(g, 2, 0);
        assert !Contains(Get(g, 2, 0), DocTitle);
      }
    } else if MissingRowTen(g) {
      assert Get(Normalised(g), 9, 0) == "";
      assert Get(g, 9, 0) != "";
    }
  }

  /** Deleting the extra row brings the title to A1 and the type label to A2, where the format wants them. */
  lemma ExtraRowRemoved(g: Cells)
    requires ExtraTopRow(g)
    ensures var h := DropExtraTopRow(g);
      Contains(Get(h, 0, 0), DocTitle) && Contains(Get(h, 1, 0), Get(g, 2, 0)) && |h| == |g| - 1
  {
    ContainsSelf(Get(g, 2, 0));
  }

  /** Inserting row 10 leaves A9 in place, a blank row 10 and the test title in A11. */
  lemma RowTenInserted(h: Cells)
    requires MissingRowTen(h)
    ensures var n := InsertRowTen(h);
      && Contains(Get(n, 8, 0), EvidenceUpdates)
      && (forall c: nat :: Get(n, 9, c) == "")
      && Contains(Get(n, 10, 0), TestTitle)
      && |n| == |h| + 1
  {
  }

  const FormatTag := "ADVERTENCIA: Se ha actualizado el formato de la "
  const FormatTail := "\" ya que no segu\U{ED}a el formato est\U{E1}ndar."

  function FormatWarning(message: string, sheetName: string): string
  {
    FormatTag + message + ": \"" + sheetName + FormatTail
  }

  /** The sheet `checkFormat` leaves. */
  function Checked(g: Cells): Cells
  {
    if FollowsFormat(g) then g else Normalised(g)
  }

  /** The lines `checkFormat` logs. */
  function FormatLog(g: Cells, message: string, sheetName: string): seq<string>
  {
    if FollowsFormat(g) then [] else [FormatWarning(message, sheetName)]
  }

  /** `updateFormat` on the sheet in place. */
  method UpdateFormat(sheet: Sheet)
    modifies sheet
    ensures sheet.cells == Normalised(old(sheet.cells))
  {
    if sheet.Value(2, 0) == TypeLabel || sheet.Value(2, 0) == ClassLabel {
      if Contains(sheet.Value(1, 0), DocTitle) {
        sheet.DeleteRow(0);
      }
    }
    if Contains(sheet.Value(9, 0), TestTitle) && Contains(sheet.Value(8, 0), EvidenceUpdates) {
      sheet.InsertRowBefore(9);
    }
  }

  /**
   * `checkFormat`: a sheet that misses any anchor is repaired by `updateFormat` and one warning
   * naming it is logged; a sheet that has them all is left alone.
   */
  method CheckFormat(sheet: Sheet, log: Log, message: string)
    modifies sheet, log
    ensures sheet.cells == Checked(old(sheet.cells))
    ensures log.lines == old(log.lines) + FormatLog(old(sheet.cells), message, sheet.name)
  {
    if !FollowsFormat(sheet.cells) {
      UpdateFormat(sheet);
      log.Append(FormatWarning(message, sheet.name));
    }
  }
}
