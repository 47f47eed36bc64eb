/**
 * `verificarCeldas`: after the copy, the destination sheet is checked for ranges that should be
 * empty and ranges that should hold data, and for extra rows below the sample size. The check
 * only reads the sheet; its findings are warning lines for the log.
 */
module Validation {
  import opened Text
  import opened Grid
  import opened Prompts
  import opened Layout

  /** A range to check, with the A1 name the warning quotes. */
  datatype Check = Check(name: string, rg: Range)

  predicate ChecksOk(checks: seq<Check>)
  {
    forall k :: 0 <= k < |checks| ==> checks[k].rg.Valid()
  }

  predicate DistinctNames(checks: seq<Check>)
  {
    forall k, l :: 0 <= k < l < |checks| ==> checks[k].name != checks[l].name
  }

  /** `celdasAComprobar`: the ranges that should be empty, in both versions. */
  const MustBeEmpty: seq<Check> := [
    Check("B13:F13", Range(12, 1, 5)), Check("B9:F9", Range(8, 1, 5)), Check("B7:F7", Range(6, 1, 5)),
    Check("A5", Range(4, 0, 0)), Check("B5", Range(4, 1, 1)), Check("C5", Range(4, 2, 2)),
    Check("D5", Range(4, 3, 3)), Check("E5", Range(4, 4, 4)), Check("F5", Range(4, 5, 5))
  ]

  const Filled: seq<Check> := [Check("B6:F6", Range(5, 1, 5)), Check("B8:F8", Range(7, 1, 5)), Check("B12:F12", Range(11, 1, 5))]
  const Sample: seq<Check> := [Check("E14", Range(13, 4, 4)), Check("F14", Range(13, 5, 5))]

  /** `celdasNoVacias`: the ranges that should hold data; the legacy version leaves out E14 and F14. */
  function MustHaveData(v: Version): seq<Check>
  {
    if v == Current then Filled + Sample else Filled
  }

  lemma MustBeEmptyShape()
    ensures ChecksOk(MustBeEmpty) && DistinctNames(MustBeEmpty) && |MustBeEmpty| == 9
  {
    assert forall k :: 0 <= k < 3 ==> |MustBeEmpty[k].name| > 2;
    assert forall k :: 3 <= k < 9 ==> |MustBeEmpty[k].name| == 2 && MustBeEmpty[k].name[1] == '5';
  }

  lemma MustHaveDataShape(v: Version)
    ensures ChecksOk(MustHaveData(v)) && DistinctNames(MustHaveData(v))
    ensures |MustHaveData(v)| == if v == Current then 5 else 3
  {
    assert forall k :: 0 <= k < 3 ==> |Filled[k].name| > 3;
  }

  lemma ChecksShape(v: Version)
    ensures ChecksOk(MustBeEmpty) && DistinctNames(MustBeEmpty) && |MustBeEmpty| == 9
    ensures ChecksOk(MustHaveData(v)) && DistinctNames(MustHaveData(v))
    ensures |MustHaveData(v)| == if v == Current then 5 else 3
  {
    MustBeEmptyShape();
    MustHaveDataShape(v);
  }

  const SampleSize := "Tama\U{F1}o Muestra."

  const FieldTag := "ADVERTENCIA: El campo \""
  const NotEmptyTail := "\" NO est\U{E1} vac\U{ED}o cuando deber\U{ED}a estarlo."
  const EmptyTail := "\" est\U{E1} vac\U{ED}o, pero deber\U{ED}a tener datos."

  function NotEmptyLine(name: string): string
  {
    FieldTag + name + NotEmptyTail
  }

  function EmptyLine(name: string): string
  {
    FieldTag + name + EmptyTail
  }

  const ExtraTag := "ADVERTENCIA: Existe "
  const CurrentExtraRows := ExtraTag + "una o unas filas adicionales que no deber\U{ED}an de estar presentes."
  const LegacyExtraRow := ExtraTag + "una fila adicional (15) que no deber\U{ED}a estar presente."

  function ExtraRowLine(v: Version): string
  {
    if v == Current then CurrentExtraRows else LegacyExtraRow
  }

  /** The range warnings fire only when A12 is exactly the test label. */
  predicate Sentinel(g: Cells)
  {
    Get(g, 11, 0) == TestLabel
  }

  /** `getMaxRows() > 14` and E14 exactly the sample-size label. */
  predicate ExtraRows(g: Cells)
  {
    |g| > 14 && Get(g, 13, 4) == SampleSize
  }

  /** The warnings for the first n ranges that should be empty. */
  function EmptyWarnings(g: Cells, checks: seq<Check>, n: nat): (ws: seq<string>)
    requires ChecksOk(checks) && n <= |checks|
    ensures |ws| <= n
  {
    if n == 0 then []
    else
      var w := if HasContent(Read(g, checks[n - 1].rg)) && Sentinel(g) then [NotEmptyLine(checks[n - 1].name)] else [];
      EmptyWarnings(g, checks, n - 1) + w
  }

  /** The warnings for the first n ranges that should hold data. */
  function FilledWarnings(g: Cells, checks: seq<Check>, n: nat): (ws: seq<string>)
    requires ChecksOk(checks) && n <= |checks|
    ensures |ws| <= n
  {
    if n == 0 then []
    else
      var w := if !HasContent(Read(g, checks[n - 1].rg)) && Sentinel(g) then [EmptyLine(checks[n - 1].name)] else [];
      FilledWarnings(g, checks, n - 1) + w
  }

  /** Everything `verificarCeldas` logs, in order. */
  function Warnings(v: Version, g: Cells): seq<string>
  {
    ChecksShape(v);
    EmptyWarnings(g, MustBeEmpty, 9) + FilledWarnings(g, MustHaveData(v), |MustHaveData(v)|)
      + (if ExtraRows(g) then [ExtraRowLine(v)] else [])
  }

  /** At most one warning per range plus the extra-row warning: 15 in the current version, 13 in the legacy one. */
  lemma AtMostFifteen(v: Version, g: Cells)
    ensures |Warnings(v, g)| <= if v == Current then 15 else 13
  {
    ChecksShape(v);
  }

  lemma {:induction false} NoSentinelNoEmptyWarnings(g: Cells, checks: seq<Check>, n: nat)
    requires ChecksOk(checks) && n <= |checks| && !Sentinel(g)
    ensures EmptyWarnings(g, checks, n) == [] && FilledWarnings(g, checks, n) == []
  {
    if n > 0 {
      NoSentinelNoEmptyWarnings(g, checks, n - 1);
    }
  }

  /** Without the test label in A12 the only possible warning is the extra-row one. */
  lemma SentinelGuardsRanges(v: Version, g: Cells)
    requires !Sentinel(g)
    ensures Warnings(v, g) == if ExtraRows(g) then [ExtraRowLine(v)] else []
  {
    ChecksShape(v);
    NoSentinelNoEmptyWarnings(g, MustBeEmpty, 9);
    NoSentinelNoEmptyWarnings(g, MustHaveData(v), |MustHaveData(v)|);
  }

  /** p + a + s determines a. */
  lemma Unframe(p: string, a: string, b: string, s: string)
    requires p + a + s == p + b + s
    ensures a == b
  {
    assert |a| == |b|;
    assert a == (p + a + s)[|p|..|p| + |a|];
    assert b == (p + b + s)[|p|..|p| + |b|];
  }

  /** The three kinds of warning never coincide: "El campo" against "Existe", "estarlo." against "datos.". */
  lemma LinesDiffer(v: Version, a: string, b: string)
    ensures NotEmptyLine(a) != EmptyLine(b)
    ensures NotEmptyLine(a) != ExtraRowLine(v) && EmptyLine(b) != ExtraRowLine(v)
  {
    var x, y := NotEmptyLine(a), EmptyLine(b);
    assert x[|x| - 3] == NotEmptyTail[|NotEmptyTail| - 3] == 'l';
    assert y[|y| - 3] == EmptyTail[|EmptyTail| - 3] == 'o';
    assert x[14] == FieldTag[14] == 'l' && y[14] == FieldTag[14];
    assert CurrentExtraRows[14] == ExtraTag[14] == 'x' && LegacyExtraRow[14] == ExtraTag[14];
  }

  /** A must-be-empty warning names check k exactly when that range has content under the sentinel. */
  lemma {:induction false} NotEmptyWarned(g: Cells, checks: seq<Check>, n: nat, k: nat)
    requires ChecksOk(checks) && DistinctNames(checks) && n <= |checks| && k < |checks|
    ensures NotEmptyLine(checks[k].name) in EmptyWarnings(g, checks, n)
      <==> k < n && Sentinel(g) && HasContent(Read(g, checks[k].rg))
  {
    if n > 0 {
      NotEmptyWarned(g, checks, n - 1, k);
      if k != n - 1 && NotEmptyLine(checks[k].name) == NotEmptyLine(checks[n - 1].name) {
        Unframe(FieldTag, checks[k].name, checks[n - 1].name, NotEmptyTail);
      }
    }
  }

  /** A must-have-data warning names check k exactly when that range is blank under the sentinel. */
  lemma {:induction false} EmptyWarned(g: Cells, checks: seq<Check>, n: nat, k: nat)
    requires ChecksOk(checks) && DistinctNames(checks) && n <= |checks| && k < |checks|
    ensures EmptyLine(checks[k].name) in FilledWarnings(g, checks, n)
      <==> k < n && Sentinel(g) && !HasContent(Read(g, checks[k].rg))
  {
    if n > 0 {
      EmptyWarned(g, checks, n - 1, k);
      if k != n - 1 && EmptyLine(checks[k].name) == EmptyLine(checks[n - 1].name) {
        Unframe(FieldTag, checks[k].name, checks[n - 1].name, EmptyTail);
      }
    }
  }

  lemma {:induction false} OnlyNotEmptyLines(v: Version, g: Cells, checks: seq<Check>, n: nat, b: string)
    requires ChecksOk(checks) && n <= |checks|
    ensures EmptyLine(b) !in EmptyWarnings(g, checks, n) && ExtraRowLine(v) !in EmptyWarnings(g, checks, n)
  {
    if n > 0 {
      OnlyNotEmptyLines(v, g, checks, n - 1, b);
      LinesDiffer(v, checks[n - 1].name, b);
    }
  }

  lemma {:induction false} OnlyEmptyLines(v: Version, g: Cells, checks: seq<Check>, n: nat, a: string)
    requires ChecksOk(checks) && n <= |checks|
    ensures NotEmptyLine(a) !in FilledWarnings(g, checks, n) && ExtraRowLine(v) !in FilledWarnings(g, checks, n)
  {
    if n > 0 {
      OnlyEmptyLines(v, g, checks, n - 1, a);
      LinesDiffer(v, a, checks[n - 1].name);
    }
  }

  /** Range k that should be empty is reported exactly when it has content and A12 is the test label. */
  lemma WarnsNotEmpty(v: Version, g: Cells, k: nat)
    requires k < |MustBeEmpty|
    ensures NotEmptyLine(MustBeEmpty[k].name) in Warnings(v, g) <==> Sentinel(g) && HasContent(Read(g, MustBeEmpty[k].rg))
  {
    ChecksShape(v);
    NotEmptyWarned(g, MustBeEmpty, 9, k);
    OnlyEmptyLines(v, g, MustHaveData(v), |MustHaveData(v)|, MustBeEmpty[k].name);
    LinesDiffer(v, MustBeEmpty[k].name, "");
  }

  /** Range k that should hold data is reported exactly when it is all blank and A12 is the test label. */
  lemma WarnsEmpty(v: Version, g: Cells, k: nat)
    requires k < |MustHaveData(v)|
    ensures EmptyLine(MustHaveData(v)[k].name) in Warnings(v, g) <==> Sentinel(g) && !HasContent(Read(g, MustHaveData(v)[k].rg))
  {
    ChecksShape(v);
    EmptyWarned(g, MustHaveData(v), |MustHaveData(v)|, k);
    OnlyNotEmptyLines(v, g, MustBeEmpty, 9, MustHaveData(v)[k].name);
    LinesDiffer(v, "", MustHaveData(v)[k].name);
  }

  /** The extra-row warning is logged exactly when the sheet has more than 14 rows and E14 is the sample-size label. */
  lemma WarnsExtraRows(v: Version, g: Cells)
    ensures ExtraRowLine(v) in Warnings(v, g) <==> ExtraRows(g)
  {
    ChecksShape(v);
    OnlyNotEmptyLines(v, g, MustBeEmpty, 9, "");
    OnlyEmptyLines(v, g, MustHaveData(v), |MustHaveData(v)|, "");
  }

  /** The inner loops over one range's values: stop at the first cell that is not blank. */
  method ContentIn(sheet: Sheet, rg: Range) returns (found: bool)
    requires rg.Valid()
    ensures found == HasContent(Read(sheet.cells, rg))
  {
    var vs := Read(sheet.cells, rg);
    found := false;
    var l := 0;
    while l < |vs|
      invariant l <= |vs|
      invariant forall i :: 0 <= i < l ==> IsBlank(vs[i])
    {
      if !IsBlank(vs[l]) {
        found := true;
        return;
      }
      l := l + 1;
    }
  }

  /** The first loop of `verificarCeldas`: the ranges that should be empty. */
  method CheckEmpty(sheet: Sheet) returns (lines: seq<string>)
    ensures lines == EmptyWarnings(sheet.cells, MustBeEmpty, |MustBeEmpty|)
  {
    MustBeEmptyShape();
    lines := [];
    var i := 0;
    while i < |MustBeEmpty|
      invariant i <= |MustBeEmpty|
      invariant lines == EmptyWarnings(sheet.cells, MustBeEmpty, i)
    {
      var c := MustBeEmpty[i];
      var found := ContentIn(sheet, c.rg);
      if found && sheet.Value(11, 0) == TestLabel {
        lines := lines + [NotEmptyLine(c.name)];
      }
      i := i + 1;
    }
  }

  /** The second loop: the ranges that should hold data. */
  method CheckFilled(v: Version, sheet: Sheet) returns (lines: seq<string>)
    ensures lines == FilledWarnings(sheet.cells, MustHaveData(v), |MustHaveData(v)|)
  {
    MustHaveDataShape(v);
    var filled := MustHaveData(v);
    lines := [];
    var j := 0;
    while j < |filled|
      invariant j <= |filled|
      invariant lines == FilledWarnings(sheet.cells, filled, j)
    {
      var c := filled[j];
      var found := ContentIn(sheet, c.rg);
      if !found && sheet.Value(11, 0) == TestLabel {
        lines := lines + [EmptyLine(c.name)];
      }
      j := j + 1;
    }
  }

  /**
   * `verificarCeldas` on the destination sheet: the lines it logs. The sheet is only read (the
   * method modifies nothing).
   */
  method VerifyCells(v: Version, sheet: Sheet) returns (lines: seq<string>)
    ensures lines == Warnings(v, sheet.cells)
  {
    var empty := CheckEmpty(sheet);
    var filled := CheckFilled(v, sheet);
    lines := empty + filled;
    if sheet.MaxRows() > 14 && sheet.Value(13, 4) == SampleSize {
      lines := lines + [ExtraRowLine(v)];
    }
  }
}
