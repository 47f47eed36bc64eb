/**
 * The legacy version's handling of the test-description field ("Prueba a realizar") after the
 * copy loop, and its reading of the frequency and sample-size cells.
 *
 * The source sheet's A12 decides which row holds the update: "Prueba a realizar" means the
 * update is in B13:F13, "Prueba. Actualizaciones" means it is in B12:F12. The update is written to
 * the destination's B12:F12 when the destination's A12 is "Prueba a realizar"; when that label is
 * one row higher (A11), a blank row 10 is inserted first. The values the inserted-row branch
 * writes are those of the variable `valoresB12F12`, which only the "Prueba. Actualizaciones"
 * branch assigns and which keeps its value from one mapping row to the next: in the
 * "Prueba a realizar" branch it holds the B12:F12 values of an earlier mapping row, or nothing
 * at all, in which case `setValues` throws and the whole batch stops.
 */
module TestField {
  import opened Wrappers
  import opened Grid
  import opened Layout
  import opened FieldCopy

  const UpdatesLabel := "Prueba. Actualizaciones"

  /** B12:F12 and B13:F13. */
  const TestRow := Range(11, 1, 5)
  const UpdateRow := Range(12, 1, 5)

  const TestCopiedMiddle := "\" de la hoja origen al campo \""
  const AddedTag := "El Control \""
  const AddedMiddle := "\"  no ten\U{ED}a el formato correcto. Se ha "
  const AddedTail := " la fila 10 para que siga el formato correcto."
  const MisplacedTag := "REVISAR Control Testeado\""
  const MisplacedTail := "\" ya que tiene la \"PRUEBA A REALIZAR\" en la fila incorrecta."

  /** The line logged when the test update is copied; `dstLabel` is the destination's A12. */
  function TestCopiedLine(dstLabel: string): string
  {
    CopiedTag + UpdatesLabel + TestCopiedMiddle + dstLabel + CopiedTail
  }

  /** The two branches spell the verb differently. */
  function AddedLine(control: string, verb: string): string
  {
    AddedTag + control + AddedMiddle + verb + AddedTail
  }

  function MisplacedLine(control: string): string
  {
    MisplacedTag + control + MisplacedTail
  }

  /** The value `valoresB12F12` can hold: nothing yet, or one row of five values. */
  predicate StaleOk(stale: Option<seq<string>>)
  {
    stale.Some? ==> |stale.value| == TestRow.Width()
  }

  /** What the step leaves: the destination, the label pushed (if any), the lines and `valoresB12F12`. */
  datatype TestOutcome = TestOutcome(dst: Cells, labels: seq<string>, lines: seq<string>, stale: Option<seq<string>>, aborted: bool)

  /**
   * Placing the selected values `vs`: copied straight into B12:F12 when the destination's A12 is
   * "Prueba a realizar"; otherwise, when its A11 is, row 10 is inserted and `written` (the
   * variable the source passes there) is written, an absent value throwing.
   */
  function Place(dst: Cells, vs: seq<string>, written: Option<seq<string>>, stale: Option<seq<string>>, control: string, verb: string): TestOutcome
    requires |vs| == TestRow.Width() && StaleOk(written)
  {
    if !HasContent(vs) then TestOutcome(dst, [], [], stale, false)
    else if Get(dst, 11, 0) == TestLabel then
      var d := Write(dst, TestRow, vs);
      TestOutcome(d, [UpdatesLabel], [TestCopiedLine(Get(d, 11, 0))], stale, false)
    else if Get(dst, 10, 0) == TestLabel then
      NonBlankIsStored(dst, 10, 0);
      var d := WithRowInserted(dst, 9);
      match written
      case None => TestOutcome(d, [], [], stale, true)
      case Some(ws) =>
        var d' := Write(d, TestRow, ws);
        TestOutcome(d', [], [AddedLine(control, verb), TestCopiedLine(Get(d', 11, 0))], stale, false)
    else TestOutcome(dst, [], [], stale, false)
  }

  /** The whole step, on the sheets' values; `stale` is `valoresB12F12` before it. */
  function TestStep(src: Cells, dst: Cells, control: string, stale: Option<seq<string>>): (o: TestOutcome)
    requires StaleOk(stale)
    ensures StaleOk(o.stale)
  {
    var a12 := Get(src, 11, 0);
    if a12 == TestLabel then
      Place(dst, Read(src, UpdateRow), stale, stale, control, "a\U{F1}adido")
    else if a12 == UpdatesLabel then
      var vs := Read(src, TestRow);
      Place(dst, vs, Some(vs), Some(vs), control, "aniadido")
    else TestOutcome(dst, [], [MisplacedLine(control)], stale, false)
  }

  /** Where the update sits in the source: B13:F13 below "Prueba a realizar", B12:F12 next to "Prueba. Actualizaciones". */
  function Selection(src: Cells): Option<Range>
  {
    var a12 := Get(src, 11, 0);
    if a12 == TestLabel then Some(UpdateRow) else if a12 == UpdatesLabel then Some(TestRow) else None
  }

  /**
   * `valoresB12F12` changes exactly when the source's A12 is "Prueba. Actualizaciones", to that
   * source's B12:F12.
   */
  lemma StaleCarried(src: Cells, dst: Cells, control: string, stale: Option<seq<string>>)
    requires StaleOk(stale)
    ensures var o := TestStep(src, dst, control, stale);
      o.stale == (if Get(src, 11, 0) == UpdatesLabel then Some(Read(src, TestRow)) else stale)
  {
  }

  /**
   * The test update is pushed as a copied field exactly when the source selects a row with
   * content and the destination's A12 is "Prueba a realizar"; it is then written to B12:F12 and
   * nothing else changes.
   */
  lemma CopiedIff(src: Cells, dst: Cells, control: string, stale: Option<seq<string>>)
    requires StaleOk(stale)
    ensures var o := TestStep(src, dst, control, stale);
      && (o.labels == [UpdatesLabel] <==>
          Selection(src).Some? && HasContent(Read(src, Selection(src).value)) && Get(dst, 11, 0) == TestLabel)
      && (o.labels == [UpdatesLabel] ==>
          !o.aborted && o.dst == Write(dst, TestRow, Read(src, Selection(src).value))
          && o.lines == [TestCopiedLine(TestLabel)])
      && (o.labels != [UpdatesLabel] ==> o.labels == [])
  {
  }

  /** Without a selected row with content, the destination is left alone and nothing aborts. */
  lemma NoContentNoChange(src: Cells, dst: Cells, control: string, stale: Option<seq<string>>)
    requires StaleOk(stale)
    requires Selection(src).None? || !HasContent(Read(src, Selection(src).value))
    ensures var o := TestStep(src, dst, control, stale);
      && o.dst == dst && !o.aborted && o.labels == []
      && o.lines == (if Selection(src).None? then [MisplacedLine(control)] else [])
  {
  }

  /**
   * The step stops the batch exactly when the source says "Prueba a realizar" with content in
   * B13:F13, the destination has the label in A11 rather than A12, and no earlier mapping row
   * assigned `valoresB12F12`.
   */
  lemma AbortsIff(src: Cells, dst: Cells, control: string, stale: Option<seq<string>>)
    requires StaleOk(stale)
    ensures TestStep(src, dst, control, stale).aborted <==>
      && Get(src, 11, 0) == TestLabel && HasContent(Read(src, UpdateRow))
      && Get(dst, 11, 0) != TestLabel && Get(dst, 10, 0) == TestLabel
      && stale.None?
  {
  }

  /**
   * In the inserted-row branch the destination gains a blank row 10, its A12 is the label that
   * was in A11, and B12:F12 receives `valoresB12F12`: for a "Prueba a realizar" source, the values
   * left by an earlier mapping row rather than this source's B13:F13.
   */
  lemma InsertedRowWritesCarried(src: Cells, dst: Cells, control: string, ws: seq<string>)
    requires |ws| == TestRow.Width()
    requires Get(src, 11, 0) == TestLabel && HasContent(Read(src, UpdateRow))
    requires Get(dst, 11, 0) != TestLabel && Get(dst, 10, 0) == TestLabel
    ensures var o := TestStep(src, dst, control, Some(ws));
      && !o.aborted && o.labels == []
      && (forall c: nat :: Get(o.dst, 9, c) == "")
      && Get(o.dst, 11, 0) == TestLabel
      && Read(o.dst, TestRow) == ws
      && o.lines == [AddedLine(control, "a\U{F1}adido"), TestCopiedLine(TestLabel)]
  {
    NonBlankIsStored(dst, 10, 0);
    var d := WithRowInserted(dst, 9);
    ReadWritten(d, TestRow, ws);
  }

  /** The step on the sheets: the destination is updated in place, the lines are appended. */
  method PlaceTest(dst: Sheet, vs: seq<string>, written: Option<seq<string>>, control: string, verb: string, log: Log)
    returns (labels: seq<string>, aborted: bool)
    requires |vs| == TestRow.Width() && StaleOk(written)
    modifies dst, log
    ensures var o := Place(old(dst.cells), vs, written, written, control, verb);
      dst.cells == o.dst && labels == o.labels && aborted == o.aborted && log.lines == old(log.lines) + o.lines
  {
    labels := [];
    aborted := false;
    if HasContent(vs) && dst.Value(11, 0) == TestLabel {
      dst.SetValues(TestRow, vs);
      labels := [UpdatesLabel];
      log.Append(TestCopiedLine(dst.Value(11, 0)));
    } else if HasContent(vs) && dst.Value(10, 0) == TestLabel {
      NonBlankIsStored(dst.cells, 10, 0);
      dst.InsertRowBefore(9);
      if written.None? {
        aborted := true;
        return;
      }
      dst.SetValues(TestRow, written.value);
      log.Append(AddedLine(control, verb));
      log.Append(TestCopiedLine(dst.Value(11, 0)));
    }
  }

  /** `valorA12` and its three branches; returns the new `valoresB12F12`. */
  method CopyTest(src: Sheet, dst: Sheet, control: string, stale: Option<seq<string>>, log: Log)
    returns (labels: seq<string>, stale': Option<seq<string>>, aborted: bool)
    requires src != dst && StaleOk(stale)
    modifies dst, log
    ensures var o := TestStep(src.cells, old(dst.cells), control, stale);
      && dst.cells == o.dst && labels == o.labels && stale' == o.stale && aborted == o.aborted
      && log.lines == old(log.lines) + o.lines
  {
    var a12 := src.Value(11, 0);
    stale' := stale;
    if a12 == TestLabel {
      var vs := Read(src.cells, UpdateRow);
      labels, aborted := PlaceTest(dst, vs, stale, control, "a\U{F1}adido", log);
    } else if a12 == UpdatesLabel {
      var vs := Read(src.cells, TestRow);
      stale' := Some(vs);
      labels, aborted := PlaceTest(dst, vs, stale', control, "aniadido", log);
    } else {
      labels, aborted := [], false;
      log.Append(MisplacedLine(control));
    }
  }

  /** The destination cells of `frecuenciasYMuestras`: D(n-2) and F(n+9), 0-based. */
  function SampleCells(n: nat): seq<(nat, nat)>
    requires 3 <= n
  {
    [(n - 3, 3), (n + 8, 5)]
  }

  /**
   * The `frecuenciasYMuestras` loop: it writes nothing and pushes one value per table entry,
   * the destination's frequency in D(n-2) and sample count in F(n+9). Its reads of the source are
   * left unused by the source and are not modelled.
   */
  method FrequenciesAndSamples(n: nat, dst: Sheet) returns (texts: seq<string>)
    requires 3 <= n
    ensures texts == [Get(dst.cells, n - 3, 3), Get(dst.cells, n + 8, 5)]
  {
    var cells := SampleCells(n);
    texts := [];
    var k := 0;
    while k < |cells|
      invariant k <= |cells|
      invariant |texts| == k
      invariant forall i :: 0 <= i < k ==> texts[i] == Get(dst.cells, cells[i].0, cells[i].1)
    {
      texts := texts + [dst.Value(cells[k].0, cells[k].1)];
      k := k + 1;
    }
  }
}
