/**
 * `copiarCeldasDesdeControl`, in both versions: for each row of the mapping sheet after the
 * header, open the tested control (source) and the documented control (destination), copy the
 * updated fields from the first to the second, check the destination and mark the control in
 * the agenda.
 *
 * The files the macro can open are a set of document ids; the tabs of those files are a
 * sequence of `Sheet` objects (the first tab whose id and name match is the one opened). An
 * exception anywhere outside the two `openById` blocks ends the whole batch: such a row is
 * "aborted" and no later row runs.
 */
module Propagate {
  import opened Wrappers
  import opened Text
  import opened Grid
  import opened Prompts
  import opened Layout
  import opened FieldCopy
  import opened Validation
  import opened Agenda
  import opened TestField

  const Rule := "--------------------------------------------------------------------"
  const ControlTag := "CONTROL actual: "
  const SourceTag := "Hoja Origen: "
  const DestinationTag := "Hoja Destino: "
  const Origin := "origen"
  const Destination := "destino"
  const OpenTag := " al abrir el archivo de "
  const IdTag := " con ID: \""
  const SheetTag := "\" de la hoja "
  const NameTag := ": \""
  const RangeErrorTag := "ERROR. Fichero con rango de celdas incorrecto o nombres diferentes. REVISAR: "
  const SourceMessage := "hoja origen"
  const DestinationMessage := "hoja destino"

  /** One row of the mapping sheet: columns A..E. */
  datatype Mapping = Mapping(srcId: string, srcName: string, dstId: string, dstName: string, control: string)

  function MappingRow(data: Cells, i: nat): Mapping
  {
    Mapping(Get(data, i, 0), Get(data, i, 1), Get(data, i, 2), Get(data, i, 3), Get(data, i, 4))
  }

  /** The source and the destination are different files. */
  predicate DistinctFiles(m: Mapping)
  {
    m.srcId != m.dstId
  }

  /** The four lines logged before a row is opened. */
  function Header(m: Mapping): seq<string>
  {
    [Rule, ControlTag + m.control, SourceTag + m.srcName, DestinationTag + m.dstName]
  }

  /** The line logged when `openById` throws; only the capitalisation differs between versions. */
  function OpenError(v: Version, side: string, id: string, name: string): string
  {
    (if v == Current then "ERROR" else "Error") + OpenTag + side + IdTag + id + SheetTag + side + NameTag + name
  }

  /** What opening a tab gives: `openById` throws, `getSheetByName` gives null, or a tab. */
  datatype Opened = OpenFailed | NoTab | Tab(k: nat)

  /** The first tab from index `from` on with that document id and name. */
  function FindTab(tabs: seq<Sheet>, id: string, name: string, from: nat): (o: Opened)
    decreases |tabs| - from
    ensures !o.OpenFailed?
    ensures o.Tab? ==> from <= o.k < |tabs| && tabs[o.k].docId == id && tabs[o.k].name == name
    ensures o.Tab? ==> forall k :: from <= k < o.k ==> !(tabs[k].docId == id && tabs[k].name == name)
    ensures o.NoTab? ==> forall k :: from <= k < |tabs| ==> !(tabs[k].docId == id && tabs[k].name == name)
  {
    if from >= |tabs| then NoTab
    else if tabs[from].docId == id && tabs[from].name == name then Tab(from)
    else FindTab(tabs, id, name, from + 1)
  }

  function Open(files: set<string>, tabs: seq<Sheet>, id: string, name: string): Opened
  {
    if id !in files then OpenFailed else FindTab(tabs, id, name, 0)
  }

  /** The agenda entry of the current version: the copied labels, "D3, F14" and F14 of the destination. */
  function CurrentEntry(labels: seq<string>, dst: Cells): Entry
  {
    Entry(Join(labels, Separator), Get(dst, 2, 3) + Separator + Get(dst, 13, 5), Get(dst, 13, 5))
  }

  /** The legacy entry: the copied labels, the two `frecuenciasYMuestras` texts joined, and F(n+9). */
  function LegacyEntry(labels: seq<string>, dst: Cells, n: nat): Entry
    requires 3 <= n
  {
    Entry(Join(labels, Separator), Join([Get(dst, n - 3, 3), Get(dst, n + 8, 5)], Separator), Get(dst, n + 8, 5))
  }

  /** What happens to the destination and the agenda once both tabs are open. */
  datatype Outcome = Outcome(dst: Cells, agenda: Cells, log: seq<string>, stale: Option<seq<string>>, aborted: bool)

  /**
   * The current version from the destination's `checkFormat` on (the source is already checked):
   * the copy table, the F14 step, whose `getRange(Range)` call throws once F14 was written, then
   * `verificarCeldas` and the agenda.
   */
  function CurrentPair(src: Cells, dst: Cells, m: Mapping, names: Cells, agenda: Cells, log: seq<string>): Outcome
  {
    var d1 := Checked(dst);
    var d2 := Copied(src, d1, CurrentTable(), |CurrentTable()|);
    var log' := log + FormatLog(dst, DestinationMessage, m.dstName) + Lines(src, d1, CurrentTable(), |CurrentTable()|);
    if Get(src, 13, 5) != Get(d2, 13, 5) then
      Outcome(SetCell(d2, 13, 5, Get(src, 13, 5)), agenda, log', None, true)
    else
      var e := CurrentEntry(Labels(src, CurrentTable(), |CurrentTable()|), d2);
      Outcome(d2, Marked(names, agenda, m.control, e, |names|),
        log' + Warnings(Current, d2) + MarkLines(names, m.control, m.dstName, |names|), None, false)
  }

  /**
   * The legacy version once the offset n is known and both tabs are open: the copy table for n,
   * the test-description step, `verificarCeldas` and the agenda.
   */
  function LegacyPair(src: Cells, dst: Cells, n: nat, m: Mapping, names: Cells, agenda: Cells, log: seq<string>,
                      stale: Option<seq<string>>): (o: Outcome)
    requires 4 <= n && StaleOk(stale)
    ensures StaleOk(o.stale)
  {
    var t := LegacyTable(n);
    var d1 := Copied(src, dst, t, |t|);
    var log' := log + Lines(src, dst, t, |t|);
    var o := TestStep(src, d1, m.control, stale);
    if o.aborted then Outcome(o.dst, agenda, log' + o.lines, o.stale, true)
    else
      var e := LegacyEntry(Labels(src, t, |t|) + o.labels, o.dst, n);
      Outcome(o.dst, Marked(names, agenda, m.control, e, |names|),
        log' + o.lines + Warnings(Legacy, o.dst) + MarkLines(names, m.control, m.dstName, |names|), o.stale, false)
  }

  /**
   * Legacy, destination tab missing: the first field with content throws on the null tab; if
   * none has content, the misplaced-test line may be logged, and the frequency loop throws.
   */
  function NoDestinationLines(src: Cells, n: nat, control: string): seq<string>
    requires 4 <= n
  {
    var t := LegacyTable(n);
    if Labels(src, t, |t|) == [] && Selection(src).None? then [MisplacedLine(control)] else []
  }

  /**
   * The state of the batch: the tabs' values, the agenda, the log, `valoresB12F12` (which
   * outlives the row that sets it), and whether the batch has stopped.
   */
  datatype Batch = Batch(docs: seq<Cells>, agenda: Cells, log: seq<string>, stale: Option<seq<string>>, aborted: bool)

  /** The state before the first mapping row. */
  function Start(docs: seq<Cells>, agenda: Cells, log: seq<string>): Batch
  {
    Batch(docs, agenda, log, None, false)
  }

  /**
   * The current version once the source tab `s` is open: `checkFormat` on the source, then on
   * the destination when its tab exists (a missing one throws).
   */
  function CurrentRow(names: Cells, m: Mapping, b: Batch, s: nat, dO: Opened): (b': Batch)
    requires s < |b.docs| && (dO.Tab? ==> dO.k < |b.docs|)
    ensures |b'.docs| == |b.docs| && b'.stale == b.stale
  {
    var src := Checked(b.docs[s]);
    var log := b.log + FormatLog(b.docs[s], SourceMessage, m.srcName);
    if !dO.Tab? then b.(docs := b.docs[s := src], log := log, aborted := true)
    else
      var docs := b.docs[s := src];
      var o := CurrentPair(src, docs[dO.k], m, names, b.agenda, log);
      b.(docs := docs[dO.k := o.dst], agenda := o.agenda, log := o.log, aborted := o.aborted)
  }

  /**
   * The legacy version once the source tab `s` is open: the offset from the source's A2 and A3
   * (none skips the row), then the destination, whose missing tab throws.
   */
  function LegacyRow(names: Cells, m: Mapping, b: Batch, s: nat, dO: Opened): (b': Batch)
    requires s < |b.docs| && (dO.Tab? ==> dO.k < |b.docs|) && StaleOk(b.stale)
    ensures |b'.docs| == |b.docs| && StaleOk(b'.stale)
  {
    match Offset(b.docs[s])
    case None => b.(log := b.log + [RangeErrorTag + m.dstName])
    case Some(n) =>
      if !dO.Tab? then b.(log := b.log + NoDestinationLines(b.docs[s], n, m.control), aborted := true)
      else
        var o := LegacyPair(b.docs[s], b.docs[dO.k], n, m, names, b.agenda, b.log, b.stale);
        Batch(b.docs[dO.k := o.dst], o.agenda, o.log, o.stale, o.aborted)
  }

  /**
   * The effect of one mapping row: the header lines, then the two `openById` blocks (a failure
   * logs and skips the row), then a missing source tab throws.
   */
  function Row(v: Version, files: set<string>, tabs: seq<Sheet>, names: Cells, m: Mapping, b: Batch): (b': Batch)
    requires |b.docs| == |tabs| && StaleOk(b.stale)
    ensures |b'.docs| == |tabs| && StaleOk(b'.stale)
  {
    var head := b.(log := b.log + Header(m));
    var so := Open(files, tabs, m.srcId, m.srcName);
    var dO := Open(files, tabs, m.dstId, m.dstName);
    if so.OpenFailed? then head.(log := head.log + [OpenError(v, Origin, m.srcId, m.srcName)])
    else if dO.OpenFailed? then head.(log := head.log + [OpenError(v, Destination, m.dstId, m.dstName)])
    else if so.NoTab? then head.(aborted := true)
    else if v == Current then CurrentRow(names, m, head, so.k, dO)
    else LegacyRow(names, m, head, so.k, dO)
  }

  /** The batch after mapping rows 1..n-1 (row 0 is the header); nothing runs after an abort. */
  function Run(v: Version, files: set<string>, tabs: seq<Sheet>, names: Cells, data: Cells, n: nat, b0: Batch): (b: Batch)
    requires |b0.docs| == |tabs| && StaleOk(b0.stale)
    ensures |b.docs| == |tabs| && StaleOk(b.stale)
  {
    if n <= 1 then b0
    else
      var b := Run(v, files, tabs, names, data, n - 1, b0);
      if b.aborted then b else Row(v, files, tabs, names, MappingRow(data, n - 1), b)
  }

  // ---------------------------------------------------------------------------------------
  // Properties of one row

  /**
   * A file that cannot be opened costs only its row: the row logs its header and one error line,
   * changes no tab and no agenda cell, and the batch goes on.
   */
  lemma OpenFailureSkipsRow(v: Version, files: set<string>, tabs: seq<Sheet>, names: Cells, m: Mapping, b: Batch)
    requires |b.docs| == |tabs| && StaleOk(b.stale)
    requires m.srcId !in files || m.dstId !in files
    ensures Row(v, files, tabs, names, m, b)
      == b.(log := b.log + Header(m) + [if m.srcId !in files then OpenError(v, Origin, m.srcId, m.srcName)
                                        else OpenError(v, Destination, m.dstId, m.dstName)])
  {
  }

  /**
   * Legacy: a source with neither A2 nor A3 holding the type (or class) label is skipped with one
   * line naming the destination, once both files open and the source tab exists.
   */
  lemma NoOffsetSkipsRow(files: set<string>, tabs: seq<Sheet>, names: Cells, m: Mapping, b: Batch)
    requires |b.docs| == |tabs| && StaleOk(b.stale)
    requires Open(files, tabs, m.srcId, m.srcName).Tab? && !Open(files, tabs, m.dstId, m.dstName).OpenFailed?
    requires Offset(b.docs[Open(files, tabs, m.srcId, m.srcName).k]).None?
    ensures Row(Legacy, files, tabs, names, m, b) == b.(log := b.log + Header(m) + [RangeErrorTag + m.dstName])
  {
  }

  /**
   * A row changes no tab other than its source and destination; the source is changed only by
   * the current version's format repair, and the legacy version never writes to it.
   */
  lemma RowTouchesItsTabs(v: Version, files: set<string>, tabs: seq<Sheet>, names: Cells, m: Mapping, b: Batch)
    requires |b.docs| == |tabs| && StaleOk(b.stale)
    requires Open(files, tabs, m.srcId, m.srcName).Tab? && Open(files, tabs, m.dstId, m.dstName).Tab?
    requires Open(files, tabs, m.srcId, m.srcName).k != Open(files, tabs, m.dstId, m.dstName).k
    ensures var s := Open(files, tabs, m.srcId, m.srcName).k;
      var d := Open(files, tabs, m.dstId, m.dstName).k;
      var b' := Row(v, files, tabs, names, m, b);
      && (forall k :: 0 <= k < |b.docs| && k != s && k != d ==> b'.docs[k] == b.docs[k])
      && b'.docs[s] == (if v == Current then Checked(b.docs[s]) else b.docs[s])
  {
  }

  /** Two tabs whose document ids differ are different tabs. */
  lemma DistinctFilesDistinctTabs(files: set<string>, tabs: seq<Sheet>, m: Mapping)
    requires DistinctFiles(m)
    requires Open(files, tabs, m.srcId, m.srcName).Tab? && Open(files, tabs, m.dstId, m.dstName).Tab?
    ensures Open(files, tabs, m.srcId, m.srcName).k != Open(files, tabs, m.dstId, m.dstName).k
  {
  }

  /**
   * Current version: once both tabs are open the destination's F14 ends equal to the source's,
   * and the row stops the batch exactly when F14 had to be written.
   */
  lemma SampleSizeSynced(files: set<string>, tabs: seq<Sheet>, names: Cells, m: Mapping, b: Batch)
    requires |b.docs| == |tabs| && StaleOk(b.stale) && DistinctFiles(m)
    requires Open(files, tabs, m.srcId, m.srcName).Tab? && Open(files, tabs, m.dstId, m.dstName).Tab?
    ensures var s := Open(files, tabs, m.srcId, m.srcName).k;
      var d := Open(files, tabs, m.dstId, m.dstName).k;
      var b' := Row(Current, files, tabs, names, m, b);
      var src := Checked(b.docs[s]);
      && Get(b'.docs[d], 13, 5) == Get(b'.docs[s], 13, 5)
      && (b'.aborted <==> Get(Copied(src, Checked(b.docs[d]), CurrentTable(), |CurrentTable()|), 13, 5) != Get(src, 13, 5))
  {
    DistinctFilesDistinctTabs(files, tabs, m);
  }

  /** The agenda a pair of open tabs leaves: unchanged after an abort, otherwise marked with the entry. */
  lemma CurrentPairAgenda(src: Cells, dst: Cells, m: Mapping, names: Cells, agenda: Cells, log: seq<string>)
    ensures var o := CurrentPair(src, dst, m, names, agenda, log);
      o.agenda == if o.aborted then agenda
        else Marked(names, agenda, m.control, CurrentEntry(Labels(src, CurrentTable(), |CurrentTable()|), o.dst), |names|)
  {
  }

  lemma LegacyPairAgenda(src: Cells, dst: Cells, n: nat, m: Mapping, names: Cells, agenda: Cells, log: seq<string>,
                         stale: Option<seq<string>>)
    requires 4 <= n && StaleOk(stale)
    ensures var o := LegacyPair(src, dst, n, m, names, agenda, log, stale);
      var t := LegacyTable(n);
      var more := TestStep(src, Copied(src, dst, t, |t|), m.control, stale).labels;
      o.agenda == if o.aborted then agenda
        else Marked(names, agenda, m.control, LegacyEntry(Labels(src, t, |t|) + more, o.dst, n), |names|)
  {
  }

  /**
   * Current version: a completed row marks each agenda row naming its control with "OK", the
   * labels of the fields copied, "D3, F14" and F14 of the destination as the row leaves it.
   */
  lemma CurrentRowMarksAgenda(files: set<string>, tabs: seq<Sheet>, names: Cells, m: Mapping, b: Batch, r: nat)
    requires |b.docs| == |tabs| && StaleOk(b.stale) && DistinctFiles(m)
    requires Open(files, tabs, m.srcId, m.srcName).Tab? && Open(files, tabs, m.dstId, m.dstName).Tab?
    requires !Row(Current, files, tabs, names, m, b).aborted
    requires 2 <= r < |names| && Names(names, r, m.control)
    ensures var s := Open(files, tabs, m.srcId, m.srcName).k;
      var d := Open(files, tabs, m.dstId, m.dstName).k;
      var b' := Row(Current, files, tabs, names, m, b);
      && Get(b'.agenda, r, 1) == OkMark
      && Get(b'.agenda, r, 2) == Join(Labels(b'.docs[s], CurrentTable(), |CurrentTable()|), Separator)
      && Get(b'.agenda, r, 3) == Get(b'.docs[d], 2, 3) + Separator + Get(b'.docs[d], 13, 5)
      && Get(b'.agenda, r, 4) == Get(b'.docs[d], 13, 5)
  {
    DistinctFilesDistinctTabs(files, tabs, m);
    var s := Open(files, tabs, m.srcId, m.srcName).k;
    var d := Open(files, tabs, m.dstId, m.dstName).k;
    var src := Checked(b.docs[s]);
    var log := b.log + Header(m) + FormatLog(b.docs[s], SourceMessage, m.srcName);
    var o := CurrentPair(src, b.docs[s := src][d], m, names, b.agenda, log);
    CurrentPairAgenda(src, b.docs[s := src][d], m, names, b.agenda, log);
    MarkedCells(names, b.agenda, m.control, CurrentEntry(Labels(src, CurrentTable(), |CurrentTable()|), o.dst), |names|);
  }

  /**
   * Legacy version: a completed row marks each agenda row naming its control with "OK", the
   * destination's frequency D(n-2) and sample count F(n+9) joined, and F(n+9).
   */
  lemma LegacyRowMarksAgenda(files: set<string>, tabs: seq<Sheet>, names: Cells, m: Mapping, b: Batch, r: nat)
    requires |b.docs| == |tabs| && StaleOk(b.stale) && DistinctFiles(m)
    requires Open(files, tabs, m.srcId, m.srcName).Tab? && Open(files, tabs, m.dstId, m.dstName).Tab?
    requires Offset(b.docs[Open(files, tabs, m.srcId, m.srcName).k]).Some?
    requires !Row(Legacy, files, tabs, names, m, b).aborted
    requires 2 <= r < |names| && Names(names, r, m.control)
    ensures var d := Open(files, tabs, m.dstId, m.dstName).k;
      var n := Offset(b.docs[Open(files, tabs, m.srcId, m.srcName).k]).value;
      var b' := Row(Legacy, files, tabs, names, m, b);
      && Get(b'.agenda, r, 1) == OkMark
      && Get(b'.agenda, r, 3) == Get(b'.docs[d], n - 3, 3) + Separator + Get(b'.docs[d], n + 8, 5)
      && Get(b'.agenda, r, 4) == Get(b'.docs[d], n + 8, 5)
  {
    var s := Open(files, tabs, m.srcId, m.srcName).k;
    var d := Open(files, tabs, m.dstId, m.dstName).k;
    var n := Offset(b.docs[s]).value;
    var t := LegacyTable(n);
    var log := b.log + Header(m);
    var o := LegacyPair(b.docs[s], b.docs[d], n, m, names, b.agenda, log, b.stale);
    LegacyPairAgenda(b.docs[s], b.docs[d], n, m, names, b.agenda, log, b.stale);
    var more := TestStep(b.docs[s], Copied(b.docs[s], b.docs[d], t, |t|), m.control, b.stale).labels;
    var e := LegacyEntry(Labels(b.docs[s], t, |t|) + more, o.dst, n);
    MarkedCells(names, b.agenda, m.control, e, |names|);
    assert Join([Get(o.dst, n - 3, 3), Get(o.dst, n + 8, 5)], Separator) == Get(o.dst, n - 3, 3) + Separator + Get(o.dst, n + 8, 5);
  }

  /**
   * A row changes an agenda cell only in columns B..E of a row from the third on whose column A
   * (in the snapshot) names the row's control.
   */
  lemma RowAgendaCell(v: Version, files: set<string>, tabs: seq<Sheet>, names: Cells, m: Mapping, b: Batch, r: nat, c: nat)
    requires |b.docs| == |tabs| && StaleOk(b.stale)
    requires Get(Row(v, files, tabs, names, m, b).agenda, r, c) != Get(b.agenda, r, c)
    ensures 2 <= r < |names| && 1 <= c <= 4 && Names(names, r, m.control)
  {
    var so := Open(files, tabs, m.srcId, m.srcName);
    var dO := Open(files, tabs, m.dstId, m.dstName);
    var head := b.(log := b.log + Header(m));
    if v == Current {
      CurrentRowAgendaCell(names, m, head, so.k, dO, r, c);
    } else {
      LegacyRowAgendaCell(names, m, head, so.k, dO, r, c);
    }
  }

  lemma CurrentRowAgendaCell(names: Cells, m: Mapping, b: Batch, s: nat, dO: Opened, r: nat, c: nat)
    requires s < |b.docs| && (dO.Tab? ==> dO.k < |b.docs|)
    requires Get(CurrentRow(names, m, b, s, dO).agenda, r, c) != Get(b.agenda, r, c)
    ensures 2 <= r < |names| && 1 <= c <= 4 && Names(names, r, m.control)
  {
    var src := Checked(b.docs[s]);
    var log := b.log + FormatLog(b.docs[s], SourceMessage, m.srcName);
    var dst := b.docs[s := src][dO.k];
    var o := CurrentPair(src, dst, m, names, b.agenda, log);
    CurrentPairAgenda(src, dst, m, names, b.agenda, log);
    MarkedCell(names, b.agenda, m.control, CurrentEntry(Labels(src, CurrentTable(), |CurrentTable()|), o.dst), |names|, r, c);
  }

  lemma LegacyRowAgendaCell(names: Cells, m: Mapping, b: Batch, s: nat, dO: Opened, r: nat, c: nat)
    requires s < |b.docs| && (dO.Tab? ==> dO.k < |b.docs|) && StaleOk(b.stale)
    requires Get(LegacyRow(names, m, b, s, dO).agenda, r, c) != Get(b.agenda, r, c)
    ensures 2 <= r < |names| && 1 <= c <= 4 && Names(names, r, m.control)
  {
    var n := Offset(b.docs[s]).value;
    var t := LegacyTable(n);
    var o := LegacyPair(b.docs[s], b.docs[dO.k], n, m, names, b.agenda, b.log, b.stale);
    LegacyPairAgenda(b.docs[s], b.docs[dO.k], n, m, names, b.agenda, b.log, b.stale);
    var more := TestStep(b.docs[s], Copied(b.docs[s], b.docs[dO.k], t, |t|), m.control, b.stale).labels;
    MarkedCell(names, b.agenda, m.control, LegacyEntry(Labels(b.docs[s], t, |t|) + more, o.dst, n), |names|, r, c);
  }

  // ---------------------------------------------------------------------------------------
  // Properties of the batch

  /** Once a row stops the batch, nothing after it changes anything. */
  lemma {:induction false} AbortIsFinal(v: Version, files: set<string>, tabs: seq<Sheet>, names: Cells, data: Cells,
                                         m: nat, n: nat, b0: Batch)
    requires |b0.docs| == |tabs| && StaleOk(b0.stale)
    requires m <= n && Run(v, files, tabs, names, data, m, b0).aborted
    ensures Run(v, files, tabs, names, data, n, b0) == Run(v, files, tabs, names, data, m, b0)
  {
    if n > m {
      AbortIsFinal(v, files, tabs, names, data, m, n - 1, b0);
    }
  }

  /** The header row of the mapping sheet never influences the batch. */
  lemma {:induction false} HeaderRowIgnored(v: Version, files: set<string>, tabs: seq<Sheet>, names: Cells,
                                             data: Cells, header: Row, n: nat, b0: Batch)
    requires |b0.docs| == |tabs| && StaleOk(b0.stale) && 1 <= |data|
    ensures Run(v, files, tabs, names, [header] + data[1..], n, b0) == Run(v, files, tabs, names, data, n, b0)
  {
    if n > 1 {
      HeaderRowIgnored(v, files, tabs, names, data, header, n - 1, b0);
      var other := [header] + data[1..];
      if n - 1 < |data| {
        assert other[n - 1] == data[n - 1];
      }
      assert MappingRow(other, n - 1) == MappingRow(data, n - 1);
    }
  }

  /**
   * Over the whole batch, an agenda cell differs from its value before only in columns B..E of
   * a row from the third on whose column A names the control of some mapping row that ran;
   * the first two rows and column A are never written.
   */
  lemma {:induction false} AgendaCellChanged(v: Version, files: set<string>, tabs: seq<Sheet>, names: Cells, data: Cells,
                                              n: nat, b0: Batch, r: nat, c: nat)
    requires |b0.docs| == |tabs| && StaleOk(b0.stale)
    requires Get(Run(v, files, tabs, names, data, n, b0).agenda, r, c) != Get(b0.agenda, r, c)
    ensures 2 <= r < |names| && 1 <= c <= 4
    ensures exists i :: 1 <= i < n && Names(names, r, MappingRow(data, i).control)
  {
    var b := Run(v, files, tabs, names, data, n - 1, b0);
    if Get(b.agenda, r, c) != Get(b0.agenda, r, c) {
      AgendaCellChanged(v, files, tabs, names, data, n - 1, b0, r, c);
    } else {
      RowAgendaCell(v, files, tabs, names, MappingRow(data, n - 1), b, r, c);
    }
  }

  // ---------------------------------------------------------------------------------------
  // The macro on the sheets

  /** One more mapping row: the batch after rows 1..n-1 is row n-1 applied to the batch after rows 1..n-2. */
  lemma RunStep(v: Version, files: set<string>, tabs: seq<Sheet>, names: Cells, data: Cells, n: nat, b0: Batch)
    requires |b0.docs| == |tabs| && StaleOk(b0.stale) && 2 <= n
    requires !Run(v, files, tabs, names, data, n - 1, b0).aborted
    ensures Run(v, files, tabs, names, data, n, b0)
         == Row(v, files, tabs, names, MappingRow(data, n - 1), Run(v, files, tabs, names, data, n - 1, b0))
  {
  }

  /** The same step written for the loop below, which counts from `i` to `i + 1`. */
  lemma RunNext(v: Version, files: set<string>, tabs: seq<Sheet>, names: Cells, data: Cells, i: nat, b0: Batch)
    requires |b0.docs| == |tabs| && StaleOk(b0.stale) && 1 <= i
    requires !Run(v, files, tabs, names, data, i, b0).aborted
    ensures Run(v, files, tabs, names, data, i + 1, b0)
         == Row(v, files, tabs, names, MappingRow(data, i), Run(v, files, tabs, names, data, i, b0))
  {
    RunStep(v, files, tabs, names, data, i + 1, b0);
  }

  /** The step once more, with the next index as a variable of its own. */
  lemma RunNextAt(v: Version, files: set<string>, tabs: seq<Sheet>, names: Cells, data: Cells, i: nat, next: nat, b0: Batch)
    requires |b0.docs| == |tabs| && StaleOk(b0.stale) && 1 <= i && next == i + 1
    requires !Run(v, files, tabs, names, data, i, b0).aborted
    ensures Run(v, files, tabs, names, data, next, b0)
         == Row(v, files, tabs, names, MappingRow(data, i), Run(v, files, tabs, names, data, i, b0))
  {
    RunShift(v, files, tabs, names, data, i, next, b0);
    RunNext(v, files, tabs, names, data, i, b0);
  }

  /** The batch after rows 1..next-1 written with `next` or with `i + 1`. */
  lemma RunShift(v: Version, files: set<string>, tabs: seq<Sheet>, names: Cells, data: Cells, i: nat, next: nat, b0: Batch)
    requires |b0.docs| == |tabs| && StaleOk(b0.stale) && 1 <= i && next == i + 1
    ensures Run(v, files, tabs, names, data, next, b0) == Run(v, files, tabs, names, data, i + 1, b0)
  {
    RunAt(v, files, tabs, names, data, i + 1, next, b0);
  }

  /** Equal indices give equal batches: stated apart, so that the loop step need not unfold `Run` at `next`. */
  lemma RunAt(v: Version, files: set<string>, tabs: seq<Sheet>, names: Cells, data: Cells, n: nat, m: nat, b0: Batch)
    requires |b0.docs| == |tabs| && StaleOk(b0.stale) && n == m
    ensures Run(v, files, tabs, names, data, n, b0) == Run(v, files, tabs, names, data, m, b0)
  {
  }

  /** Once the loop stops, by an abort or past the last mapping row, the batch is final. */
  lemma RunStops(v: Version, files: set<string>, tabs: seq<Sheet>, names: Cells, data: Cells, i: nat, b0: Batch)
    requires |b0.docs| == |tabs| && StaleOk(b0.stale) && 1 <= i
    requires Run(v, files, tabs, names, data, i, b0).aborted || |data| <= i
    requires i <= |data| || i == 1
    ensures Run(v, files, tabs, names, data, |data|, b0) == Run(v, files, tabs, names, data, i, b0)
  {
    if i <= |data| && Run(v, files, tabs, names, data, i, b0).aborted {
      AbortIsFinal(v, files, tabs, names, data, i, |data|, b0);
    }
  }

  /** The tabs are distinct objects and the agenda is none of them. */
  predicate TabsApart(tabs: seq<Sheet>, agenda: Sheet)
  {
    (forall j, k :: 0 <= j < k < |tabs| ==> tabs[j] != tabs[k]) && agenda !in tabs
  }

  /** The tabs, the agenda and the log hold the batch state `b`. */
  ghost predicate Holds(tabs: seq<Sheet>, agenda: Sheet, log: Log, b: Batch)
    reads tabs, agenda, log
  {
    && |b.docs| == |tabs| && (forall k :: 0 <= k < |tabs| ==> tabs[k].cells == b.docs[k])
    && agenda.cells == b.agenda && log.lines == b.log
  }

  /** The current version once both tabs are open and the source is checked. */
  method CurrentPairOn(src: Sheet, dst: Sheet, m: Mapping, names: Cells, agenda: Sheet, log: Log) returns (aborted: bool)
    requires src != dst && agenda != src && agenda != dst && dst.name == m.dstName
    modifies dst, agenda, log
    ensures var o := CurrentPair(src.cells, old(dst.cells), m, names, old(agenda.cells), old(log.lines));
      && dst.cells == o.dst && agenda.cells == o.agenda && aborted == o.aborted && log.lines == o.log
  {
    CheckFormat(dst, log, DestinationMessage);
    var labels := CopyTable(CurrentTable(), src, dst, log);
    if src.Value(13, 5) != dst.Value(13, 5) {
      dst.SetValue(13, 5, src.Value(13, 5));
      return true;
    }
    var warnings := VerifyCells(Current, dst);
    log.AppendAll(warnings);
    var e := Entry(Join(labels, Separator), dst.Value(2, 3) + Separator + dst.Value(13, 5), dst.Value(13, 5));
    UpdateAgenda(names, agenda, m.control, e, m.dstName, log);
    aborted := false;
  }

  /** The legacy version once the offset is known and both tabs are open. */
  method LegacyPairOn(src: Sheet, dst: Sheet, n: nat, m: Mapping, names: Cells, agenda: Sheet, stale: Option<seq<string>>, log: Log)
    returns (stale': Option<seq<string>>, aborted: bool)
    requires 4 <= n && StaleOk(stale)
    requires src != dst && agenda != src && agenda != dst
    modifies dst, agenda, log
    ensures var o := LegacyPair(src.cells, old(dst.cells), n, m, names, old(agenda.cells), old(log.lines), stale);
      && dst.cells == o.dst && agenda.cells == o.agenda && stale' == o.stale && aborted == o.aborted && log.lines == o.log
  {
    var labels := CopyTable(LegacyTable(n), src, dst, log);
    var more;
    more, stale', aborted := CopyTest(src, dst, m.control, stale, log);
    if aborted {
      return;
    }
    var texts := FrequenciesAndSamples(n, dst);
    var warnings := VerifyCells(Legacy, dst);
    log.AppendAll(warnings);
    var solo := dst.Value(n + 8, 5);
    UpdateAgenda(names, agenda, m.control, Entry(Join(labels + more, Separator), Join(texts, Separator), solo), m.dstName, log);
  }

  /** The current version once the source tab `s` is open. */
  method CurrentRowOn(tabs: seq<Sheet>, names: Cells, m: Mapping, agenda: Sheet, log: Log, ghost b: Batch, s: nat, dO: Opened)
    returns (aborted: bool)
    requires TabsApart(tabs, agenda) && Holds(tabs, agenda, log, b)
    requires s < |tabs| && tabs[s].name == m.srcName
    requires dO.Tab? ==> dO.k < |tabs| && dO.k != s && tabs[dO.k].name == m.dstName
    modifies tabs, agenda, log
    ensures var b' := CurrentRow(names, m, b, s, dO); Holds(tabs, agenda, log, b') && aborted == b'.aborted
  {
    CheckFormat(tabs[s], log, SourceMessage);
    if !dO.Tab? {
      return true;
    }
    aborted := CurrentPairOn(tabs[s], tabs[dO.k], m, names, agenda, log);
  }

  /** The legacy version once the source tab `s` is open. */
  method LegacyRowOn(tabs: seq<Sheet>, names: Cells, m: Mapping, agenda: Sheet, log: Log, ghost b: Batch, s: nat, dO: Opened,
                     stale: Option<seq<string>>)
    returns (stale': Option<seq<string>>, aborted: bool)
    requires TabsApart(tabs, agenda) && Holds(tabs, agenda, log, b) && b.stale == stale && StaleOk(stale) && !b.aborted
    requires s < |tabs| && (dO.Tab? ==> dO.k < |tabs| && dO.k != s)
    modifies tabs, agenda, log
    ensures var b' := LegacyRow(names, m, b, s, dO);
      Holds(tabs, agenda, log, b') && stale' == b'.stale && aborted == b'.aborted
  {
    var n := Offset(tabs[s].cells);
    if n.None? {
      log.Append(RangeErrorTag + m.dstName);
      return stale, false;
    }
    if !dO.Tab? {
      log.AppendAll(NoDestinationLines(tabs[s].cells, n.value, m.control));
      return stale, true;
    }
    stale', aborted := LegacyPairOn(tabs[s], tabs[dO.k], n.value, m, names, agenda, stale, log);
  }

  /** One mapping row on the sheets. */
  method UpdateRow(v: Version, files: set<string>, tabs: seq<Sheet>, names: Cells, m: Mapping, agenda: Sheet, log: Log,
                   ghost b: Batch, stale: Option<seq<string>>)
    returns (stale': Option<seq<string>>, aborted: bool)
    requires TabsApart(tabs, agenda) && DistinctFiles(m) && StaleOk(stale)
    requires Holds(tabs, agenda, log, b) && b.stale == stale && !b.aborted
    modifies tabs, agenda, log
    ensures var b' := Row(v, files, tabs, names, m, b);
      Holds(tabs, agenda, log, b') && stale' == b'.stale && aborted == b'.aborted
  {
    log.AppendAll(Header(m));
    ghost var head := b.(log := b.log + Header(m));
    var so := Open(files, tabs, m.srcId, m.srcName);
    if so.OpenFailed? {
      log.Append(OpenError(v, Origin, m.srcId, m.srcName));
      return stale, false;
    }
    var dO := Open(files, tabs, m.dstId, m.dstName);
    if dO.OpenFailed? {
      log.Append(OpenError(v, Destination, m.dstId, m.dstName));
      return stale, false;
    }
    if so.NoTab? {
      return stale, true;
    }
    if dO.Tab? {
      DistinctFilesDistinctTabs(files, tabs, m);
    }
    if v == Current {
      aborted := CurrentRowOn(tabs, names, m, agenda, log, head, so.k, dO);
      stale' := stale;
    } else {
      stale', aborted := LegacyRowOn(tabs, names, m, agenda, log, head, so.k, dO, stale);
    }
  }

  /**
   * `copiarCeldasDesdeControl`: the mapping rows after the header, in order, until one stops
   * the batch. `data` is the mapping sheet's values; the agenda's own values are read once, at
   * the start, for the control names.
   */
  method UpdateControls(v: Version, files: set<string>, tabs: seq<Sheet>, data: Cells, agenda: Sheet, log: Log,
                        ghost docs: seq<Cells>)
    requires TabsApart(tabs, agenda) && Holds(tabs, agenda, log, Start(docs, agenda.cells, log.lines))
    requires forall i :: 1 <= i < |data| ==> DistinctFiles(MappingRow(data, i))
    modifies tabs, agenda, log
    ensures Holds(tabs, agenda, log, Run(v, files, tabs, old(agenda.cells), data, |data|, Start(docs, old(agenda.cells), old(log.lines))))
  {
    var names := agenda.cells;
    ghost var b0 := Start(docs, names, log.lines);
    ghost var b := b0;
    var stale: Option<seq<string>> := None;
    var aborted := false;
    var i := 1;
    while i < |data| && !aborted
      invariant 1 <= i && (i <= |data| || i == 1)
      invariant b == Run(v, files, tabs, names, data, i, b0)
      invariant Holds(tabs, agenda, log, b) && stale == b.stale && aborted == b.aborted
    {
      var m := MappingRow(data, i);
      stale, aborted := UpdateRow(v, files, tabs, names, m, agenda, log, b, stale);
      b := Row(v, files, tabs, names, m, b);
      var next := i + 1;
      RunNextAt(v, files, tabs, names, data, i, next, b0);
      i := next;
    }
    RunStops(v, files, tabs, names, data, i, b0);
  }
}
