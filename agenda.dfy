/**
 * The tracking-sheet ("agenda") update at the end of each mapping row of
 * `copiarCeldasDesdeControl`: every agenda row from the third on whose column A names the current
 * control gets "OK", the copied-field labels, the frequency and sample texts and the sample
 * size in columns B..E. Column A is read from the snapshot the macro took before its loop.
 */
module Agenda {
  import opened Text
  import opened Grid

  const OkMark := "OK"
  const Separator := ", "
  const AgendaTag := "Celda de la hoja principal actualizada con OK y campos copiados para \""

  function AgendaLine(dstName: string): string
  {
    AgendaTag + dstName + "\""
  }

  /** What a matching row gets in columns C, D and E (B always gets "OK"). */
  datatype Entry = Entry(copied: string, frequency: string, samples: string)

  /** The value written to column c (1 to 4, B to E). */
  function EntryValue(e: Entry, c: nat): string
    requires 1 <= c <= 4
  {
    if c == 1 then OkMark else if c == 2 then e.copied else if c == 3 then e.frequency else e.samples
  }

  /** Row j of the snapshot names the control: both trimmed and lower-cased are equal. */
  predicate Names(names: Cells, j: nat, control: string)
  {
    Norm(Get(names, j, 0)) == Norm(control)
  }

  /** The four `setValue` calls on agenda row j. */
  function Written(g: Cells, j: nat, e: Entry): Cells
  {
    SetCell(SetCell(SetCell(SetCell(g, j, 1, OkMark), j, 2, e.copied), j, 3, e.frequency), j, 4, e.samples)
  }

  lemma WrittenCells(g: Cells, j: nat, e: Entry)
    ensures forall r: nat, c: nat :: Get(Written(g, j, e), r, c) == if r == j && 1 <= c <= 4 then EntryValue(e, c) else Get(g, r, c)
  {
  }

  /** The agenda after the loop over snapshot rows 2..n-1. */
  function Marked(names: Cells, agenda: Cells, control: string, e: Entry, n: nat): Cells
  {
    if n <= 2 then agenda
    else
      var a := Marked(names, agenda, control, e, n - 1);
      if Names(names, n - 1, control) then Written(a, n - 1, e) else a
  }

  /** The lines the loop over snapshot rows 2..n-1 logs: one per matching row. */
  function MarkLines(names: Cells, control: string, dstName: string, n: nat): (ls: seq<string>)
    ensures forall k :: 0 <= k < |ls| ==> ls[k] == AgendaLine(dstName)
  {
    if n <= 2 then []
    else MarkLines(names, control, dstName, n - 1) + (if Names(names, n - 1, control) then [AgendaLine(dstName)] else [])
  }

  /**
   * A cell changes only in columns B..E of a row from the third on that names the control, and
   * there it takes the entry's value; rows 1 and 2 and every other row keep their values.
   */
  lemma {:induction false} MarkedCell(names: Cells, agenda: Cells, control: string, e: Entry, n: nat, r: nat, c: nat)
    ensures Get(Marked(names, agenda, control, e, n), r, c)
      == if 2 <= r < n && Names(names, r, control) && 1 <= c <= 4 then EntryValue(e, c) else Get(agenda, r, c)
  {
    if n > 2 {
      MarkedCell(names, agenda, control, e, n - 1, r, c);
      if Names(names, n - 1, control) {
        WrittenCells(Marked(names, agenda, control, e, n - 1), n - 1, e);
      }
    }
  }

  lemma MarkedCells(names: Cells, agenda: Cells, control: string, e: Entry, n: nat)
    ensures forall r: nat, c: nat :: (Get(Marked(names, agenda, control, e, n), r, c)
      == if 2 <= r < n && Names(names, r, control) && 1 <= c <= 4 then EntryValue(e, c) else Get(agenda, r, c))
  {
    forall r: nat, c: nat
      ensures Get(Marked(names, agenda, control, e, n), r, c)
        == if 2 <= r < n && Names(names, r, control) && 1 <= c <= 4 then EntryValue(e, c) else Get(agenda, r, c)
    {
      MarkedCell(names, agenda, control, e, n, r, c);
    }
  }

  /** The snapshot rows from the third up to n-1 that name the control. */
  function Matching(names: Cells, control: string, n: nat): set<nat>
  {
    set r: nat | 2 <= r < n && Names(names, r, control)
  }

  /** Row n-1 joins the matching rows exactly when it names the control. */
  lemma MatchingStep(names: Cells, control: string, n: nat)
    requires 2 < n
    ensures n - 1 !in Matching(names, control, n - 1)
    ensures Matching(names, control, n)
         == Matching(names, control, n - 1) + if Names(names, n - 1, control) then {n - 1} else {}
  {
  }

  /** The loop logs exactly one line per snapshot row from the third on that names the control. */
  lemma {:induction false} MarkLinesCount(names: Cells, control: string, dstName: string, n: nat)
    ensures |MarkLines(names, control, dstName, n)| == |Matching(names, control, n)|
  {
    if n <= 2 {
      assert Matching(names, control, n) == {};
    } else {
      MarkLinesCount(names, control, dstName, n - 1);
      MatchingStep(names, control, n);
    }
  }

  /** The loop over the agenda snapshot rows from index 2 on. */
  method UpdateAgenda(names: Cells, agenda: Sheet, control: string, e: Entry, dstName: string, log: Log)
    modifies agenda, log
    ensures agenda.cells == Marked(names, old(agenda.cells), control, e, |names|)
    ensures log.lines == old(log.lines) + MarkLines(names, control, dstName, |names|)
  {
    var j := 2;
    while j < |names|
      invariant agenda.cells == Marked(names, old(agenda.cells), control, e, if j <= |names| then j else |names|)
      invariant log.lines == old(log.lines) + MarkLines(names, control, dstName, if j <= |names| then j else |names|)
    {
      if Norm(Get(names, j, 0)) == Norm(control) {
        agenda.SetValue(j, 1, OkMark);
        agenda.SetValue(j, 2, e.copied);
        agenda.SetValue(j, 3, e.frequency);
        agenda.SetValue(j, 4, e.samples);
        log.Append(AgendaLine(dstName));
      }
      j := j + 1;
    }
  }
}
