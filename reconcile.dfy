/**
 * `compararSheets`: the mapping between tested and documented controls. Every tested row (column
 * C of the tested inventory, rows 2 on) is matched against the pool of documented names; a match
 * writes one mapping row, a miss asks the user whether to create the control by copying the
 * tested file into the documented folder. User responses and the outcomes of Drive's `makeCopy`
 * are injected sequences.
 */
module Reconcile {
  import opened Wrappers
  import opened Text
  import opened Grid
  import opened Prompts
  import opened ControlNames
  import opened Inventory

  /**
   * One `makeCopy` call: the copy's first tab (its document id and tab name are the sheet's), or
   * an exception anywhere between the name prompt and the first mapping write.
   */
  datatype CopyOutcome = Copied(first: Sheet) | CopyFailed

  /** Attempt k: attempts beyond the given outcomes fail. */
  function Attempt(copies: seq<CopyOutcome>, k: nat): CopyOutcome
  {
    if k < |copies| then copies[k] else CopyFailed
  }

  /** The name the copy gets: the current version trims the typed name, the legacy one does not. */
  function CopyName(v: Version, typed: string): string
  {
    if v == Current then Trim(typed) else typed
  }

  const CreatedTag := "Control creado: \""
  const IdTag := "\" con ID: \""
  const Quote := "\""
  const WarningTag := "ADVERTENCIA: "
  const RefusedTag := "Control no creado: \""

  function CreatedLine(newName: string, newId: string): string
  {
    CreatedTag + newName + IdTag + newId + Quote
  }

  /** Note that the line names the tested inventory's tab, not the control. */
  function RefusedLine(v: Version, sheet1Name: string): string
  {
    (if v == Current then WarningTag else "") + RefusedTag + sheet1Name + Quote
  }

  /** How the dialog for one unmatched row ends: with its mapping row (if any) and log line, or never. */
  datatype Resolution = Resolved(row: Option<Row>, line: string, resp: nat, copy: nat) | Stalled

  /**
   * The `do { ... } while (crearControlMenu)` loop for an unmatched row, reading responses from
   * index `resp` and copy outcomes from index `copy`. "y" asks for a name and copies; a failed copy
   * asks again from the start; "n" gives up.
   */
  function Resolve(v: Version, id1: string, name1: string, sheet1Name: string,
                   responses: seq<string>, answers: seq<Option<bool>>, resp: nat, copies: seq<CopyOutcome>, copy: nat): (r: Resolution)
    requires |answers| == |responses| && resp <= |responses|
    decreases |responses| - resp
    ensures r.Resolved? ==> resp < r.resp <= |responses| && copy <= r.copy
  {
    var asked := FirstAnswer(answers, resp);
    if asked.0.None? then Stalled
    else if !asked.0.value then Resolved(None, RefusedLine(v, sheet1Name), asked.1, copy)
    else if asked.1 == |responses| then Stalled
    else
      var newName := CopyName(v, responses[asked.1]);
      match Attempt(copies, copy)
      case Copied(first) => Resolved(Some([id1, name1, first.docId, first.name, newName]),
                                     CreatedLine(newName, first.docId), asked.1 + 1, copy + 1)
      case CopyFailed => Resolve(v, id1, name1, sheet1Name, responses, answers, asked.1 + 1, copies, copy + 1)
  }

  /**
   * A dialog that creates the control used the first successful copy attempt from `copy` on and the
   * name typed right after the accepted "y"; a dialog that gives up logs the refusal.
   */
  lemma ResolveShape(v: Version, id1: string, name1: string, sheet1Name: string,
                                        responses: seq<string>, answers: seq<Option<bool>>, resp: nat, copies: seq<CopyOutcome>, copy: nat)
    requires |answers| == |responses| && resp <= |responses|
    ensures var r := Resolve(v, id1, name1, sheet1Name, responses, answers, resp, copies, copy);
      && (r.Resolved? && r.row.Some? ==>
         copy < r.copy && Attempt(copies, r.copy - 1).Copied?
         && r.row.value == [id1, name1, Attempt(copies, r.copy - 1).first.docId, Attempt(copies, r.copy - 1).first.name,
                            CopyName(v, responses[r.resp - 1])]
         && r.line == CreatedLine(r.row.value[4], r.row.value[2]))
      && (r.Resolved? && r.row.None? ==> r.line == RefusedLine(v, sheet1Name))
      && (r.Resolved? ==> forall k :: copy <= k < (if r.row.Some? then r.copy - 1 else r.copy) ==> Attempt(copies, k).CopyFailed?)
  {
    ResolveCreated(v, id1, name1, sheet1Name, responses, answers, resp, copies, copy);
    ResolveRest(v, id1, name1, sheet1Name, responses, answers, resp, copies, copy);
  }

  /** The created-control half of `ResolveShape`. */
  lemma {:induction false} ResolveCreated(v: Version, id1: string, name1: string, sheet1Name: string,
                                        responses: seq<string>, answers: seq<Option<bool>>, resp: nat, copies: seq<CopyOutcome>, copy: nat)
    requires |answers| == |responses| && resp <= |responses|
    ensures var r := Resolve(v, id1, name1, sheet1Name, responses, answers, resp, copies, copy);
      r.Resolved? && r.row.Some? ==>
         copy < r.copy && Attempt(copies, r.copy - 1).Copied?
         && r.row.value == [id1, name1, Attempt(copies, r.copy - 1).first.docId, Attempt(copies, r.copy - 1).first.name,
                            CopyName(v, responses[r.resp - 1])]
         && r.line == CreatedLine(r.row.value[4], r.row.value[2])
    decreases |responses| - resp, 1
  {
    var asked := FirstAnswer(answers, resp);
    if asked.0 == Some(false) {
      RefusalLogsOnce(v, id1, name1, sheet1Name, responses, answers, resp, copies, copy);
    } else if asked.0 == Some(true) && asked.1 < |responses| {
      if Attempt(copies, copy).Copied? {
        CopiedShape(v, id1, name1, sheet1Name, responses, answers, resp, copies, copy);
      } else {
        RetriedShape(v, id1, name1, sheet1Name, responses, answers, resp, copies, copy);
      }
    } else {
      UnansweredStalls(v, id1, name1, sheet1Name, responses, answers, resp, copies, copy);
    }
  }

  /** `ResolveCreated` for a dialog whose first "y" is followed by a name and a successful copy. */
  lemma CopiedShape(v: Version, id1: string, name1: string, sheet1Name: string,
                    responses: seq<string>, answers: seq<Option<bool>>, resp: nat, copies: seq<CopyOutcome>, copy: nat)
    requires |answers| == |responses| && resp <= |responses|
    requires FirstAnswer(answers, resp).0 == Some(true)
    requires FirstAnswer(answers, resp).1 < |responses|
    requires Attempt(copies, copy).Copied?
    ensures var r := Resolve(v, id1, name1, sheet1Name, responses, answers, resp, copies, copy);
      r.Resolved? && r.row.Some? && copy < r.copy && Attempt(copies, r.copy - 1).Copied?
      && r.row.value == [id1, name1, Attempt(copies, r.copy - 1).first.docId, Attempt(copies, r.copy - 1).first.name,
                         CopyName(v, responses[r.resp - 1])]
      && r.line == CreatedLine(r.row.value[4], r.row.value[2])
  {
    CopiedEnds(v, id1, name1, sheet1Name, responses, answers, resp, copies, copy);
    var r := Resolve(v, id1, name1, sheet1Name, responses, answers, resp, copies, copy);
    assert r.copy - 1 == copy && r.resp - 1 == FirstAnswer(answers, resp).1;
  }

  /** `ResolveCreated` for a dialog whose first "y" is followed by a name and a failed copy. */
  lemma {:induction false} RetriedShape(v: Version, id1: string, name1: string, sheet1Name: string,
                    responses: seq<string>, answers: seq<Option<bool>>, resp: nat, copies: seq<CopyOutcome>, copy: nat)
    requires |answers| == |responses| && resp <= |responses|
    requires FirstAnswer(answers, resp).0 == Some(true)
    requires FirstAnswer(answers, resp).1 < |responses|
    requires Attempt(copies, copy).CopyFailed?
    ensures var r := Resolve(v, id1, name1, sheet1Name, responses, answers, resp, copies, copy);
      r.Resolved? && r.row.Some? ==>
         copy < r.copy && Attempt(copies, r.copy - 1).Copied?
         && r.row.value == [id1, name1, Attempt(copies, r.copy - 1).first.docId, Attempt(copies, r.copy - 1).first.name,
                            CopyName(v, responses[r.resp - 1])]
         && r.line == CreatedLine(r.row.value[4], r.row.value[2])
    decreases |responses| - resp, 0
  {
    var resp' := FirstAnswer(answers, resp).1 + 1;
    RetryFrom(v, id1, name1, sheet1Name, responses, answers, resp, copies, copy, resp', copy + 1);
    ResolveCreated(v, id1, name1, sheet1Name, responses, answers, resp', copies, copy + 1);
  }

  /** The refusal and failed-copy half of `ResolveShape`. */
  lemma {:induction false} ResolveRest(v: Version, id1: string, name1: string, sheet1Name: string,
                                        responses: seq<string>, answers: seq<Option<bool>>, resp: nat, copies: seq<CopyOutcome>, copy: nat)
    requires |answers| == |responses| && resp <= |responses|
    ensures var r := Resolve(v, id1, name1, sheet1Name, responses, answers, resp, copies, copy);
      && (r.Resolved? && r.row.None? ==> r.line == RefusedLine(v, sheet1Name))
      && (r.Resolved? ==> forall k :: copy <= k < (if r.row.Some? then r.copy - 1 else r.copy) ==> Attempt(copies, k).CopyFailed?)
    decreases |responses| - resp
  {
    var asked := FirstAnswer(answers, resp);
    if asked.0 == Some(false) {
      RefusalLogsOnce(v, id1, name1, sheet1Name, responses, answers, resp, copies, copy);
    } else if asked.0 == Some(true) && asked.1 < |responses| {
      if Attempt(copies, copy).Copied? {
        CopiedEnds(v, id1, name1, sheet1Name, responses, answers, resp, copies, copy);
      } else {
        var resp' := asked.1 + 1;
        RetryFrom(v, id1, name1, sheet1Name, responses, answers, resp, copies, copy, resp', copy + 1);
        ResolveRest(v, id1, name1, sheet1Name, responses, answers, resp', copies, copy + 1);
      }
    } else {
      UnansweredStalls(v, id1, name1, sheet1Name, responses, answers, resp, copies, copy);
    }
  }

  /** Answering "n" ends the dialog with exactly one warning and no mapping row. */
  lemma {:induction false} RefusalLogsOnce(v: Version, id1: string, name1: string, sheet1Name: string,
                        responses: seq<string>, answers: seq<Option<bool>>, resp: nat, copies: seq<CopyOutcome>, copy: nat)
    requires |answers| == |responses| && resp <= |responses|
    requires FirstAnswer(answers, resp).0 == Some(false)
    ensures Resolve(v, id1, name1, sheet1Name, responses, answers, resp, copies, copy)
            == Resolved(None, RefusedLine(v, sheet1Name), FirstAnswer(answers, resp).1, copy)
  {
  }

  /** A copy that fails does not end the dialog: the user is asked again, and the next attempt is used. */
  lemma {:induction false} FailedCopyAsksAgain(v: Version, id1: string, name1: string, sheet1Name: string,
                            responses: seq<string>, answers: seq<Option<bool>>, resp: nat, copies: seq<CopyOutcome>, copy: nat)
    requires |answers| == |responses| && resp <= |responses|
    requires FirstAnswer(answers, resp).0 == Some(true)
    requires FirstAnswer(answers, resp).1 < |responses|
    requires Attempt(copies, copy).CopyFailed?
    ensures Resolve(v, id1, name1, sheet1Name, responses, answers, resp, copies, copy)
            == Resolve(v, id1, name1, sheet1Name, responses, answers, FirstAnswer(answers, resp).1 + 1, copies, copy + 1)
  {
  }

  /** The retry after a failed copy, stated for the response and attempt indices it restarts at. */
  lemma {:induction false} RetryFrom(v: Version, id1: string, name1: string, sheet1Name: string,
                  responses: seq<string>, answers: seq<Option<bool>>, resp: nat, copies: seq<CopyOutcome>, copy: nat,
                  resp': nat, copy': nat)
    requires |answers| == |responses| && resp <= |responses|
    requires FirstAnswer(answers, resp).0 == Some(true)
    requires FirstAnswer(answers, resp).1 < |responses|
    requires Attempt(copies, copy).CopyFailed?
    requires resp' == FirstAnswer(answers, resp).1 + 1 && copy' == copy + 1
    ensures resp < resp' <= |responses|
    ensures Resolve(v, id1, name1, sheet1Name, responses, answers, resp', copies, copy')
            == Resolve(v, id1, name1, sheet1Name, responses, answers, resp, copies, copy)
  {
    FailedCopyAsksAgain(v, id1, name1, sheet1Name, responses, answers, resp, copies, copy);
  }

  /** A successful copy after a "y" and a typed name ends the dialog with the mapping row for that copy. */
  lemma {:induction false} CopiedEnds(v: Version, id1: string, name1: string, sheet1Name: string,
                   responses: seq<string>, answers: seq<Option<bool>>, resp: nat, copies: seq<CopyOutcome>, copy: nat)
    requires |answers| == |responses| && resp <= |responses|
    requires FirstAnswer(answers, resp).0 == Some(true)
    requires FirstAnswer(answers, resp).1 < |responses|
    requires Attempt(copies, copy).Copied?
    ensures var n := FirstAnswer(answers, resp).1;
      var first := Attempt(copies, copy).first;
      var newName := CopyName(v, responses[n]);
      Resolve(v, id1, name1, sheet1Name, responses, answers, resp, copies, copy)
        == Resolved(Some([id1, name1, first.docId, first.name, newName]), CreatedLine(newName, first.docId), n + 1, copy + 1)
  {
  }

  /** Running out of responses before a "y" or "n", or right after a "y", leaves the dialog open. */
  lemma {:induction false} UnansweredStalls(v: Version, id1: string, name1: string, sheet1Name: string,
                   responses: seq<string>, answers: seq<Option<bool>>, resp: nat, copies: seq<CopyOutcome>, copy: nat)
    requires |answers| == |responses| && resp <= |responses|
    requires FirstAnswer(answers, resp).0 != Some(false)
    requires !(FirstAnswer(answers, resp).0 == Some(true) && FirstAnswer(answers, resp).1 < |responses|)
    ensures Resolve(v, id1, name1, sheet1Name, responses, answers, resp, copies, copy) == Stalled
  {
  }

  /** The responses " y ", "Nuevo": a padded yes, then the name of the new control. */
  const PaddedYes: seq<string> := [" y ", "Nuevo"]

  lemma PaddedYesReadsAsYes()
    ensures FirstAnswer(Answers(Current, PaddedYes), 0) == (Some(true), 1)
  {
    PaddedAnswerDiffers();
    assert ToLower(PaddedYes[0]) == ToLower(" Y ");
  }

  lemma PaddedYesName()
    ensures CopyName(Current, PaddedYes[1]) == "Nuevo"
  {
    assert !IsSpace('N') && !IsSpace('o');
    assert TrimRight("Nuevo") == "Nuevo";
  }

  /** With a successful copy, the current version reads " y " as yes and creates the control "Nuevo". */
  lemma PaddedYesCreatesInCurrent(id1: string, name1: string, sheet1Name: string, first: Sheet)
    ensures Resolve(Current, id1, name1, sheet1Name, PaddedYes, Answers(Current, PaddedYes), 0, [Copied(first)], 0)
      == Resolved(Some([id1, name1, first.docId, first.name, "Nuevo"]), CreatedLine("Nuevo", first.docId), 2, 1)
  {
    PaddedYesReadsAsYes();
    PaddedYesName();
  }

  /** The legacy version rejects " y ", and "Nuevo" is no answer either, so it waits for more. */
  lemma PaddedYesStallsInLegacy(id1: string, name1: string, sheet1Name: string, first: Sheet)
    ensures Resolve(Legacy, id1, name1, sheet1Name, PaddedYes, Answers(Legacy, PaddedYes), 0, [Copied(first)], 0) == Stalled
  {
    PaddedAnswerDiffers();
    assert ToLower(PaddedYes[0]) == ToLower(" Y ");
    assert ToLower("Nuevo") == "nuevo";
    var legacy := Answers(Legacy, PaddedYes);
    assert legacy == [None, None];
    assert FirstAnswer(legacy, 2) == (None, 2);
  }

  /**
   * How the dialog for tested row i ends when it reads responses from index `resp` and copy outcomes
   * from index `copy` on. The comparison loop below is stated for any such function; `DialogOf` is
   * the macros' own.
   */
  type Dialog = (nat, nat, nat) -> Resolution

  /** The y/n dialog of `compararSheets` for tested row i, which names the row's id and tab. */
  function DialogOf(v: Version, data1: Cells, sheet1Name: string, responses: seq<string>, answers: seq<Option<bool>>,
                    copies: seq<CopyOutcome>): Dialog
  {
    (i: nat, resp: nat, copy: nat) =>
      if |answers| == |responses| && resp <= |responses|
      then Resolve(v, Get(data1, i, 0), Get(data1, i, 1), sheet1Name, responses, answers, resp, copies, copy)
      else Stalled
  }

  /**
   * A dialog end that a comparison can rely on: it used at least one response and no more than there
   * are, no copy attempt is taken back, and a created control's mapping row comes from the latest
   * attempt, a successful one, and starts with tested row i's id and tab.
   */
  predicate SoundEnd(data1: Cells, copies: seq<CopyOutcome>, limit: nat, i: nat, resp: nat, copy: nat, r: Resolution)
  {
    r.Resolved? ==>
      resp < r.resp <= limit && copy <= r.copy
      && (r.row.Some? ==>
            copy < r.copy && Attempt(copies, r.copy - 1).Copied?
            && |r.row.value| == 5 && r.row.value[0] == Get(data1, i, 0) && r.row.value[1] == Get(data1, i, 1))
  }

  ghost predicate SoundDialog(ask: Dialog, data1: Cells, copies: seq<CopyOutcome>, limit: nat)
  {
    forall i, resp, copy :: SoundEnd(data1, copies, limit, i, resp, copy, ask(i, resp, copy))
  }

  /** The macros' dialog is sound for the given responses and copy outcomes. */
  lemma DialogOfSound(v: Version, data1: Cells, sheet1Name: string, responses: seq<string>, answers: seq<Option<bool>>,
                      copies: seq<CopyOutcome>)
    ensures SoundDialog(DialogOf(v, data1, sheet1Name, responses, answers, copies), data1, copies, |responses|)
  {
    var ask := DialogOf(v, data1, sheet1Name, responses, answers, copies);
    forall i: nat, resp: nat, copy: nat
      ensures SoundEnd(data1, copies, |responses|, i, resp, copy, ask(i, resp, copy))
    {
      if |answers| == |responses| && resp <= |responses| {
        ResolveShape(v, Get(data1, i, 0), Get(data1, i, 1), sheet1Name, responses, answers, resp, copies, copy);
      }
    }
  }

  /** What handling one tested row adds: a mapping row, a log line, a created copy; or the dialog never ends. */
  datatype RowOutcome = RowOutcome(row: Option<Row>, line: Option<string>, made: Option<nat>, resp: nat, copy: nat,
                                   stalled: bool)

  /** A matched tested row: its id and tab (columns A, B), then the documented entry. */
  function MatchRow(data1: Cells, i: nat, e: PoolEntry): Row
  {
    [Get(data1, i, 0), Get(data1, i, 1), e.id, e.tab, e.key]
  }

  /**
   * Tested row i with responses from `resp` and copy outcomes from `copy` on. A matched row writes
   * the documented entry that matched first and consumes no input; an unmatched row goes to the
   * dialog, and a created control records the copy attempt it came from.
   */
  function HandleRow(data1: Cells, i: nat, pool: seq<PoolEntry>, ask: Dialog, resp: nat, copy: nat): RowOutcome
  {
    match FirstMatch(pool, Get(data1, i, 2))
    case Some(m) => RowOutcome(Some(MatchRow(data1, i, pool[m])), None, None, resp, copy, false)
    case None =>
      match ask(i, resp, copy)
      case Stalled => RowOutcome(None, None, None, resp, copy, true)
      case Resolved(row, line, resp', copy') =>
        RowOutcome(row, Some(line), if row.Some? && copy' > 0 then Some(copy' - 1) else None, resp', copy', false)
  }

  /**
   * One tested row, with a sound dialog: a match writes its first matching entry and nothing else;
   * otherwise the dialog logs one line unless it stalls, and creates a copy exactly when it writes a
   * mapping row. At most one mapping row, carrying the tested row's id and tab.
   */
  lemma HandleRowShape(data1: Cells, i: nat, pool: seq<PoolEntry>, ask: Dialog, copies: seq<CopyOutcome>, limit: nat,
                       resp: nat, copy: nat)
    requires SoundEnd(data1, copies, limit, i, resp, copy, ask(i, resp, copy))
    ensures var o := HandleRow(data1, i, pool, ask, resp, copy);
      && resp <= o.resp && copy <= o.copy && (resp <= limit ==> o.resp <= limit)
      && (FirstMatch(pool, Get(data1, i, 2)).Some? ==>
            o == RowOutcome(Some(MatchRow(data1, i, pool[FirstMatch(pool, Get(data1, i, 2)).value])), None, None, resp, copy, false))
      && (FirstMatch(pool, Get(data1, i, 2)).None? ==> (o.line.Some? <==> !o.stalled) && (o.made.Some? <==> o.row.Some?))
      && (o.stalled ==> o.row.None? && o.line.None?)
      && (o.row.Some? ==> |o.row.value| == 5 && o.row.value[0] == Get(data1, i, 0) && o.row.value[1] == Get(data1, i, 1))
      && (o.made.Some? ==> copy <= o.made.value < o.copy && Attempt(copies, o.made.value).Copied?)
  {
  }

  /** The comparison so far: mapping rows with the tested row each came from, log lines, used inputs. */
  datatype Run = Run(rows: seq<Row>, origins: seq<nat>, log: seq<string>, resp: nat, copy: nat,
                     made: seq<nat>, stalled: bool)

  /** The state after tested row i had outcome o. */
  function Apply(s: Run, i: nat, o: RowOutcome): Run
  {
    Run(s.rows + Listed(o.row), s.origins + (if o.row.Some? then [i] else []), s.log + Listed(o.line),
        o.resp, o.copy, s.made + Listed(o.made), o.stalled)
  }

  /** Tested row i, handled after state s; nothing happens once a dialog has stalled. */
  function RowStep(data1: Cells, i: nat, pool: seq<PoolEntry>, ask: Dialog, s: Run): Run
  {
    if s.stalled then s else Apply(s, i, HandleRow(data1, i, pool, ask, s.resp, s.copy))
  }

  /** Tested rows 1..n-1 handled in order, from no mapping row, no log line and no input used. */
  function RunUpTo(data1: Cells, pool: seq<PoolEntry>, ask: Dialog, n: nat): Run
  {
    if n <= 1 then Run([], [], [], 0, 0, [], false)
    else RowStep(data1, n - 1, pool, ask, RunUpTo(data1, pool, ask, n - 1))
  }

  /** One more tested row: the run up to `next` is the run up to `i` followed by row `i`. */
  lemma RunUpToNext(data1: Cells, pool: seq<PoolEntry>, ask: Dialog, i: nat, next: nat)
    requires 1 <= i && next == i + 1
    ensures RunUpTo(data1, pool, ask, next) == RowStep(data1, i, pool, ask, RunUpTo(data1, pool, ask, i))
  {
    assert next - 1 == i;
  }

  /**
   * Mapping rows and their origins: one tested row of 1..n-1 per mapping row, in increasing order,
   * each mapping row starting with its tested row's id and tab.
   */
  predicate RowsInOrder(data1: Cells, n: nat, s: Run)
  {
    && |s.rows| == |s.origins|
    && (forall k :: 0 <= k < |s.origins| ==> 1 <= s.origins[k] < n)
    && (forall k, l :: 0 <= k < l < |s.origins| ==> s.origins[k] < s.origins[l])
    && (forall k :: 0 <= k < |s.rows| ==>
          |s.rows[k]| == 5 && s.rows[k][0] == Get(data1, s.origins[k], 0) && s.rows[k][1] == Get(data1, s.origins[k], 1))
  }

  /** Every created copy is a successful attempt already made, in increasing order: none is used twice. */
  predicate CopiesUsedOnce(copies: seq<CopyOutcome>, s: Run)
  {
    && (forall k :: 0 <= k < |s.made| ==> s.made[k] < s.copy && Attempt(copies, s.made[k]).Copied?)
    && (forall k, l :: 0 <= k < l < |s.made| ==> s.made[k] < s.made[l])
  }

  /** A handled row whose mapping row carries its id and tab keeps the mapping rows in order. */
  lemma ApplyKeepsOrder(data1: Cells, i: nat, s: Run, o: RowOutcome)
    requires 1 <= i && RowsInOrder(data1, i, s)
    requires o.row.Some? ==> |o.row.value| == 5 && o.row.value[0] == Get(data1, i, 0) && o.row.value[1] == Get(data1, i, 1)
    ensures RowsInOrder(data1, i + 1, Apply(s, i, o))
  {
    var t := Apply(s, i, o);
    if o.row.Some? {
      assert t.rows == s.rows + [o.row.value] && t.origins == s.origins + [i];
      forall k | 0 <= k < |t.rows|
        ensures |t.rows[k]| == 5 && t.rows[k][0] == Get(data1, t.origins[k], 0) && t.rows[k][1] == Get(data1, t.origins[k], 1)
      {
        if k < |s.rows| {
          assert t.rows[k] == s.rows[k] && t.origins[k] == s.origins[k];
        }
      }
    } else {
      assert t.rows == s.rows && t.origins == s.origins;
    }
  }

  /** A handled row whose copy, if any, is a successful attempt of its own keeps each copy used once. */
  lemma ApplyKeepsCopies(copies: seq<CopyOutcome>, i: nat, s: Run, o: RowOutcome)
    requires CopiesUsedOnce(copies, s) && s.copy <= o.copy
    requires o.made.Some? ==> s.copy <= o.made.value < o.copy && Attempt(copies, o.made.value).Copied?
    ensures CopiesUsedOnce(copies, Apply(s, i, o))
  {
    var t := Apply(s, i, o);
    assert t.made == s.made + Listed(o.made);
  }

  /** At most one mapping row per tested row, in tested-row order, each starting with that row's id and tab. */
  lemma {:induction false} RunRows(data1: Cells, pool: seq<PoolEntry>, ask: Dialog, copies: seq<CopyOutcome>, limit: nat, n: nat)
    requires SoundDialog(ask, data1, copies, limit)
    ensures RowsInOrder(data1, n, RunUpTo(data1, pool, ask, n))
    decreases n
  {
    if n > 1 {
      var i := n - 1;
      RunRows(data1, pool, ask, copies, limit, i);
      var s := RunUpTo(data1, pool, ask, i);
      RunUpToNext(data1, pool, ask, i, n);
      if !s.stalled {
        HandleRowShape(data1, i, pool, ask, copies, limit, s.resp, s.copy);
        ApplyKeepsOrder(data1, i, s, HandleRow(data1, i, pool, ask, s.resp, s.copy));
      }
    }
  }

  /** The comparison reads no more responses than there are, and every copy it created is a distinct successful attempt. */
  lemma {:induction false} RunCopies(data1: Cells, pool: seq<PoolEntry>, ask: Dialog, copies: seq<CopyOutcome>, limit: nat, n: nat)
    requires SoundDialog(ask, data1, copies, limit)
    ensures RunUpTo(data1, pool, ask, n).resp <= limit
    ensures CopiesUsedOnce(copies, RunUpTo(data1, pool, ask, n))
    decreases n
  {
    if n > 1 {
      var i := n - 1;
      RunCopies(data1, pool, ask, copies, limit, i);
      var s := RunUpTo(data1, pool, ask, i);
      RunUpToNext(data1, pool, ask, i, n);
      if !s.stalled {
        HandleRowShape(data1, i, pool, ask, copies, limit, s.resp, s.copy);
        ApplyKeepsCopies(copies, i, s, HandleRow(data1, i, pool, ask, s.resp, s.copy));
      }
    }
  }

  /** Once a dialog has stalled, the later tested rows are never reached. */
  lemma {:induction false} StalledStays(data1: Cells, pool: seq<PoolEntry>, ask: Dialog, n: nat, m: nat)
    requires n <= m && RunUpTo(data1, pool, ask, n).stalled
    ensures RunUpTo(data1, pool, ask, m) == RunUpTo(data1, pool, ask, n)
    decreases m
  {
    if n < m {
      StalledStays(data1, pool, ask, n, m - 1);
    }
  }

  /** Once the loop stops, by a stall or past the last tested row, the run is final. */
  lemma RunEnds(data1: Cells, pool: seq<PoolEntry>, ask: Dialog, i: nat)
    requires 1 <= i && (i <= |data1| || i == 1)
    requires RunUpTo(data1, pool, ask, i).stalled || |data1| <= i
    ensures RunUpTo(data1, pool, ask, |data1|) == RunUpTo(data1, pool, ask, i)
  {
    if i <= |data1| && RunUpTo(data1, pool, ask, i).stalled {
      StalledStays(data1, pool, ask, i, |data1|);
    }
  }

  /** A tested row that matches adds its mapping row and nothing else. */
  lemma MatchedStep(data1: Cells, i: nat, pool: seq<PoolEntry>, ask: Dialog, s: Run)
    requires !s.stalled && FirstMatch(pool, Get(data1, i, 2)).Some?
    ensures RowStep(data1, i, pool, ask, s)
      == s.(rows := s.rows + [MatchRow(data1, i, pool[FirstMatch(pool, Get(data1, i, 2)).value])], origins := s.origins + [i])
  {
    var o := HandleRow(data1, i, pool, ask, s.resp, s.copy);
    assert Listed(o.line) == [] && Listed(o.made) == [];
  }

  /** When every tested row matches, there is no dialog: no response and no copy is used, and nothing is logged. */
  lemma {:induction false} AllMatchedNoDialog(data1: Cells, pool: seq<PoolEntry>, ask: Dialog, n: nat)
    requires forall i :: 1 <= i < n ==> FirstMatch(pool, Get(data1, i, 2)).Some?
    ensures var s := RunUpTo(data1, pool, ask, n);
      s.log == [] && s.resp == 0 && s.copy == 0 && s.made == [] && !s.stalled && |s.rows| == (if n == 0 then 0 else n - 1)
    decreases n
  {
    if n > 1 {
      var i := n - 1;
      AllMatchedNoDialog(data1, pool, ask, i);
      RunUpToNext(data1, pool, ask, i, n);
      MatchedStep(data1, i, pool, ask, RunUpTo(data1, pool, ask, i));
    }
  }

  /** Mapping row `r` pairs tested row i with the first documented entry its name matches. */
  predicate IsMatchRow(data1: Cells, pool: seq<PoolEntry>, i: nat, r: Row)
  {
    FirstMatch(pool, Get(data1, i, 2)).Some? && r == MatchRow(data1, i, pool[FirstMatch(pool, Get(data1, i, 2)).value])
  }

  /** Mapping row k holds tested row k + 1 next to the first documented entry it matches. */
  predicate RowsAreMatches(data1: Cells, pool: seq<PoolEntry>, rows: seq<Row>)
  {
    forall k :: 0 <= k < |rows| ==> IsMatchRow(data1, pool, k + 1, rows[k])
  }

  lemma AppendMatch(data1: Cells, pool: seq<PoolEntry>, rows: seq<Row>, i: nat)
    requires RowsAreMatches(data1, pool, rows) && |rows| + 1 == i && FirstMatch(pool, Get(data1, i, 2)).Some?
    ensures RowsAreMatches(data1, pool, rows + [MatchRow(data1, i, pool[FirstMatch(pool, Get(data1, i, 2)).value])])
  {
    var t := rows + [MatchRow(data1, i, pool[FirstMatch(pool, Get(data1, i, 2)).value])];
    forall k | 0 <= k < |t|
      ensures IsMatchRow(data1, pool, k + 1, t[k])
    {
      if k < |rows| {
        assert t[k] == rows[k];
      }
    }
  }

  /** When every tested row matches, mapping row k holds tested row k + 1 next to the first documented entry it matches. */
  lemma {:induction false} AllMatchedRows(data1: Cells, pool: seq<PoolEntry>, ask: Dialog, n: nat)
    requires forall i :: 1 <= i < n ==> FirstMatch(pool, Get(data1, i, 2)).Some?
    ensures RowsAreMatches(data1, pool, RunUpTo(data1, pool, ask, n).rows)
    decreases n
  {
    if n > 1 {
      var i := n - 1;
      AllMatchedRows(data1, pool, ask, i);
      AllMatchedNoDialog(data1, pool, ask, i);
      var s := RunUpTo(data1, pool, ask, i);
      RunUpToNext(data1, pool, ask, i, n);
      MatchedStep(data1, i, pool, ask, s);
      AppendMatch(data1, pool, s.rows, i);
    }
  }

  /** How many of the tested rows 1..n-1 match no documented name. */
  function Unmatched(data1: Cells, pool: seq<PoolEntry>, n: nat): nat
  {
    if n <= 1 then 0 else Unmatched(data1, pool, n - 1) + (if FirstMatch(pool, Get(data1, n - 1, 2)).None? then 1 else 0)
  }

  /** Unless a dialog stalled, every unmatched tested row logs exactly one line and matched rows log none. */
  lemma {:induction false} OneLinePerUnmatchedRow(data1: Cells, pool: seq<PoolEntry>, ask: Dialog, n: nat)
    requires !RunUpTo(data1, pool, ask, n).stalled
    ensures |RunUpTo(data1, pool, ask, n).log| == Unmatched(data1, pool, n)
    decreases n
  {
    if n > 1 {
      OneLinePerUnmatchedRow(data1, pool, ask, n - 1);
    }
  }

  /** A first tested row that matches gives the first mapping row. */
  lemma FirstRowMatched(data1: Cells, pool: seq<PoolEntry>, ask: Dialog)
    requires FirstMatch(pool, Get(data1, 1, 2)).Some?
    ensures RunUpTo(data1, pool, ask, 2).rows == [MatchRow(data1, 1, pool[FirstMatch(pool, Get(data1, 1, 2)).value])]
  {
    MatchedStep(data1, 1, pool, ask, RunUpTo(data1, pool, ask, 1));
  }

  /**
   * The pool's first name is the documented inventory's row 2, column C; a tested inventory with the
   * same name in row 2 has that row matched to the pool's first entry.
   */
  lemma HeaderRowMapsToHeader(data1: Cells, data2: Cells)
    requires 2 <= |data2|
    requires Get(data1, 1, 2) == Get(data2, 1, 2)
    ensures var pool := BuildPool(data2, |data2|);
      pool != [] && pool[0].key == Get(data2, 1, 2) && FirstMatch(pool, Get(data1, 1, 2)) == Some(0)
  {
    var pool := BuildPool(data2, |data2|);
    var names := NameColumn(data2, |data2|);
    PoolKeyOrder(data2, |data2|);
    NameColumnAt(data2, |data2|, 0);
    DedupHead(names);
    assert pool[0].key == Keys(pool)[0] == names[0];
    MatchesSame(Get(data1, 1, 2), pool[0].key);
    FirstMatchHead(pool, Get(data1, 1, 2));
  }

  /**
   * Between two inventories written by the capture, the header row of the tested one matches the
   * pool's first entry, the documented header row, as long as no control is itself named like the
   * name column's header.
   */
  lemma CapturedHeaderEntry(root1: string, recs1: seq<Record>, root2: string, recs2: seq<Record>)
    requires forall k :: 0 <= k < |recs2| ==> recs2[k].control != Headers[2]
    ensures var data1 := InventoryGrid(root1, recs1);
      var data2 := InventoryGrid(root2, recs2);
      var pool := BuildPool(data2, |data2|);
      FirstMatch(pool, Get(data1, 1, 2)) == Some(0)
      && MatchRow(data1, 1, pool[0]) == [Headers[0], Headers[1], Headers[0], Headers[1], Headers[2]]
  {
    var data1 := InventoryGrid(root1, recs1);
    var data2 := InventoryGrid(root2, recs2);
    CapturedHeaderRow(root1, recs1);
    CapturedHeaderRow(root2, recs2);
    HeaderRowMapsToHeader(data1, data2);
    CapturedPoolHead(root2, recs2);
  }

  /** A captured inventory: the headers in row 2 and the recorded names in column C below them. */
  lemma CapturedHeaderRow(root: string, recs: seq<Record>)
    ensures var g := InventoryGrid(root, recs);
      && 2 <= |g| && Get(g, 1, 0) == Headers[0] && Get(g, 1, 1) == Headers[1] && Get(g, 1, 2) == Headers[2]
      && forall j :: 2 <= j < |g| ==> Get(g, j, 2) == recs[j - 2].control
  {
    var g := InventoryGrid(root, recs);
    InventoryRows(root, recs);
    forall j | 2 <= j < |g|
      ensures Get(g, j, 2) == recs[j - 2].control
    {
      assert g[(j - 2) + 2] == RecordRow(recs[j - 2]);
    }
  }

  /** With no control named like the name column's header, the pool starts with the header row. */
  lemma CapturedPoolHead(root: string, recs: seq<Record>)
    requires forall k :: 0 <= k < |recs| ==> recs[k].control != Headers[2]
    ensures var g := InventoryGrid(root, recs);
      var pool := BuildPool(g, |g|);
      pool != [] && pool[0] == PoolEntry(Headers[2], Headers[0], Headers[1])
  {
    var g := InventoryGrid(root, recs);
    CapturedHeaderRow(root, recs);
    HeaderRowMapsToHeader(g, g);
    PoolLastWins(g, |g|, 0);
    LastNamedIsOnly(g, |g|, Headers[2], 1);
  }

  /** So the first mapping row between two captured inventories pairs their header rows. */
  lemma CapturedHeadersMapped(root1: string, recs1: seq<Record>, root2: string, recs2: seq<Record>, ask: Dialog)
    requires forall k :: 0 <= k < |recs2| ==> recs2[k].control != Headers[2]
    ensures var data2 := InventoryGrid(root2, recs2);
      RunUpTo(InventoryGrid(root1, recs1), BuildPool(data2, |data2|), ask, 2).rows
      == [[Headers[0], Headers[1], Headers[0], Headers[1], Headers[2]]]
  {
    CapturedHeaderEntry(root1, recs1, root2, recs2);
    var data2 := InventoryGrid(root2, recs2);
    FirstRowMatched(InventoryGrid(root1, recs1), BuildPool(data2, |data2|), ask);
  }

  /** If row j is the only one of 1..n-1 named k, it is the last one. */
  lemma {:induction false} LastNamedIsOnly(data: Cells, n: nat, k: string, j: nat)
    requires 1 <= j < n && Get(data, j, 2) == k
    requires forall i :: j < i < n ==> Get(data, i, 2) != k
    ensures LastRowNamed(data, n, k) == j
    decreases n
  {
    if n - 1 > j {
      LastNamedIsOnly(data, n - 1, k, j);
    }
  }

  /** Five values written one at a time, left to right, on the row just below the last one append a row. */
  lemma AppendFive(g: Cells, vs: Row, g1: Cells, g2: Cells, g3: Cells, g4: Cells, g5: Cells)
    requires |vs| == 5
    requires g1 == SetCell(g, |g|, 0, vs[0]) && g2 == SetCell(g1, |g|, 1, vs[1]) && g3 == SetCell(g2, |g|, 2, vs[2])
    requires g4 == SetCell(g3, |g|, 3, vs[3]) && g5 == SetCell(g4, |g|, 4, vs[4])
    ensures g5 == g + [vs]
  {
    SetCellStartsRow(g, vs[0]);
    assert [vs[0]] == vs[..1];
    SetCellExtendsRow(g, vs[..1], vs[1]);
    assert vs[..1] + [vs[1]] == vs[..2];
    SetCellExtendsRow(g, vs[..2], vs[2]);
    assert vs[..2] + [vs[2]] == vs[..3];
    SetCellExtendsRow(g, vs[..3], vs[3]);
    assert vs[..3] + [vs[3]] == vs[..4];
    SetCellExtendsRow(g, vs[..4], vs[4]);
    assert vs[..4] + [vs[4]] == vs;
  }

  /** The five `setValue` calls on mapping row `row` (the next free one), then `row++`. */
  method WriteMappingRow(mapping: Sheet, row: nat, vs: Row) returns (next: nat)
    requires |vs| == 5 && row == |mapping.cells|
    modifies mapping
    ensures mapping.cells == old(mapping.cells) + [vs]
    ensures next == row + 1
  {
    ghost var g := mapping.cells;
    mapping.SetValue(row, 0, vs[0]);
    ghost var g1 := mapping.cells;
    mapping.SetValue(row, 1, vs[1]);
    ghost var g2 := mapping.cells;
    mapping.SetValue(row, 2, vs[2]);
    ghost var g3 := mapping.cells;
    mapping.SetValue(row, 3, vs[3]);
    ghost var g4 := mapping.cells;
    mapping.SetValue(row, 4, vs[4]);
    AppendFive(g, vs, g1, g2, g3, g4, mapping.cells);
    next := row + 1;
  }

  /** The ranges the legacy version clears on a new copy: B13:F13, B9:F9, B7:F7, A5, B5, C5, D5, E5, F5, F15. */
  const CreatedCopyRanges: seq<Range> :=
    [Range(12, 1, 5), Range(8, 1, 5), Range(6, 1, 5), At(4, 0), At(4, 1), At(4, 2), At(4, 3), At(4, 4), At(4, 5), At(14, 5)]

  /** `clearContent()` on each range in turn. */
  function ClearAllOf(g: Cells, rs: seq<Range>): Cells
  {
    if rs == [] then g else Clear(ClearAllOf(g, rs[..|rs| - 1]), rs[|rs| - 1])
  }

  /** Clearing a list of ranges blanks exactly the cells inside one of them and adds no rows. */
  lemma {:induction false} ClearedExactly(g: Cells, rs: seq<Range>)
    ensures |ClearAllOf(g, rs)| == |g|
    ensures forall r: nat, c: nat ::
      Get(ClearAllOf(g, rs), r, c) == (if exists k :: 0 <= k < |rs| && rs[k].Holds(r, c) then "" else Get(g, r, c))
    decreases |rs|
  {
    if rs != [] {
      var init := rs[..|rs| - 1];
      ClearedExactly(g, init);
      forall r: nat, c: nat
        ensures Get(ClearAllOf(g, rs), r, c) == if exists k :: 0 <= k < |rs| && rs[k].Holds(r, c) then "" else Get(g, r, c)
      {
        if exists k :: 0 <= k < |init| && init[k].Holds(r, c) {
          var k :| 0 <= k < |init| && init[k].Holds(r, c);
          assert rs[k].Holds(r, c);
        }
        if exists k :: 0 <= k < |rs| && rs[k].Holds(r, c) {
          var k :| 0 <= k < |rs| && rs[k].Holds(r, c);
          if k < |init| {
            assert init[k].Holds(r, c);
          }
        }
      }
    }
  }

  /** `limpiarControlCreado`: `forEach` range, `clearContent()`. */
  method ClearListed(sheet: Sheet, ranges: seq<Range>)
    modifies sheet
    ensures sheet.cells == ClearAllOf(old(sheet.cells), ranges)
  {
    for k := 0 to |ranges|
      invariant sheet.cells == ClearAllOf(old(sheet.cells), ranges[..k])
    {
      sheet.ClearContent(ranges[k]);
      assert ranges[..k + 1][..k] == ranges[..k];
    }
    assert ranges[..|ranges|] == ranges;
  }

  /**
   * One round of the dialog: the y/n question, then on "y" the name prompt and the copy. Either
   * the dialog ends with `r`, or it starts over at response `at'` with copy attempt `tries'`.
   */
  method DialogRound(v: Version, id1: string, name1: string, sheet1Name: string,
                     responses: seq<string>, at: nat, copies: seq<CopyOutcome>, tries: nat)
    returns (done: bool, r: Resolution, at': nat, tries': nat)
    requires at <= |responses|
    ensures done ==> r == Resolve(v, id1, name1, sheet1Name, responses, Answers(v, responses), at, copies, tries)
    ensures !done ==> (at < at' <= |responses|
      && Resolve(v, id1, name1, sheet1Name, responses, Answers(v, responses), at', copies, tries')
         == Resolve(v, id1, name1, sheet1Name, responses, Answers(v, responses), at, copies, tries))
  {
    done, r, at', tries' := true, Stalled, at, tries;
    var answer, next := AskYesNo(v, responses, at);
    if answer == Some(false) {
      RefusalLogsOnce(v, id1, name1, sheet1Name, responses, Answers(v, responses), at, copies, tries);
      r := Resolved(None, RefusedLine(v, sheet1Name), next, tries);
    } else if answer == Some(true) && next < |responses| {
      var newName := CopyName(v, responses[next]);
      var outcome := Attempt(copies, tries);
      if outcome.Copied? {
        CopiedEnds(v, id1, name1, sheet1Name, responses, Answers(v, responses), at, copies, tries);
        var first := outcome.first;
        r := Resolved(Some([id1, name1, first.docId, first.name, newName]), CreatedLine(newName, first.docId), next + 1, tries + 1);
      } else {
        done, at', tries' := false, next + 1, tries + 1;
        RetryFrom(v, id1, name1, sheet1Name, responses, Answers(v, responses), at, copies, tries, at', tries');
      }
    } else {
      UnansweredStalls(v, id1, name1, sheet1Name, responses, Answers(v, responses), at, copies, tries);
    }
  }

  /**
   * The dialog loop for one unmatched row. It only prompts; the caller writes the mapping row,
   * clears the copy and logs once the dialog ends.
   */
  method AskDialog(v: Version, id1: string, name1: string, sheet1Name: string,
                   responses: seq<string>, resp: nat, copies: seq<CopyOutcome>, copy: nat) returns (r: Resolution)
    requires resp <= |responses|
    ensures r == Resolve(v, id1, name1, sheet1Name, responses, Answers(v, responses), resp, copies, copy)
  {
    var at, tries := resp, copy;
    var done := false;
    while true
      invariant at <= |responses|
      invariant Resolve(v, id1, name1, sheet1Name, responses, Answers(v, responses), at, copies, tries)
             == Resolve(v, id1, name1, sheet1Name, responses, Answers(v, responses), resp, copies, copy)
      decreases |responses| - at
    {
      done, r, at, tries := DialogRound(v, id1, name1, sheet1Name, responses, at, copies, tries);
      if done {
        return;
      }
    }
  }

  /** One pass of the outer loop up to the writes: the first matching pool entry, or the dialog. */
  method MatchOrAsk(v: Version, data1: Cells, i: nat, pool: seq<PoolEntry>, sheet1Name: string,
                    responses: seq<string>, resp: nat, copies: seq<CopyOutcome>, copy: nat) returns (o: RowOutcome)
    requires resp <= |responses|
    ensures o == HandleRow(data1, i, pool, DialogOf(v, data1, sheet1Name, responses, Answers(v, responses), copies), resp, copy)
  {
    var found := FindFirstMatch(pool, Get(data1, i, 2));
    if found.Some? {
      return RowOutcome(Some(MatchRow(data1, i, pool[found.value])), None, None, resp, copy, false);
    }
    var r := AskDialog(v, Get(data1, i, 0), Get(data1, i, 1), sheet1Name, responses, resp, copies, copy);
    assert DialogOf(v, data1, sheet1Name, responses, Answers(v, responses), copies)(i, resp, copy) == r;
    if r.Stalled? {
      return RowOutcome(None, None, None, resp, copy, true);
    }
    o := RowOutcome(r.row, Some(r.line), if r.row.Some? && r.copy > 0 then Some(r.copy - 1) else None, r.resp, r.copy, false);
  }

  /** The first tabs of the possible copies. */
  function CopySheets(copies: seq<CopyOutcome>): set<Sheet>
  {
    set k | 0 <= k < |copies| && copies[k].Copied? :: copies[k].first
  }

  /** Every copy is a new document: its first tab is no other copy's and not the mapping sheet. */
  predicate CopiesApart(copies: seq<CopyOutcome>, mapping: Sheet)
  {
    (forall k, l :: 0 <= k < l < |copies| && copies[k].Copied? && copies[l].Copied? ==> copies[k].first != copies[l].first)
    && mapping !in CopySheets(copies)
  }

  /** The copies' first tabs: cleared in the legacy version once created, untouched otherwise. */
  predicate CopiesCleared(v: Version, copies: seq<CopyOutcome>, olds: seq<Cells>, made: seq<nat>)
    requires |olds| == |copies|
    reads CopySheets(copies)
  {
    forall k :: 0 <= k < |copies| && copies[k].Copied? ==>
      copies[k].first.cells == if v == Legacy && k in made then ClearAllOf(olds[k], CreatedCopyRanges) else olds[k]
  }

  /**
   * The sheets hold comparison state s: the mapping sheet its rows, the log its lines after `base`,
   * the copies' first tabs cleared as far as it created them; `row` is the next free mapping row.
   */
  ghost predicate Holds(v: Version, copies: seq<CopyOutcome>, olds: seq<Cells>, base: seq<string>, s: Run,
                        row: nat, mapping: Sheet, log: Log)
    reads mapping, log, CopySheets(copies)
  {
    |olds| == |copies| && mapping.cells == s.rows && row == |s.rows| && log.lines == base + s.log
    && CopiesCleared(v, copies, olds, s.made)
  }

  /** `limpiarControlCreado` on the legacy version's new copy k, which no earlier row created. */
  method ClearCreated(copies: seq<CopyOutcome>, ghost olds: seq<Cells>, ghost made: seq<nat>, k: nat, mapping: Sheet)
    requires |olds| == |copies| && CopiesApart(copies, mapping)
    requires k < |copies| && copies[k].Copied? && k !in made && CopiesCleared(Legacy, copies, olds, made)
    modifies copies[k].first
    ensures CopiesCleared(Legacy, copies, olds, made + [k])
  {
    ClearListed(copies[k].first, CreatedCopyRanges);
    forall l | 0 <= l < |copies| && copies[l].Copied?
      ensures copies[l].first.cells
              == if l in made + [k] then ClearAllOf(olds[l], CreatedCopyRanges) else olds[l]
    {
      if l < k {
        assert copies[l].first != copies[k].first;
      } else if l > k {
        assert copies[k].first != copies[l].first;
      }
    }
  }

  /** The writes for one handled tested row: its mapping row, the clearing of a legacy copy, its log line. */
  method ApplyOutcome(v: Version, copies: seq<CopyOutcome>, ghost olds: seq<Cells>, ghost base: seq<string>,
                      i: nat, o: RowOutcome, ghost s: Run, row: nat, mapping: Sheet, log: Log) returns (row': nat)
    requires !o.stalled && CopiesApart(copies, mapping) && Holds(v, copies, olds, base, s, row, mapping, log)
    requires o.row.Some? ==> |o.row.value| == 5
    requires o.made.Some? ==> o.made.value < |copies| && copies[o.made.value].Copied? && o.made.value !in s.made
    modifies mapping, log, CopySheets(copies)
    ensures Holds(v, copies, olds, base, Apply(s, i, o), row', mapping, log)
  {
    row' := row;
    if o.row.Some? {
      row' := WriteMappingRow(mapping, row, o.row.value);
    }
    if o.made.Some? {
      var k := o.made.value;
      if v == Legacy {
        assert copies[k].first in CopySheets(copies);
        ClearCreated(copies, olds, s.made, k, mapping);
      }
    }
    if o.line.Some? {
      log.Append(o.line.value);
    }
  }

  /** Tested row i: from the comparison state s after rows 1..i-1 to the state after row i. */
  method CompareRow(v: Version, data1: Cells, i: nat, pool: seq<PoolEntry>, sheet1Name: string,
                    responses: seq<string>, copies: seq<CopyOutcome>, ghost ask: Dialog, ghost olds: seq<Cells>,
                    ghost base: seq<string>, ghost s: Run, row: nat, resp: nat, copy: nat, mapping: Sheet, log: Log)
    returns (row': nat, resp': nat, copy': nat, stalled: bool)
    requires ask == DialogOf(v, data1, sheet1Name, responses, Answers(v, responses), copies)
    requires SoundEnd(data1, copies, |responses|, i, resp, copy, ask(i, resp, copy))
    requires CopiesApart(copies, mapping) && !s.stalled && resp <= |responses| && resp == s.resp && copy == s.copy
    requires CopiesUsedOnce(copies, s) && Holds(v, copies, olds, base, s, row, mapping, log)
    modifies mapping, log, CopySheets(copies)
    ensures var t := RowStep(data1, i, pool, ask, s);
      stalled == t.stalled && resp' == t.resp && copy' == t.copy && Holds(v, copies, olds, base, t, row', mapping, log)
  {
    var o := MatchOrAsk(v, data1, i, pool, sheet1Name, responses, resp, copies, copy);
    HandleRowShape(data1, i, pool, ask, copies, |responses|, resp, copy);
    row', resp', copy', stalled := row, o.resp, o.copy, o.stalled;
    if o.stalled {
      assert Apply(s, i, o) == s.(resp := o.resp, copy := o.copy, stalled := true);
    } else {
      row' := ApplyOutcome(v, copies, olds, base, i, o, s, row, mapping, log);
    }
  }

  /** Tested row i as one turn of the loop below: from the state after rows 1..i-1 to the state after row i. */
  method CompareNext(v: Version, data1: Cells, i: nat, pool: seq<PoolEntry>, sheet1Name: string,
                     responses: seq<string>, copies: seq<CopyOutcome>, ghost ask: Dialog, ghost olds: seq<Cells>,
                     ghost base: seq<string>, row: nat, resp: nat, copy: nat, mapping: Sheet, log: Log, next: nat)
    returns (row': nat, resp': nat, copy': nat, stalled: bool)
    requires ask == DialogOf(v, data1, sheet1Name, responses, Answers(v, responses), copies)
    requires SoundDialog(ask, data1, copies, |responses|) && CopiesApart(copies, mapping) && 1 <= i && next == i + 1
    requires var s := RunUpTo(data1, pool, ask, i);
      !s.stalled && resp == s.resp && copy == s.copy && Holds(v, copies, olds, base, s, row, mapping, log)
    modifies mapping, log, CopySheets(copies)
    ensures var t := RunUpTo(data1, pool, ask, next);
      stalled == t.stalled && resp' == t.resp && copy' == t.copy && Holds(v, copies, olds, base, t, row', mapping, log)
  {
    ghost var s := RunUpTo(data1, pool, ask, i);
    RunCopies(data1, pool, ask, copies, |responses|, i);
    row', resp', copy', stalled := CompareRow(v, data1, i, pool, sheet1Name, responses, copies, ask, olds, base, s,
                                              row, resp, copy, mapping, log);
    RunUpToNext(data1, pool, ask, i, next);
  }

  /** The `for` loop of `compararSheets` over the tested rows, writing from mapping row 1 (index 0) on. */
  method CompareRows(v: Version, sheet1Name: string, data1: Cells, pool: seq<PoolEntry>, responses: seq<string>,
                     copies: seq<CopyOutcome>, ghost ask: Dialog, ghost olds: seq<Cells>, mapping: Sheet, log: Log)
    returns (stalled: bool)
    requires ask == DialogOf(v, data1, sheet1Name, responses, Answers(v, responses), copies)
    requires SoundDialog(ask, data1, copies, |responses|)
    requires CopiesApart(copies, mapping) && Holds(v, copies, olds, log.lines, RunUpTo(data1, pool, ask, 0), 0, mapping, log)
    modifies mapping, log, CopySheets(copies)
    ensures stalled == RunUpTo(data1, pool, ask, |data1|).stalled
    ensures Holds(v, copies, olds, old(log.lines), RunUpTo(data1, pool, ask, |data1|), |mapping.cells|, mapping, log)
  {
    ghost var base := log.lines;
    var row, resp, copy := 0, 0, 0;
    var i := 1;
    stalled := false;
    ghost var s := RunUpTo(data1, pool, ask, i);
    while i < |data1| && !stalled
      invariant 1 <= i && (i <= |data1| || i == 1) && s == RunUpTo(data1, pool, ask, i)
      invariant stalled == s.stalled && resp == s.resp && copy == s.copy && Holds(v, copies, olds, base, s, row, mapping, log)
    {
      var next := i + 1;
      row, resp, copy, stalled := CompareNext(v, data1, i, pool, sheet1Name, responses, copies, ask, olds, base,
                                              row, resp, copy, mapping, log, next);
      i := next;
      s := RunUpTo(data1, pool, ask, i);
    }
    RunEnds(data1, pool, ask, i);
  }

  /**
   * `compararSheets`: clears the mapping sheet, builds the pool from the documented inventory and
   * handles the tested rows in order. Returns true when a dialog ran out of responses.
   */
  method Compare(v: Version, sheet1Name: string, data1: Cells, data2: Cells, responses: seq<string>,
                 copies: seq<CopyOutcome>, mapping: Sheet, log: Log) returns (stalled: bool)
    requires CopiesApart(copies, mapping)
    modifies mapping, log, CopySheets(copies)
    ensures var s := RunUpTo(data1, BuildPool(data2, |data2|), DialogOf(v, data1, sheet1Name, responses, Answers(v, responses), copies), |data1|);
      stalled == s.stalled && mapping.cells == s.rows && log.lines == old(log.lines) + s.log
      && forall k :: 0 <= k < |copies| && copies[k].Copied? ==>
        copies[k].first.cells == if v == Legacy && k in s.made then ClearAllOf(old(copies[k].first.cells), CreatedCopyRanges)
                                 else old(copies[k].first.cells)
  {
    ghost var olds := seq(|copies|, k requires 0 <= k < |copies| reads CopySheets(copies) =>
      if copies[k].Copied? then copies[k].first.cells else []);
    ghost var ask := DialogOf(v, data1, sheet1Name, responses, Answers(v, responses), copies);
    DialogOfSound(v, data1, sheet1Name, responses, Answers(v, responses), copies);
    mapping.ClearAll();
    var pool := CollectPool(data2);
    stalled := CompareRows(v, sheet1Name, data1, pool, responses, copies, ask, olds, mapping, log);
    assert Holds(v, copies, olds, old(log.lines), RunUpTo(data1, pool, ask, |data1|), |mapping.cells|, mapping, log);
  }
}
