/**
 * The yes/no dialogs. The user's answers are an injected sequence of response texts, consumed
 * from an index on; a dialog that runs out of responses never returns, which the callers report
 * as "stalled".
 */
module Prompts {
  import opened Wrappers
  import opened Text

  /** The two versions of the macros: `Update-Controls.gs.js` (current) and `Code.gs.js` (legacy). */
  datatype Version = Current | Legacy

  /**
   * How one response is read: the current version lower-cases and trims it, the legacy version
   * only lower-cases it. "y" is yes, "n" is no, anything else asks again.
   */
  function Answer(v: Version, text: string): (a: Option<bool>)
  {
    var t := if v == Current then Trim(ToLower(text)) else ToLower(text);
    if t == "y" then Some(true) else if t == "n" then Some(false) else None
  }

  /** What the current version accepts is exactly what normalises (trim, then lower-case) to "y" or "n". */
  lemma CurrentAnswerIsNormalised(text: string)
    ensures Answer(Current, text) == Some(true) <==> Norm(text) == "y"
    ensures Answer(Current, text) == Some(false) <==> Norm(text) == "n"
  {
    LowerTrimCommute(text);
  }

  lemma TrimOfLetter(c: char)
    requires !IsSpace(c)
    ensures Trim([c]) == [c]
  {
  }

  /** Every answer the legacy version accepts, the current one accepts alike. */
  lemma LegacyAnswerAlsoCurrent(text: string)
    requires Answer(Legacy, text).Some?
    ensures Answer(Current, text) == Answer(Legacy, text)
  {
    if ToLower(text) == "y" {
      TrimOfLetter('y');
    } else {
      TrimOfLetter('n');
    }
  }

  /** Surrounding white space: " Y " is a yes for the current version and invalid for the legacy one. */
  lemma PaddedAnswerDiffers()
    ensures Answer(Current, " Y ") == Some(true)
    ensures Answer(Legacy, " Y ") == None
  {
    assert ToLower(" Y ") == " y ";
    assert IsSpace(' ') && !IsSpace('y');
    assert " y "[1..] == "y " && "y "[..1] == "y";
    assert Trim(" y ") == Trim("y ") == TrimRight("y ") == "y";
  }

  /** How each response reads. */
  function Answers(v: Version, responses: seq<string>): (a: seq<Option<bool>>)
    ensures |a| == |responses|
  {
    if responses == [] then [] else Answers(v, responses[..|responses| - 1]) + [Answer(v, responses[|responses| - 1])]
  }

  lemma {:induction false} AnswersAt(v: Version, responses: seq<string>, k: nat)
    requires k < |responses|
    ensures Answers(v, responses)[k] == Answer(v, responses[k])
    decreases |responses|
  {
    if k < |responses| - 1 {
      AnswersAt(v, responses[..|responses| - 1], k);
    }
  }

  /**
   * The first valid answer at index `from` or later: the answer and the index just after it;
   * None with every response used when no valid one is left.
   */
  function FirstAnswer(answers: seq<Option<bool>>, from: nat): (r: (Option<bool>, nat))
    requires from <= |answers|
    decreases |answers| - from
    ensures from <= r.1 <= |answers|
    ensures r.0.Some? ==> from < r.1 && answers[r.1 - 1] == r.0
    ensures r.0.None? ==> r.1 == |answers|
    ensures forall k :: from <= k < (if r.0.Some? then r.1 - 1 else |answers|) ==> answers[k].None?
  {
    if from == |answers| then (None, from)
    else if answers[from].Some? then (answers[from], from + 1)
    else FirstAnswer(answers, from + 1)
  }

  /**
   * `preguntaMenu` (and the inline y/n loop of the legacy `compararSheets`): prompt until a
   * response reads as "y" or "n".
   */
  method AskYesNo(v: Version, responses: seq<string>, from: nat) returns (answer: Option<bool>, next: nat)
    requires from <= |responses|
    ensures answer == FirstAnswer(Answers(v, responses), from).0 && next == FirstAnswer(Answers(v, responses), from).1
  {
    next := from;
    answer := None;
    while next < |responses|
      invariant from <= next <= |responses|
      invariant FirstAnswer(Answers(v, responses), next) == FirstAnswer(Answers(v, responses), from)
    {
      var a := Answer(v, responses[next]);
      AnswersAt(v, responses, next);
      next := next + 1;
      if a.Some? {
        answer := a;
        return;
      }
    }
  }
}
