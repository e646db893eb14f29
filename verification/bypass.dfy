/** The baseline estimate and the verdict rule applied to each bypass trial
    (token removed, token cleared, token forged). */
module Bypass {
  import opened Decimal

  /** Outcome of one trial. `Inconclusive` is the case in which the source
      prints nothing: same status, healthy baseline, body length outside
      the tolerance. */
  datatype Verdict = Bypassed | Protected | Inconclusive

  /** What the tool observes of one HTTP response. */
  datatype Response = Response(status: int, length: nat)

  /** Reference status and length, and the noise allowed on the length. */
  datatype Baseline = Baseline(status: int, length: nat, tolerance: nat)

  /** The three request variants of the testing phase. */
  datatype Trial = Remove | Clear | Forge

  function Abs(x: int): nat
  {
    if x < 0 then -x else x
  }

  /** Length difference of the two control responses: zero when they agree,
      otherwise the absolute difference. */
  function Tolerance(first: nat, second: nat): (t: nat)
    ensures t >= first - second && t >= second - first
    ensures t == first - second || t == second - first
    ensures t == 0 <==> first == second
  {
    if first != second then Abs(first - second) else 0
  }

  /** The tolerance does not depend on which control response came first. */
  lemma ToleranceSymmetric(a: nat, b: nat)
    ensures Tolerance(a, b) == Tolerance(b, a)
  {
  }

  /** Baseline from two identical control requests: status and length of
      the first, tolerance from both lengths. */
  function MeasureBaseline(first: Response, second: Response): (b: Baseline)
    ensures b.status == first.status && b.length == first.length
    ensures b.tolerance == Abs(first.length - second.length)
  {
    Baseline(first.status, first.length, Tolerance(first.length, second.length))
  }

  /** The baseline is an error state: its decimal status starts with 4 or 5. */
  predicate IsErrorStatus(status: int)
    ensures IsErrorStatus(status) <==> status >= 0 && Leading(status) in {4, 5}
  {
    FirstCharOfStr(status);
    Str(status)[0] in ['4', '5']
  }

  /** For HTTP's three-digit codes, "starts with 4 or 5" is the 4xx and 5xx
      range. */
  lemma ErrorStatusIsFourOrFiveHundred(status: int)
    requires 100 <= status < 1000
    ensures IsErrorStatus(status) <==> 400 <= status < 600
  {
    ThreeDigitLeading(status);
  }

  /** The verdict rule of one trial. */
  function Judge(b: Baseline, trial: Response): (v: Verdict)
    ensures trial.status != b.status ==> v == Protected
    ensures IsErrorStatus(b.status) ==> v == Protected
    ensures v == Bypassed <==>
      trial.status == b.status && !IsErrorStatus(b.status)
      && Abs(b.length - trial.length) <= b.tolerance
    ensures v == Inconclusive <==>
      trial.status == b.status && !IsErrorStatus(b.status)
      && Abs(b.length - trial.length) > b.tolerance
  {
    if trial.status != b.status then Protected
    else if IsErrorStatus(b.status) then Protected
    else if Abs(b.length - trial.length) <= b.tolerance then Bypassed
    else Inconclusive
  }

  /** The line printed after a trial. */
  datatype Message = ItWorked | ItDidNotWork | Silent

  /** The printing as the source nests it: status equal, then the leading
      digit, then the difference; nothing is printed when the difference
      exceeds the tolerance. */
  function Printed(b: Baseline, trial: Response): (m: Message)
    ensures trial.status != b.status ==> m == ItDidNotWork
    ensures m == ItWorked ==>
      trial.status == b.status && Abs(b.length - trial.length) <= b.tolerance
    ensures m == Silent ==> trial.status == b.status && Abs(b.length - trial.length) > b.tolerance
  {
    if trial.status == b.status then
      if Str(b.status)[0] in ['4', '5'] then ItDidNotWork
      else
        var difference := Abs(b.length - trial.length);
        if difference <= b.tolerance then ItWorked else Silent
    else ItDidNotWork
  }

  /** The verdict says exactly what the printed line says, with the silent
      case made explicit. */
  lemma JudgeMatchesPrinted(b: Baseline, trial: Response)
    ensures Printed(b, trial) == ItWorked <==> Judge(b, trial) == Bypassed
    ensures Printed(b, trial) == ItDidNotWork <==> Judge(b, trial) == Protected
    ensures Printed(b, trial) == Silent <==> Judge(b, trial) == Inconclusive
  {
  }

  /** The three trials are judged by one rule against one baseline. */
  function JudgeAll(b: Baseline, remove: Response, clear: Response, forge: Response)
    : (r: seq<(Trial, Verdict)>)
    ensures |r| == 3 && r[0].0 == Remove && r[1].0 == Clear && r[2].0 == Forge
    ensures r[0].1 == Judge(b, remove) && r[1].1 == Judge(b, clear) && r[2].1 == Judge(b, forge)
    ensures forall i :: 0 <= i < 3 && r[i].1 == Bypassed ==> !IsErrorStatus(b.status)
  {
    [(Remove, Judge(b, remove)), (Clear, Judge(b, clear)), (Forge, Judge(b, forge))]
  }

  /** A healthy endpoint replaying its second control response is judged
      bypassed: the tolerance absorbs exactly the noise it was measured
      from. */
  lemma ControlResponseIsBypassed(first: Response, second: Response)
    requires second.status == first.status && !IsErrorStatus(first.status)
    ensures Judge(MeasureBaseline(first, second), second) == Bypassed
    ensures Judge(MeasureBaseline(first, second), first) == Bypassed
  {
  }

  /** Allowing more noise never withdraws a bypass verdict. */
  lemma LargerToleranceKeepsBypass(b: Baseline, trial: Response, wider: nat)
    requires b.tolerance <= wider
    requires Judge(b, trial) == Bypassed
    ensures Judge(b.(tolerance := wider), trial) == Bypassed
  {
  }

  /** The verdict table for concrete responses: tolerance 0 and equal
      lengths on a 2xx baseline bypass; a 403 baseline or a changed status
      is protected; a length outside the tolerance is inconclusive. */
  lemma VerdictTable()
    ensures Judge(Baseline(200, 500, 0), Response(200, 500)) == Bypassed
    ensures Judge(Baseline(200, 500, 0), Response(200, 501)) == Inconclusive
    ensures Judge(Baseline(403, 500, 0), Response(403, 500)) == Protected
    ensures Judge(Baseline(200, 500, 0), Response(302, 500)) == Protected
    ensures Judge(Baseline(200, 500, 5), Response(200, 600)) == Inconclusive
  {
  }
}
