/**
 * The run status panel: the CSS class of the run state, the rounded progress
 * percentage and the elapsed minutes written as hours and minutes.
 */
module ExecutionStatusView {
  import opened Wrappers
  import opened JsMath
  import opened Text
  import opened LoadModels

  /** The state's name as the status type spells it. */
  function StatusName(s: RunState): string {
    match s
    case Idle => "idle"
    case Running => "running"
    case Completed => "completed"
    case Failed => "failed"
  }

  /** `statusClass`: `status-` followed by the state's name. */
  function StatusClass(st: ExecutionStatus): (r: string)
    ensures |r| > 7 && r[..7] == "status-" && r[7..] == StatusName(st.status)
  {
    "status-" + StatusName(st.status)
  }

  /** Different states get different classes. */
  lemma StatusClassInjective(a: ExecutionStatus, b: ExecutionStatus)
    requires StatusClass(a) == StatusClass(b)
    ensures a.status == b.status
  {
    assert StatusName(a.status) == StatusClass(a)[7..];
    assert StatusName(a.status)[0] == StatusName(b.status)[0];
  }

  /** `progressPercentage`: the progress rounded to a whole percentage, a missing one read as 0. */
  function ProgressPercentage(st: ExecutionStatus): (r: int)
    ensures st.progress.None? ==> r == 0
    ensures st.progress.Some? ==> r as real - 0.5 <= st.progress.value < r as real + 0.5
    ensures st.progress.Some? && 0.0 <= st.progress.value <= 100.0 ==> 0 <= r <= 100
  {
    Round(st.progress.GetOr(0.0))
  }

  /** The elapsed-time text: `Hh Mm` from one hour on, else `Mm`. */
  function ElapsedLabel(elapsed: int): (r: string)
    ensures r != [] && r[|r| - 1] == 'm'
    ensures elapsed >= 60 ==> r == NatToString(elapsed / 60) + "h " + NatToString(elapsed % 60) + "m"
    ensures 0 <= elapsed < 60 ==> r == NatToString(elapsed) + "m"
  {
    var hours := elapsed / 60;
    var minutes := JsRem(elapsed, 60);
    if hours > 0 then IntToString(hours) + "h " + IntToString(minutes) + "m"
    else IntToString(minutes) + "m"
  }

  /** `elapsedTimeFormatted`, a missing elapsed time read as 0. */
  function ElapsedTimeFormatted(st: ExecutionStatus): (r: string)
    ensures st.elapsedTime.None? ==> r == "0m"
    ensures st.elapsedTime.Some? ==> r == ElapsedLabel(st.elapsedTime.value)
  {
    ElapsedLabel(st.elapsedTime.GetOr(0))
  }

  /** For a non-negative elapsed time the hours and minutes recompose it, minutes below 60. */
  lemma ElapsedSplit(elapsed: int)
    requires elapsed >= 0
    ensures 0 <= JsRem(elapsed, 60) < 60
    ensures (elapsed / 60) * 60 + JsRem(elapsed, 60) == elapsed
  {
  }

  /** The leading number of the label and what follows it. */
  function LeadNumber(elapsed: nat): nat {
    if elapsed / 60 > 0 then elapsed / 60 else elapsed % 60
  }

  function AfterLead(elapsed: nat): (r: string)
    ensures r != [] && !IsDigit(r[0])
  {
    if elapsed / 60 > 0 then "h " + NatToString(elapsed % 60) + "m" else "m"
  }

  lemma ElapsedLabelSplits(elapsed: nat)
    ensures ElapsedLabel(elapsed) == NatToString(LeadNumber(elapsed)) + AfterLead(elapsed)
  {
    if elapsed / 60 > 0 {
      assert IntToString(elapsed / 60) + "h " + IntToString(elapsed % 60) + "m"
        == NatToString(elapsed / 60) + ("h " + NatToString(elapsed % 60) + "m");
    }
  }

  /** Two different non-negative elapsed times are never shown with the same text. */
  lemma ElapsedLabelInjective(e1: nat, e2: nat)
    requires ElapsedLabel(e1) == ElapsedLabel(e2)
    ensures e1 == e2
  {
    ElapsedLabelSplits(e1);
    ElapsedLabelSplits(e2);
    NatPrefixInjective(LeadNumber(e1), AfterLead(e1), LeadNumber(e2), AfterLead(e2));
    var s1, s2 := AfterLead(e1), AfterLead(e2);
    assert s1[0] == s2[0];
    if e1 / 60 > 0 {
      assert e2 / 60 > 0;
      assert s1[2..] == NatToString(e1 % 60) + "m";
      assert s2[2..] == NatToString(e2 % 60) + "m";
      NatPrefixInjective(e1 % 60, "m", e2 % 60, "m");
    } else {
      assert e2 / 60 == 0;
    }
  }
}
