/**
 * The progress indicator (src/components/trade/TradeProgressSteps.tsx):
 * the four happy-path steps, the index of the current one (-1 for the
 * side states), and the completed/current/upcoming marking of each step.
 */
module ProgressSteps {
  import opened Wrappers
  import opened Database
  import TradeStateTable

  /** A step: the status it stands for, its label and its description. */
  datatype Step = Step(key: TradeStatus, stepLabel: string, description: string)

  /** PROGRESS_STEPS. */
  const Steps: seq<Step> := [
    Step(Pending, "Initiated", "Trade created"),
    Step(InProgress, "Escrow Funded", "Crypto deposited"),
    Step(PaymentSent, "Payment Sent", "Fiat transferred"),
    Step(Completed, "Complete", "Trade finished")
  ]

  /** `Array.prototype.findIndex` on the step keys: the first index holding `key`, or -1. */
  function FindIndex(steps: seq<Step>, key: TradeStatus): (r: int)
    ensures -1 <= r < |steps|
    ensures r == -1 <==> forall i :: 0 <= i < |steps| ==> steps[i].key != key
    ensures r >= 0 ==> steps[r].key == key && forall i :: 0 <= i < r ==> steps[i].key != key
    decreases |steps|
  {
    if steps == [] then -1
    else if steps[0].key == key then 0
    else
      var r := FindIndex(steps[1..], key);
      if r == -1 then -1 else r + 1
  }

  /** getCurrentStepIndex: -1 for `disputed` and `cancelled`, else the position of the status among the steps. */
  function CurrentStepIndex(s: TradeStatus): (r: int)
    ensures s == Disputed || s == Cancelled ==> r == -1
    ensures s == Pending ==> r == 0
    ensures s == InProgress ==> r == 1
    ensures s == PaymentSent ==> r == 2
    ensures s == Completed ==> r == 3
  {
    if s == Disputed || s == Cancelled then -1
    else FindIndex(Steps, s)
  }

  /** The three flags of a step at `index` when the current step is `current`. */
  datatype StepFlags = StepFlags(isCompleted: bool, isCurrent: bool, isUpcoming: bool)

  function Flags(index: int, current: int): (f: StepFlags)
    ensures (f.isCompleted && !f.isCurrent && !f.isUpcoming)
         || (!f.isCompleted && f.isCurrent && !f.isUpcoming)
         || (!f.isCompleted && !f.isCurrent && f.isUpcoming)
    ensures f.isCurrent <==> index == current
  {
    StepFlags(index < current, index == current, index > current)
  }

  /** What the component renders: a dedicated panel for the side states, else the marked step list. */
  datatype View = DisputedPanel | CancelledPanel | StepList(flags: seq<StepFlags>)

  function Render(s: TradeStatus): (v: View)
    ensures v.DisputedPanel? <==> s == Disputed
    ensures v.CancelledPanel? <==> s == Cancelled
    ensures v.StepList? ==> |v.flags| == |Steps|
    ensures v.StepList? ==> forall i :: 0 <= i < |Steps| ==> (v.flags[i].isCurrent <==> Steps[i].key == s)
  {
    if s == Disputed then DisputedPanel
    else if s == Cancelled then CancelledPanel
    else
      var current := CurrentStepIndex(s);
      StepList(seq(|Steps|, i requires 0 <= i < |Steps| => Flags(i, current)))
  }

  /** In the step list at most one step is current, every earlier step is completed and every later one upcoming. */
  lemma StepListIsOrdered(s: TradeStatus)
    requires Render(s).StepList?
    ensures var fl := Render(s).flags;
      && (forall i, j :: 0 <= i < j < |fl| ==> !(fl[i].isCurrent && fl[j].isCurrent))
      && (forall i, j :: 0 <= i < j < |fl| && fl[j].isCurrent ==> fl[i].isCompleted)
      && (forall i, j :: 0 <= i < j < |fl| && fl[i].isCurrent ==> fl[j].isUpcoming)
  {
  }

  /** Consecutive step keys follow the state table's happy path, and it ends at the last step. */
  lemma StepsFollowNextStatus()
    ensures forall i :: 0 <= i < |Steps| - 1 ==> TradeStateTable.GetNextStatus(Steps[i].key) == Some(Steps[i + 1].key)
    ensures TradeStateTable.GetNextStatus(Steps[|Steps| - 1].key) == None
  {
  }
}
