/** What the two agent surfaces, the desktop view and the phone simulator, have in common:
    the fixed agent they show, their filters and the check-in rule. */
module Agent {
  import opened Domain

  /** Both surfaces show the targets of this one agent. */
  const AgentName: string := "张三"

  /** The test behind `currentTargets` and `myTargets`: a target of the agent for `month`. */
  function OfAgentInMonth(month: string): Target -> bool {
    (t: Target) => t.month == month && t.meName == AgentName
  }

  /** The test behind `filteredActivities` and `myActivities`: the activity's date has
      `month` as a prefix (Dafny's `<=` on sequences is the prefix relation). */
  function InMonth(month: string): Activity -> bool {
    (a: Activity) => month <= a.time
  }

  /** The test of the progress section: an accepted target. */
  predicate IsAccepted(t: Target) {
    t.status == Accepted
  }

  /** What the on-site check-in button does for the activity on display. */
  datatype CheckIn =
    | NotOffered     // the button is not shown
    | AskForSummary  // status becomes PENDING_SUMMARY and the summary dialog opens
    | AutoComplete   // the activity is completed with the surface's fixed summary

  function CheckInFor(a: Activity): (c: CheckIn)
    ensures c == NotOffered <==> a.status == Completed
    ensures c == AskForSummary <==> a.status != Completed && a.kind == Interview
    ensures c == AutoComplete <==> a.status != Completed && a.kind == Meeting
  {
    if a.status == Completed then NotOffered
    else match a.kind
      case Interview => AskForSummary
      case Meeting => AutoComplete
  }
}
