/** The agent's phone view: always the month 2026-01, whatever month the desktop view has
    selected; it checks activities in and takes interview summaries like the desktop view. */
module MobileSimulator {
  import opened Domain
  import opened Seqs
  import opened Agent
  import Store

  /** The month the phone view is fixed to. */
  const CurrentMonth: string := "2026-01"

  /** The summary recorded when a meeting is checked in from the phone. */
  const MobileAutoSummary: string := "移动端自动总结：会议圆满成功。"

  /** `myTargets`: the agent's targets of 2026-01, in stored order. */
  function MyTargets(ts: seq<Target>): (r: seq<Target>)
    ensures |r| <= |ts|
    ensures forall i :: 0 <= i < |r| ==> r[i] in ts && r[i].month == "2026-01" && r[i].meName == AgentName
    ensures forall i :: 0 <= i < |ts| && ts[i].month == "2026-01" && ts[i].meName == AgentName ==> ts[i] in r
    ensures KeepsOrder(r, ts)
  {
    FilterOrder(ts, OfAgentInMonth(CurrentMonth));
    Filter(ts, OfAgentInMonth(CurrentMonth))
  }

  /** `myActivities`: the activities dated in 2026-01, in stored order. */
  function MyActivities(acts: seq<Activity>): (r: seq<Activity>)
    ensures |r| <= |acts|
    ensures forall i :: 0 <= i < |r| ==> r[i] in acts && "2026-01" <= r[i].time
    ensures forall i :: 0 <= i < |acts| && "2026-01" <= acts[i].time ==> acts[i] in r
    ensures KeepsOrder(r, acts)
  {
    FilterOrder(acts, InMonth(CurrentMonth));
    Filter(acts, InMonth(CurrentMonth))
  }

  /** The progress card: the accepted ones among `myTargets`. */
  function MyProgress(ts: seq<Target>): (r: seq<Target>)
    ensures forall i :: 0 <= i < |r| ==> r[i] in ts && r[i].status == Accepted && r[i].month == "2026-01" && r[i].meName == AgentName
    ensures forall i :: 0 <= i < |ts| && ts[i].status == Accepted && ts[i].month == "2026-01" && ts[i].meName == AgentName ==> ts[i] in r
    ensures KeepsOrder(r, ts)
  {
    var mine := MyTargets(ts);
    FilterFilter(ts, OfAgentInMonth(CurrentMonth), IsAccepted);
    FilterOrder(ts, Both(OfAgentInMonth(CurrentMonth), IsAccepted));
    assert forall i :: 0 <= i < |ts| && ts[i].status == Accepted && ts[i].month == "2026-01" && ts[i].meName == AgentName ==>
      exists k :: 0 <= k < |mine| && mine[k] == ts[i];
    Filter(mine, IsAccepted)
  }

  /** The phone view's own state: the activity on display (a copy taken when it was opened),
      the summary dialog and its text. */
  class ViewState {
    var viewActivity: Option<Activity>
    var showSummaryModal: Option<string>
    var summaryInput: string

    constructor ()
      ensures viewActivity == None && showSummaryModal == None && summaryInput == ""
    {
      viewActivity, showSummaryModal, summaryInput := None, None, "";
    }

    /** Tapping an activity of the list. */
    method OpenActivity(a: Activity)
      modifies this`viewActivity
      ensures viewActivity == Some(a)
    {
      viewActivity := Some(a);
    }

    /** Closing the details page. */
    method CloseActivity()
      modifies this`viewActivity
      ensures viewActivity == None
    {
      viewActivity := None;
    }

    /** The on-site check-in button of the details page. */
    method CheckIn(app: Store.App)
      modifies this`viewActivity, this`showSummaryModal, app
      ensures old(viewActivity).None? || CheckInFor(old(viewActivity).value) == NotOffered ==>
        app.activities == old(app.activities) && app.targets == old(app.targets) &&
        viewActivity == old(viewActivity) && showSummaryModal == old(showSummaryModal)
      ensures old(viewActivity).Some? && CheckInFor(old(viewActivity).value) == AskForSummary ==>
        app.activities == Store.StatusUpdated(old(app.activities), old(viewActivity).value.id, PendingSummary) &&
        app.targets == old(app.targets) &&
        viewActivity == old(viewActivity) && showSummaryModal == Some(old(viewActivity).value.id)
      ensures old(viewActivity).Some? && CheckInFor(old(viewActivity).value) == AutoComplete ==>
        app.activities == Store.ActivitiesAfterComplete(old(app.activities), old(viewActivity).value.id, MobileAutoSummary) &&
        app.targets == Store.TargetsAfterCredit(old(app.targets),
          Store.CompletedCategory(old(app.activities), old(viewActivity).value.id), old(app.selectedMonth)) &&
        viewActivity == None && showSummaryModal == old(showSummaryModal)
      ensures app.selectedMonth == old(app.selectedMonth)
    {
      if viewActivity.None? {
        return;
      }
      var a := viewActivity.value;
      match CheckInFor(a)
      case NotOffered =>
      case AskForSummary =>
        app.UpdateStatus(a.id, PendingSummary);
        showSummaryModal := Some(a.id);
      case AutoComplete =>
        app.CompleteActivity(a.id, MobileAutoSummary);
        viewActivity := None;
    }

    /** Submitting the interview summary: an empty text sends nothing. */
    method SubmitSummary(app: Store.App)
      modifies this`viewActivity, this`showSummaryModal, this`summaryInput, app
      ensures old(showSummaryModal).None? || old(summaryInput) == "" ==>
        app.activities == old(app.activities) && app.targets == old(app.targets) &&
        viewActivity == old(viewActivity) && showSummaryModal == old(showSummaryModal) && summaryInput == old(summaryInput)
      ensures old(showSummaryModal).Some? && old(summaryInput) != "" ==>
        app.activities == Store.ActivitiesAfterComplete(old(app.activities), old(showSummaryModal).value, old(summaryInput)) &&
        app.targets == Store.TargetsAfterCredit(old(app.targets),
          Store.CompletedCategory(old(app.activities), old(showSummaryModal).value), old(app.selectedMonth)) &&
        viewActivity == None && showSummaryModal == None && summaryInput == ""
      ensures app.selectedMonth == old(app.selectedMonth)
    {
      if showSummaryModal.None? || summaryInput == "" {
        return;
      }
      app.CompleteActivity(showSummaryModal.value, summaryInput);
      showSummaryModal, viewActivity, summaryInput := None, None, "";
    }
  }
}
