/** The agent's desktop view: the targets and activities of the selected month, the bar
    that offers the first pending target for acceptance or rejection, and the check-in and
    summary dialogs that complete activities. */
module MainView {
  import opened Domain
  import opened Seqs
  import opened Agent
  import Store

  /** The summary recorded when a meeting is checked in from the desktop. */
  const MeetingAutoSummary: string := "系统自动生成：会议圆满结束，参会人员全员到齐。"

  /** `currentTargets`: the agent's targets of the selected month, in stored order. */
  function CurrentTargets(ts: seq<Target>, month: string): (r: seq<Target>)
    ensures |r| <= |ts|
    ensures forall i :: 0 <= i < |r| ==> r[i] in ts && r[i].month == month && r[i].meName == AgentName
    ensures forall i :: 0 <= i < |ts| && ts[i].month == month && ts[i].meName == AgentName ==> ts[i] in r
    ensures KeepsOrder(r, ts)
  {
    FilterOrder(ts, OfAgentInMonth(month));
    Filter(ts, OfAgentInMonth(month))
  }

  /** The test behind `pendingTargets`: a pending target of the agent, of any month. */
  predicate IsPendingOfAgent(t: Target) {
    t.status == Pending && t.meName == AgentName
  }

  /** `pendingTargets`: the agent's pending targets of every month. */
  function PendingTargets(ts: seq<Target>): (r: seq<Target>)
    ensures |r| <= |ts|
    ensures forall i :: 0 <= i < |r| ==> r[i] in ts && r[i].status == Pending && r[i].meName == AgentName
    ensures forall i :: 0 <= i < |ts| && ts[i].status == Pending && ts[i].meName == AgentName ==> ts[i] in r
    ensures KeepsOrder(r, ts)
  {
    FilterOrder(ts, IsPendingOfAgent);
    Filter(ts, IsPendingOfAgent)
  }

  /** `filteredActivities`: the activities whose date starts with the selected month. */
  function FilteredActivities(acts: seq<Activity>, month: string): (r: seq<Activity>)
    ensures |r| <= |acts|
    ensures forall i :: 0 <= i < |r| ==> r[i] in acts && month <= r[i].time
    ensures forall i :: 0 <= i < |acts| && month <= acts[i].time ==> acts[i] in r
    ensures KeepsOrder(r, acts)
  {
    FilterOrder(acts, InMonth(month));
    Filter(acts, InMonth(month))
  }

  /** The progress section: the accepted ones among `currentTargets`. */
  function ProgressTargets(ts: seq<Target>, month: string): (r: seq<Target>)
    ensures forall i :: 0 <= i < |r| ==> r[i] in ts && r[i].status == Accepted && r[i].month == month && r[i].meName == AgentName
    ensures forall i :: 0 <= i < |ts| && ts[i].status == Accepted && ts[i].month == month && ts[i].meName == AgentName ==> ts[i] in r
    ensures KeepsOrder(r, ts)
  {
    var current := CurrentTargets(ts, month);
    FilterFilter(ts, OfAgentInMonth(month), IsAccepted);
    FilterOrder(ts, Both(OfAgentInMonth(month), IsAccepted));
    assert forall i :: 0 <= i < |ts| && ts[i].status == Accepted && ts[i].month == month && ts[i].meName == AgentName ==>
      exists k :: 0 <= k < |current| && current[k] == ts[i];
    Filter(current, IsAccepted)
  }

  /** The target the bar offers (`pendingTargets.slice(0, 1)`): the agent's first pending target. */
  function OfferedTarget(ts: seq<Target>): (r: Option<Target>)
    ensures r.None? <==> forall i :: 0 <= i < |ts| ==> !(ts[i].status == Pending && ts[i].meName == AgentName)
    ensures r.Some? ==> exists i :: 0 <= i < |ts| && ts[i] == r.value && r.value.status == Pending && r.value.meName == AgentName && forall j :: 0 <= j < i ==> !(ts[j].status == Pending && ts[j].meName == AgentName)
  {
    var pending := PendingTargets(ts);
    if pending == [] then None
    else
      FilterHead(ts, IsPendingOfAgent);
      Some(pending[0])
  }

  /** The view's own state: the activity on display (a copy taken when it was opened), the
      summary dialog and its text, the rejection dialog and its reason. */
  class ViewState {
    var viewActivity: Option<Activity>
    var showSummaryModal: Option<string>
    var summaryText: string
    var rejectionModal: Option<string>
    var rejectReason: string

    constructor ()
      ensures viewActivity == None && showSummaryModal == None && summaryText == ""
      ensures rejectionModal == None && rejectReason == ""
    {
      viewActivity, showSummaryModal, summaryText := None, None, "";
      rejectionModal, rejectReason := None, "";
    }

    /** Clicking an activity of the list. */
    method OpenActivity(a: Activity)
      modifies this`viewActivity
      ensures viewActivity == Some(a)
    {
      viewActivity := Some(a);
    }

    /** Closing the details page. */
    method CloseActivity()
      modifies this`viewActivity
      ensures viewActivity == None
    {
      viewActivity := None;
    }

    /** Accepting the offered target; without one the button is not there. */
    method Accept(app: Store.App)
      modifies app
      ensures OfferedTarget(old(app.targets)).None? ==> app.targets == old(app.targets)
      ensures OfferedTarget(old(app.targets)).Some? ==>
        app.targets == Store.Responded(old(app.targets), OfferedTarget(old(app.targets)).value.id, Accepted, None)
      ensures app.activities == old(app.activities) && app.selectedMonth == old(app.selectedMonth)
    {
      var offered := OfferedTarget(app.targets);
      if offered.Some? {
        app.TargetResponse(offered.value.id, Accepted, None);
      }
    }

    /** Opening the rejection dialog for the offered target. */
    method StartReject(app: Store.App)
      modifies this`rejectionModal
      ensures OfferedTarget(app.targets).None? ==> rejectionModal == old(rejectionModal)
      ensures OfferedTarget(app.targets).Some? ==> rejectionModal == Some(OfferedTarget(app.targets).value.id)
    {
      var offered := OfferedTarget(app.targets);
      if offered.Some? {
        rejectionModal := Some(offered.value.id);
      }
    }

    /** Cancelling the rejection dialog; the typed reason stays. */
    method CancelReject()
      modifies this`rejectionModal
      ensures rejectionModal == None
    {
      rejectionModal := None;
    }

    /** Confirming the rejection: an empty reason sends nothing. */
    method ConfirmReject(app: Store.App)
      modifies this`rejectionModal, this`rejectReason, app
      ensures old(rejectionModal).None? || old(rejectReason) == "" ==>
        app.targets == old(app.targets) && rejectionModal == old(rejectionModal) && rejectReason == old(rejectReason)
      ensures old(rejectionModal).Some? && old(rejectReason) != "" ==>
        app.targets == Store.Responded(old(app.targets), old(rejectionModal).value, Rejected, Some(old(rejectReason))) &&
        rejectionModal == None && rejectReason == ""
      ensures app.activities == old(app.activities) && app.selectedMonth == old(app.selectedMonth)
    {
      if rejectionModal.None? || rejectReason == "" {
        return;
      }
      app.TargetResponse(rejectionModal.value, Rejected, Some(rejectReason));
      rejectionModal := None;
      rejectReason := "";
    }

    /** The on-site check-in button of the details page. */
    method CheckIn(app: Store.App)
      modifies this`viewActivity, this`showSummaryModal, app
      ensures old(viewActivity).None? || CheckInFor(old(viewActivity).value) == NotOffered ==>
        app.activities == old(app.activities) && app.targets == old(app.targets) &&
        viewActivity == old(viewActivity) && showSummaryModal == old(showSummaryModal)
      ensures old(viewActivity).Some? && CheckInFor(old(viewActivity).value) == AskForSummary ==>
        app.activities == Store.StatusUpdated(old(app.activities), old(viewActivity).value.id, PendingSummary) &&
        app.targets == old(app.targets) &&
        viewActivity == old(viewActivity) && showSummaryModal == Some(old(viewActivity).value.id)
      ensures old(viewActivity).Some? && CheckInFor(old(viewActivity).value) == AutoComplete ==>
        app.activities == Store.ActivitiesAfterComplete(old(app.activities), old(viewActivity).value.id, MeetingAutoSummary) &&
        app.targets == Store.TargetsAfterCredit(old(app.targets),
          Store.CompletedCategory(old(app.activities), old(viewActivity).value.id), old(app.selectedMonth)) &&
        viewActivity == None && showSummaryModal == old(showSummaryModal)
      ensures app.selectedMonth == old(app.selectedMonth)
    {
      if viewActivity.None? {
        return;
      }
      var a := viewActivity.value;
      match CheckInFor(a)
      case NotOffered =>
      case AskForSummary =>
        app.UpdateStatus(a.id, PendingSummary);
        showSummaryModal := Some(a.id);
      case AutoComplete =>
        app.CompleteActivity(a.id, MeetingAutoSummary);
        viewActivity := None;
    }

    /** Submitting the interview summary: an empty text sends nothing. */
    method SubmitSummary(app: Store.App)
      modifies this`viewActivity, this`showSummaryModal, this`summaryText, app
      ensures old(showSummaryModal).None? || old(summaryText) == "" ==>
        app.activities == old(app.activities) && app.targets == old(app.targets) &&
        viewActivity == old(viewActivity) && showSummaryModal == old(showSummaryModal) && summaryText == old(summaryText)
      ensures old(showSummaryModal).Some? && old(summaryText) != "" ==>
        app.activities == Store.ActivitiesAfterComplete(old(app.activities), old(showSummaryModal).value, old(summaryText)) &&
        app.targets == Store.TargetsAfterCredit(old(app.targets),
          Store.CompletedCategory(old(app.activities), old(showSummaryModal).value), old(app.selectedMonth)) &&
        viewActivity == None && showSummaryModal == None && summaryText == ""
      ensures app.selectedMonth == old(app.selectedMonth)
    {
      if showSummaryModal.None? || summaryText == "" {
        return;
      }
      app.CompleteActivity(showSummaryModal.value, summaryText);
      showSummaryModal, viewActivity, summaryText := None, None, "";
    }
  }
}
