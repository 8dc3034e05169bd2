/** The supervisor's desk: a form that issues a monthly target to an agent, guarded
    against a second live target in the same slot, and the dashboard of all targets. */
module HeadView {
  import opened Domain
  import opened Store
  import Seed

  /** The issuing form: agent, month, category and goal. */
  datatype IssueForm = IssueForm(me: string, month: string, category: TargetCategory, goal: int)

  /** The form as first shown: the first agent, the second month option, training meetings, goal 10. */
  function InitialForm(): (f: IssueForm)
    ensures f.me == "张三" && f.month == "2026-01" && f.category == TrainingMeeting && f.goal == 10
    ensures f.me in Seed.MeList() && f.month in Seed.MonthOptions()
  {
    IssueForm(Seed.MeList()[0], Seed.MonthOptions()[1], TrainingMeeting, 10)
  }

  /** The guard of `handleSubmit`: a pending or accepted target of the form's agent,
      month and category exists. */
  predicate AlreadyIssued(ts: seq<Target>, form: IssueForm) {
    exists i :: 0 <= i < |ts| && ts[i].meName == form.me && ts[i].month == form.month &&
      ts[i].category == form.category && Live(ts[i])
  }

  /** `handleSubmit`: nothing (the alert) when the guard fires, otherwise the new target,
      pending with nothing achieved yet; `id` is the freshly generated identifier. */
  function Submit(ts: seq<Target>, form: IssueForm, id: string): (r: Option<Target>)
    ensures r.None? <==> AlreadyIssued(ts, form)
    ensures r.Some? ==> r.value.id == id && r.value.actual == 0 && r.value.status == Pending
    ensures r.Some? ==> r.value.rejectionReason == None
    ensures r.Some? ==>
      r.value.month == form.month && r.value.category == form.category &&
      r.value.meName == form.me && r.value.goal == form.goal
  {
    if AlreadyIssued(ts, form) then None
    else Some(Target(id, form.month, form.category, form.goal, 0, Pending, None, form.me))
  }

  /** The store's targets after the supervisor submits `form`. */
  function TargetsAfterIssue(ts: seq<Target>, form: IssueForm, id: string): (r: seq<Target>)
    ensures AlreadyIssued(ts, form) ==> r == ts
    ensures !AlreadyIssued(ts, form) ==> |ts| <= |r| <= |ts| + 1
    ensures !AlreadyIssued(ts, form) ==>
      exists k :: 0 <= k < |r| && r[k].meName == form.me && r[k].month == form.month &&
        r[k].category == form.category && r[k].goal == form.goal && r[k].actual == 0 && r[k].status == Pending
  {
    match Submit(ts, form, id)
    case None => ts
    case Some(t) =>
      SubmittedIsNotAlreadyAccepted(ts, form, id);
      var k := FindSlot(ts, t);
      var r := TargetsAfterAdd(ts, t);
      assert k == -1 ==> r[|ts|] == t;
      assert k != -1 ==> r[k] == t.(id := ts[k].id);
      r
  }

  /** The form as first shown cannot be submitted against the seed data: agent 张三 has
      already accepted a training-meeting target for 2026-01. */
  lemma InitialFormBlockedBySeed(id: string)
    ensures Submit(Seed.InitialTargets(), InitialForm(), id).None?
  {
    var ts := Seed.InitialTargets();
    assert ts[0].meName == InitialForm().me && ts[0].month == InitialForm().month;
    assert ts[0].category == InitialForm().category && Live(ts[0]);
  }

  /** A target that passes the form's guard is never refused by the store. */
  lemma SubmittedIsNotAlreadyAccepted(ts: seq<Target>, form: IssueForm, id: string)
    requires Submit(ts, form, id).Some?
    ensures !IsAlreadyAccepted(ts, Submit(ts, form, id).value)
  {
    var t := Submit(ts, form, id).value;
    forall i | 0 <= i < |ts| && SameSlot(ts[i], t) ensures ts[i].status != Accepted {
      assert !Live(ts[i]);
    }
  }

  /** Issuing through the form keeps at most one live target per slot. */
  lemma IssueKeepsAtMostOneLive(ts: seq<Target>, form: IssueForm, id: string)
    requires AtMostOneLive(ts)
    ensures AtMostOneLive(TargetsAfterIssue(ts, form, id))
  {
    var s := Submit(ts, form, id);
    if s.Some? {
      var t := s.value;
      SubmittedIsNotAlreadyAccepted(ts, form, id);
      var r := TargetsAfterIssue(ts, form, id);
      var k := FindSlot(ts, t);
      forall i, j | 0 <= i < j < |r| ensures SameSlot(r[i], r[j]) ==> !(Live(r[i]) && Live(r[j])) {
        if k == -1 {
          if j == |ts| {
            assert r[i] == ts[i] && !SameSlot(ts[i], t);
          } else {
            assert r[i] == ts[i] && r[j] == ts[j];
          }
        } else if i == k {
          assert r[j] == ts[j] && SameSlot(r[i], t);
          assert SameSlot(ts[j], t) ==> !Live(ts[j]);
        } else if j == k {
          assert r[i] == ts[i] && SameSlot(r[j], t) && !SameSlot(ts[i], t);
        } else {
          assert r[i] == ts[i] && r[j] == ts[j];
        }
      }
    }
  }

  /** A rejected target does not block re-issuing: when slot's first target `ts[k]` was
      rejected and nothing in the slot is live, the store overwrites it in place with a
      fresh pending target that keeps the old id. */
  lemma ReissueOverwritesRejected(ts: seq<Target>, form: IssueForm, id: string, k: nat)
    requires k < |ts| && ts[k].status == Rejected
    requires ts[k].meName == form.me && ts[k].month == form.month && ts[k].category == form.category
    requires forall j :: 0 <= j < k ==> !(ts[j].meName == form.me && ts[j].month == form.month && ts[j].category == form.category)
    requires !AlreadyIssued(ts, form)
    ensures TargetsAfterIssue(ts, form, id) == ts[k := Target(ts[k].id, form.month, form.category, form.goal, 0, Pending, None, form.me)]
  {
    var t := Submit(ts, form, id).value;
    SubmittedIsNotAlreadyAccepted(ts, form, id);
    assert SameSlot(ts[k], t);
    assert forall j :: 0 <= j < k ==> !SameSlot(ts[j], t);
  }

  /** The dashboard lists the targets in reverse stored order. */
  function Dashboard(ts: seq<Target>): (r: seq<Target>)
    ensures |r| == |ts|
    ensures forall i :: 0 <= i < |ts| ==> r[i] == ts[|ts| - 1 - i]
  {
    if ts == [] then [] else [ts[|ts| - 1]] + Dashboard(ts[..|ts| - 1])
  }

  /** Submitting the form against the shared store: `onAddTarget` is called only when the
      guard lets the new target through. */
  method SubmitIssue(app: App, form: IssueForm, id: string) returns (issued: bool)
    modifies app
    ensures issued == !AlreadyIssued(old(app.targets), form)
    ensures app.targets == TargetsAfterIssue(old(app.targets), form, id)
    ensures app.activities == old(app.activities) && app.selectedMonth == old(app.selectedMonth)
  {
    var s := Submit(app.targets, form, id);
    issued := s.Some?;
    if issued {
      SubmittedIsNotAlreadyAccepted(app.targets, form, id);
      var refused := app.AddTarget(s.value);
    }
  }
}
