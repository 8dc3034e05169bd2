/** The application shell's state: the targets, the activities and the selected month,
    with the five lifecycle handlers that replace them. Each handler's effect is given
    by a function of the old collections; the class `App` holds the state. */
module Store {
  import opened Domain
  import Seed

  // ---------------------------------------------------------------------------
  // Targets: slots, issuing and responding

  /** Two targets occupy the same slot: same month, category and agent. */
  predicate SameSlot(t: Target, u: Target) {
    t.month == u.month && t.category == u.category && t.meName == u.meName
  }

  /** A target that still counts: waiting for an answer or accepted. */
  predicate Live(t: Target) {
    t.status == Pending || t.status == Accepted
  }

  /** Some target in the slot of `nt` has been accepted; issuing `nt` is then refused. */
  predicate IsAlreadyAccepted(ts: seq<Target>, nt: Target) {
    exists i :: 0 <= i < |ts| && SameSlot(ts[i], nt) && ts[i].status == Accepted
  }

  /** `findIndex` of the first target in the slot of `nt`, or -1 when there is none. */
  function FindSlot(ts: seq<Target>, nt: Target): (k: int)
    ensures -1 <= k < |ts|
    ensures k == -1 <==> forall i :: 0 <= i < |ts| ==> !SameSlot(ts[i], nt)
    ensures 0 <= k ==> SameSlot(ts[k], nt)
    ensures 0 <= k ==> forall i :: 0 <= i < k ==> !SameSlot(ts[i], nt)
  {
    if ts == [] then -1
    else if SameSlot(ts[0], nt) then 0
    else
      var k := FindSlot(ts[1..], nt);
      if k == -1 then -1 else k + 1
  }

  /** The targets after issuing `nt`: unchanged when its slot holds an accepted target;
      otherwise the first target of the slot is overwritten by `nt` keeping its own id,
      or `nt` is appended when the slot is empty. */
  function TargetsAfterAdd(ts: seq<Target>, nt: Target): (r: seq<Target>)
    ensures IsAlreadyAccepted(ts, nt) ==> r == ts
    ensures !IsAlreadyAccepted(ts, nt) ==>
      forall k :: 0 <= k < |ts| && SameSlot(ts[k], nt) && (forall j :: 0 <= j < k ==> !SameSlot(ts[j], nt)) ==>
        |r| == |ts| && r[k] == nt.(id := ts[k].id) &&
        forall j :: 0 <= j < |ts| && j != k ==> r[j] == ts[j]
    ensures !IsAlreadyAccepted(ts, nt) && (forall i :: 0 <= i < |ts| ==> !SameSlot(ts[i], nt)) ==>
      |r| == |ts| + 1 && r[..|ts|] == ts && r[|ts|] == nt
  {
    if IsAlreadyAccepted(ts, nt) then ts
    else
      var k := FindSlot(ts, nt);
      if k != -1 then ts[k := nt.(id := ts[k].id)] else ts + [nt]
  }

  /** The targets after answering target `id` with `status` and `reason`. */
  function Responded(ts: seq<Target>, id: string, status: TargetStatus, reason: Option<string>): (r: seq<Target>)
    ensures |r| == |ts|
    ensures forall i :: 0 <= i < |ts| && ts[i].id == id ==>
      r[i].status == status && r[i].rejectionReason == reason &&
      r[i].(status := ts[i].status, rejectionReason := ts[i].rejectionReason) == ts[i]
    ensures forall i :: 0 <= i < |ts| && ts[i].id != id ==> r[i] == ts[i]
    ensures (forall i :: 0 <= i < |ts| ==> ts[i].id != id) ==> r == ts
  {
    seq(|ts|, i requires 0 <= i < |ts| =>
      if ts[i].id == id then ts[i].(status := status, rejectionReason := reason) else ts[i])
  }

  // ---------------------------------------------------------------------------
  // Activities: completing and overwriting the status

  /** One activity after completing activity `id` with `summary`. */
  function CompleteOne(a: Activity, id: string, summary: string): (r: Activity)
    ensures a.id == id ==> r.status == Completed && r.summary == Some(summary)
    ensures r.(status := a.status, summary := a.summary) == a
    ensures a.id != id ==> r == a
  {
    if a.id == id then a.(status := Completed, summary := Some(summary)) else a
  }

  /** The activities after completing activity `id` with `summary`. */
  function ActivitiesAfterComplete(acts: seq<Activity>, id: string, summary: string): (r: seq<Activity>)
    ensures |r| == |acts|
    ensures forall i :: 0 <= i < |acts| && acts[i].id == id ==>
      r[i].status == Completed && r[i].summary == Some(summary) &&
      r[i].(status := acts[i].status, summary := acts[i].summary) == acts[i]
    ensures forall i :: 0 <= i < |acts| && acts[i].id != id ==> r[i] == acts[i]
  {
    seq(|acts|, i requires 0 <= i < |acts| => CompleteOne(acts[i], id, summary))
  }

  /** The index of the last activity carrying `id`, or -1 when none does. */
  function LastIndexOf(acts: seq<Activity>, id: string): (k: int)
    ensures -1 <= k < |acts|
    ensures k == -1 <==> forall i :: 0 <= i < |acts| ==> acts[i].id != id
    ensures 0 <= k ==> acts[k].id == id
    ensures 0 <= k ==> forall j :: k < j < |acts| ==> acts[j].id != id
  {
    if acts == [] then -1
    else if acts[|acts| - 1].id == id then |acts| - 1
    else LastIndexOf(acts[..|acts| - 1], id)
  }

  /** The category that completing activity `id` credits: that of the LAST activity
      carrying the id (every match overwrites it), or none when no activity has it. */
  function CompletedCategory(acts: seq<Activity>, id: string): (c: Option<TargetCategory>)
    ensures c.None? <==> forall i :: 0 <= i < |acts| ==> acts[i].id != id
    ensures c.Some? ==> c.value == CategoryOf(acts[LastIndexOf(acts, id)].kind)
  {
    var k := LastIndexOf(acts, id);
    if k == -1 then None else Some(CategoryOf(acts[k].kind))
  }

  /** Target `t` is credited for a completion of category `c` while `month` is selected.
      Neither the agent nor the activity's own date is looked at. */
  predicate Credited(t: Target, c: Option<TargetCategory>, month: string) {
    c.Some? && t.category == c.value && t.status == Accepted && t.month == month
  }

  /** The targets after a completion of category `c` while `month` is selected. */
  function TargetsAfterCredit(ts: seq<Target>, c: Option<TargetCategory>, month: string): (r: seq<Target>)
    ensures |r| == |ts|
    ensures forall i :: 0 <= i < |ts| ==> r[i].(actual := ts[i].actual) == ts[i]
    ensures forall i :: 0 <= i < |ts| ==> r[i].actual == if Credited(ts[i], c, month) then ts[i].actual + 1 else ts[i].actual
    ensures forall i :: 0 <= i < |ts| ==> r[i].actual >= ts[i].actual
    ensures c.None? ==> r == ts
  {
    seq(|ts|, i requires 0 <= i < |ts| =>
      if Credited(ts[i], c, month) then ts[i].(actual := ts[i].actual + 1) else ts[i])
  }

  /** The activities after overwriting the status of activity `id`; no transition is checked. */
  function StatusUpdated(acts: seq<Activity>, id: string, status: ActivityStatus): (r: seq<Activity>)
    ensures |r| == |acts|
    ensures forall i :: 0 <= i < |acts| && acts[i].id == id ==> r[i].status == status && r[i].(status := acts[i].status) == acts[i]
    ensures forall i :: 0 <= i < |acts| && acts[i].id != id ==> r[i] == acts[i]
    ensures (forall i :: 0 <= i < |acts| ==> acts[i].id != id) ==> r == acts
  {
    seq(|acts|, i requires 0 <= i < |acts| => if acts[i].id == id then acts[i].(status := status) else acts[i])
  }

  // ---------------------------------------------------------------------------
  // Invariants over the targets

  /** No two targets share a slot. */
  predicate UniqueSlots(ts: seq<Target>) {
    forall i, j :: 0 <= i < j < |ts| ==> !SameSlot(ts[i], ts[j])
  }

  /** At most one live target per slot. */
  predicate AtMostOneLive(ts: seq<Target>) {
    forall i, j :: 0 <= i < j < |ts| && SameSlot(ts[i], ts[j]) ==> !(Live(ts[i]) && Live(ts[j]))
  }

  /** Unique slots leave no room for a second live target in a slot. */
  lemma UniqueSlotsHaveOneLive(ts: seq<Target>)
    requires UniqueSlots(ts)
    ensures AtMostOneLive(ts)
  {
  }

  /** Issuing never puts a second target into a slot: it overwrites or appends to an empty one. */
  lemma AddKeepsUniqueSlots(ts: seq<Target>, nt: Target)
    requires UniqueSlots(ts)
    ensures UniqueSlots(TargetsAfterAdd(ts, nt))
  {
    var r := TargetsAfterAdd(ts, nt);
    if !IsAlreadyAccepted(ts, nt) {
      var k := FindSlot(ts, nt);
      if k == -1 {
        forall i, j | 0 <= i < j < |r| ensures !SameSlot(r[i], r[j]) {
          if j == |ts| {
            assert r[i] == ts[i];
          } else {
            assert r[i] == ts[i] && r[j] == ts[j];
          }
        }
      } else {
        forall i, j | 0 <= i < j < |r| ensures !SameSlot(r[i], r[j]) {
          assert SameSlot(r[k], ts[k]);
        }
      }
    }
  }

  /** A step that keeps every target's slot keeps the slots unique. */
  lemma SlotPreservingStep(ts: seq<Target>, r: seq<Target>)
    requires UniqueSlots(ts)
    requires |r| == |ts| && forall i :: 0 <= i < |ts| ==> SameSlot(r[i], ts[i])
    ensures UniqueSlots(r)
  {
    forall i, j | 0 <= i < j < |r| ensures !SameSlot(r[i], r[j]) {
      assert SameSlot(r[i], ts[i]) && SameSlot(r[j], ts[j]);
    }
  }

  /** Issuing twice into an empty slot, the second time while the first is still pending,
      leaves exactly one record there: the second target under the first one's id. */
  lemma {:induction false} ReissueWhilePendingOverwrites(ts: seq<Target>, nt1: Target, nt2: Target)
    requires forall i :: 0 <= i < |ts| ==> !SameSlot(ts[i], nt1)
    requires SameSlot(nt1, nt2) && nt1.status == Pending
    ensures TargetsAfterAdd(TargetsAfterAdd(ts, nt1), nt2) == ts + [nt2.(id := nt1.id)]
  {
    assert !IsAlreadyAccepted(ts, nt1);
    var r1 := TargetsAfterAdd(ts, nt1);
    assert r1 == ts + [nt1];
    assert !IsAlreadyAccepted(r1, nt2) by {
      forall i | 0 <= i < |r1| && SameSlot(r1[i], nt2) ensures r1[i].status != Accepted {
        assert i == |ts|;
      }
    }
    assert FindSlot(r1, nt2) == |ts|;
  }

  // ---------------------------------------------------------------------------
  // The state holder

  /** The application shell: targets, activities and the selected month. */
  class App {
    var targets: seq<Target>
    var activities: seq<Activity>
    var selectedMonth: string

    /** The initial state: the seed data and month 2026-01; `now` is the clock reading. */
    constructor (now: int)
      ensures targets == Seed.InitialTargets() && activities == Seed.InitialActivities(now)
      ensures selectedMonth == "2026-01"
      ensures UniqueSlots(targets) && AtMostOneLive(targets)
    {
      UniqueSlotsHaveOneLive(Seed.InitialTargets());
      targets := Seed.InitialTargets();
      activities := Seed.InitialActivities(now);
      selectedMonth := "2026-01";
    }

    /** `handleAddTarget`: refuses (the alert) when the slot holds an accepted target. */
    method AddTarget(nt: Target) returns (refused: bool)
      modifies this
      ensures refused == IsAlreadyAccepted(old(targets), nt)
      ensures targets == TargetsAfterAdd(old(targets), nt)
      ensures activities == old(activities) && selectedMonth == old(selectedMonth)
      ensures UniqueSlots(old(targets)) ==> UniqueSlots(targets) && AtMostOneLive(targets)
    {
      if UniqueSlots(targets) {
        AddKeepsUniqueSlots(targets, nt);
        UniqueSlotsHaveOneLive(TargetsAfterAdd(targets, nt));
      }
      refused := IsAlreadyAccepted(targets, nt);
      if refused {
        return;
      }
      var k := FindSlot(targets, nt);
      if k != -1 {
        var updated := targets;
        updated := updated[k := nt.(id := targets[k].id)];
        targets := updated;
      } else {
        targets := targets + [nt];
      }
    }

    /** `handleTargetResponse`: no check of the target's current status. */
    method TargetResponse(id: string, status: TargetStatus, reason: Option<string>)
      modifies this
      ensures targets == Responded(old(targets), id, status, reason)
      ensures activities == old(activities) && selectedMonth == old(selectedMonth)
      ensures UniqueSlots(old(targets)) ==> UniqueSlots(targets) && AtMostOneLive(targets)
    {
      var r := Responded(targets, id, status, reason);
      if UniqueSlots(targets) {
        SlotPreservingStep(targets, r);
        UniqueSlotsHaveOneLive(r);
      }
      targets := r;
    }

    /** `handleCreateActivity`: a new activity is put in front. */
    method CreateActivity(a: Activity)
      modifies this
      ensures activities == [a] + old(activities)
      ensures targets == old(targets) && selectedMonth == old(selectedMonth)
    {
      activities := [a] + activities;
    }

    /** `handleCompleteActivity`: completes the activity while remembering its category,
        then credits every accepted target of that category in the selected month. */
    method CompleteActivity(id: string, summary: string)
      modifies this
      ensures activities == ActivitiesAfterComplete(old(activities), id, summary)
      ensures targets == TargetsAfterCredit(old(targets), CompletedCategory(old(activities), id), old(selectedMonth))
      ensures selectedMonth == old(selectedMonth)
      ensures UniqueSlots(old(targets)) ==> UniqueSlots(targets) && AtMostOneLive(targets)
    {
      var targetType: Option<TargetCategory> := None;
      var updated: seq<Activity> := [];
      var i := 0;
      while i < |activities|
        invariant 0 <= i <= |activities|
        invariant |updated| == i
        invariant forall k :: 0 <= k < i ==> updated[k] == CompleteOne(activities[k], id, summary)
        invariant targetType == CompletedCategory(activities[..i], id)
      {
        var a := activities[i];
        if a.id == id {
          targetType := Some(CategoryOf(a.kind));
          updated := updated + [a.(status := Completed, summary := Some(summary))];
        } else {
          updated := updated + [a];
        }
        assert activities[..i + 1][..i] == activities[..i];
        i := i + 1;
      }
      assert activities[..i] == activities;
      activities := updated;
      var credited := TargetsAfterCredit(targets, targetType, selectedMonth);
      if UniqueSlots(targets) {
        SlotPreservingStep(targets, credited);
        UniqueSlotsHaveOneLive(credited);
      }
      targets := credited;
    }

    /** `handleUpdateStatus`: overwrites the status whatever it was. */
    method UpdateStatus(id: string, status: ActivityStatus)
      modifies this
      ensures activities == StatusUpdated(old(activities), id, status)
      ensures targets == old(targets) && selectedMonth == old(selectedMonth)
    {
      activities := StatusUpdated(activities, id, status);
    }

    /** `setSelectedMonth`, handed to the desktop view's month picker. */
    method SelectMonth(month: string)
      modifies this
      ensures selectedMonth == month
      ensures targets == old(targets) && activities == old(activities)
    {
      selectedMonth := month;
    }
  }
}
