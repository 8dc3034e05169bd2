/** The form that starts a meeting or an interview: theme and attendee toggles, whole
    department selection, and the record built on submission. */
module ActivityForm {
  import opened Domain
  import opened Seqs
  import Seed
  import Store

  /** The theme that asks for a free-text explanation. */
  const OtherTheme: string := "其他"

  /** The themes offered for an activity of kind `kind`. */
  function ThemeOptions(kind: ActivityType): (r: seq<string>)
    ensures |r| == 4 && r[3] == OtherTheme
    ensures NoDups(r)
  {
    match kind
    case Meeting => ["方案政策", "氛围营造", "专业知识", OtherTheme]
    case Interview => ["业绩跟进", "增员意愿", "日常沟通", OtherTheme]
  }

  /** The submitted themes: each `其他` becomes `其他: ` followed by the explanation. */
  function RewriteThemes(themes: seq<string>, other: string): (r: seq<string>)
    ensures |r| == |themes|
    ensures forall i :: 0 <= i < |themes| && themes[i] != OtherTheme ==> r[i] == themes[i]
    ensures forall i :: 0 <= i < |themes| && themes[i] == OtherTheme ==> r[i] == OtherTheme + ": " + other
  {
    seq(|themes|, i requires 0 <= i < |themes| =>
      if themes[i] == OtherTheme then OtherTheme + ": " + other else themes[i])
  }

  /** The submitted title: the one typed in, or a default naming the kind when it is empty. */
  function SubmittedTitle(title: string, kind: ActivityType): (r: string)
    ensures title != "" ==> r == title
    ensures title == "" && kind == Meeting ==> r == "未命名会议"
    ensures title == "" && kind == Interview ==> r == "未命名面谈"
    ensures r != ""
  {
    if title != "" then title
    else match kind
      case Meeting => "未命名会议"
      case Interview => "未命名面谈"
  }

  /** The department of `handleSelectDept`: the first one of the tree with the name, if any. */
  function FindDept(tree: seq<Seed.Dept>, name: string): (r: Option<Seed.Dept>)
    ensures r.None? <==> forall i :: 0 <= i < |tree| ==> tree[i].name != name
    ensures r.Some? ==> r.value.name == name
    ensures r.Some? ==>
      exists i :: 0 <= i < |tree| && tree[i] == r.value && forall j :: 0 <= j < i ==> tree[j].name != name
  {
    if tree == [] then None
    else if tree[0].name == name then Some(tree[0])
    else
      var r := FindDept(tree[1..], name);
      if r.Some? then
        assert forall j :: 1 <= j < |tree| ==> tree[j] == tree[1..][j - 1];
        r
      else r
  }

  /** The names of a department's staff. */
  function StaffNames(d: Seed.Dept): (r: seq<string>)
    ensures |r| == |d.staff| && forall i :: 0 <= i < |d.staff| ==> r[i] == d.staff[i].name
  {
    seq(|d.staff|, i requires 0 <= i < |d.staff| => d.staff[i].name)
  }

  /** Every staff name is already a participant. */
  predicate AllIncluded(participants: seq<string>, staff: seq<string>) {
    forall i :: 0 <= i < |staff| ==> staff[i] in participants
  }

  /** The participants joined with the staff without duplicates, first occurrences in order,
      as `handleSelectDept` builds them through a set. */
  function Union(participants: seq<string>, staff: seq<string>): (r: seq<string>)
    ensures NoDups(r)
    ensures forall i :: 0 <= i < |participants| ==> participants[i] in r
    ensures forall i :: 0 <= i < |staff| ==> staff[i] in r
    ensures forall i :: 0 <= i < |r| ==> r[i] in participants || r[i] in staff
    ensures forall i, j :: 0 <= i < j < |r| ==>
      FirstIndex(participants + staff, r[i]) < FirstIndex(participants + staff, r[j])
    ensures NoDups(participants) ==> |participants| <= |r| && r[..|participants|] == participants
  {
    var all := participants + staff;
    assert forall i :: 0 <= i < |participants| ==> participants[i] == all[i];
    assert forall i :: 0 <= i < |staff| ==> staff[i] == all[|participants| + i];
    DedupOrder(all);
    if NoDups(participants) then DedupKeepsPrefix(participants, staff); Dedup(all)
    else Dedup(all)
  }

  /** The participants after selecting a department with staff `staff`: when all of them are
      already in, they are removed and the others kept in order; otherwise they are joined
      to the participants without duplicates, keeping first occurrences in order. */
  function SelectDeptParticipants(participants: seq<string>, staff: seq<string>): (r: seq<string>)
    ensures AllIncluded(participants, staff) ==>
      (forall i :: 0 <= i < |r| ==> r[i] !in staff && r[i] in participants) &&
      (forall i :: 0 <= i < |participants| && participants[i] !in staff ==> participants[i] in r) &&
      KeepsOrder(r, participants)
    ensures !AllIncluded(participants, staff) ==> r == Union(participants, staff)
  {
    if AllIncluded(participants, staff) then
      FilterOrder(participants, NotIn(staff));
      Filter(participants, NotIn(staff))
    else Union(participants, staff)
  }

  /** Selecting a department keeps a duplicate-free participant list duplicate-free. */
  lemma SelectDeptKeepsNoDups(participants: seq<string>, staff: seq<string>)
    requires NoDups(participants)
    ensures NoDups(SelectDeptParticipants(participants, staff))
  {
    if AllIncluded(participants, staff) {
      FilterNoDups(participants, NotIn(staff));
    }
  }

  /** The state of the form (`formData`). Text inputs assign the text fields directly. */
  class FormState {
    const kind: ActivityType
    var title: string
    var subType: string
    var time: string
    var location: string
    var speaker: string
    var personName: string
    var personId: string
    var themes: seq<string>
    var otherTheme: string
    var participants: seq<string>

    /** A blank form for `kind`, dated 2026-01-01, sub-type 早会 for a meeting, 面谈 for an interview. */
    constructor (kind: ActivityType)
      ensures this.kind == kind && title == "" && time == "2026-01-01"
      ensures subType == (if kind == Meeting then "早会" else "面谈")
      ensures location == "" && speaker == "" && personName == "" && personId == ""
      ensures themes == [] && otherTheme == "" && participants == []
    {
      this.kind := kind;
      title := "";
      subType := if kind == Meeting then "早会" else "面谈";
      time := "2026-01-01";
      location, speaker, personName, personId := "", "", "", "";
      themes, otherTheme, participants := [], "", [];
    }

    /** `handleToggleTheme`. */
    method ToggleTheme(t: string)
      modifies this`themes
      ensures themes == Toggle(old(themes), t)
      ensures NoDups(old(themes)) ==> NoDups(themes)
      ensures (forall x :: x in old(themes) ==> x in ThemeOptions(kind)) && t in ThemeOptions(kind) ==>
        forall x :: x in themes ==> x in ThemeOptions(kind)
    {
      if NoDups(themes) {
        ToggleNoDups(themes, t);
      }
      themes := Toggle(themes, t);
    }

    /** `handleToggleAttendee`. */
    method ToggleAttendee(name: string)
      modifies this`participants
      ensures participants == Toggle(old(participants), name)
      ensures NoDups(old(participants)) ==> NoDups(participants)
    {
      if NoDups(participants) {
        ToggleNoDups(participants, name);
      }
      participants := Toggle(participants, name);
    }

    /** `handleSelectDept`: an unknown department name changes nothing. */
    method SelectDept(deptName: string)
      modifies this`participants
      ensures FindDept(Seed.DeptTree(), deptName).None? ==> participants == old(participants)
      ensures FindDept(Seed.DeptTree(), deptName).Some? ==>
        participants == SelectDeptParticipants(old(participants), StaffNames(FindDept(Seed.DeptTree(), deptName).value))
      ensures NoDups(old(participants)) ==> NoDups(participants)
    {
      var dept := FindDept(Seed.DeptTree(), deptName);
      if dept.None? {
        return;
      }
      var staffNames := StaffNames(dept.value);
      if NoDups(participants) {
        SelectDeptKeepsNoDups(participants, staffNames);
      }
      participants := SelectDeptParticipants(participants, staffNames);
    }

    /** Picking the interviewee from the staff picker. */
    method PickInterviewee(name: string, id: string)
      modifies this`personName, this`personId
      ensures personName == name && personId == id
    {
      personName, personId := name, id;
    }

    /** The record `handleFormSubmit` hands over; `id` and `createdAt` are generated by the caller. */
    function Submission(id: string, createdAt: int): (a: Activity)
      reads this
      ensures a.id == id && a.kind == kind && a.createdAt == createdAt
      ensures a.status == Ongoing && a.summary == None
      ensures a.title == SubmittedTitle(title, kind)
      ensures a.themes == RewriteThemes(themes, otherTheme)
      ensures a.subType == subType && a.time == time && a.participants == Some(participants)
      ensures a.location == Some(location) && a.speaker == Some(speaker)
      ensures a.personName == Some(personName) && a.idCard == Some(personId)
    {
      Activity(id, kind, subType, SubmittedTitle(title, kind), time, Some(participants),
               Some(location), Some(speaker), Some(personName), Some(personId),
               RewriteThemes(themes, otherTheme), Ongoing, None, createdAt)
    }

    /** Submitting the form: the surface passes the record on to `handleCreateActivity`. */
    method SubmitTo(app: Store.App, id: string, createdAt: int)
      modifies app
      ensures app.activities == [Submission(id, createdAt)] + old(app.activities)
      ensures app.targets == old(app.targets) && app.selectedMonth == old(app.selectedMonth)
    {
      app.CreateActivity(Submission(id, createdAt));
    }
  }
}
