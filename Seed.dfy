/** The demonstration data the application starts from, and its fixed option lists. */
module Seed {
  import opened Domain

  /** A staff member that the meeting attendee picker can select. */
  datatype Staff = Staff(name: string, id: string)

  /** A department of the attendee picker. */
  datatype Dept = Dept(name: string, staff: seq<Staff>)

  /** The two training-meeting and interview targets agent 张三 has accepted for 2026-01. */
  function InitialTargets(): (r: seq<Target>)
    ensures |r| == 2 && r[0].category != r[1].category && r[0].id != r[1].id
    ensures forall i :: 0 <= i < |r| ==>
      r[i].status == Accepted && r[i].meName == "张三" && r[i].month == "2026-01" && 0 <= r[i].actual < r[i].goal
  {
    [ Target("t1", "2026-01", TrainingMeeting, 10, 8, Accepted, None, "张三"),
      Target("t2", "2026-01", OneOnOne, 20, 15, Accepted, None, "张三") ]
  }

  /** Two completed activities; `now` stands for the clock reading their creation times derive from. */
  function InitialActivities(now: int): (r: seq<Activity>)
    ensures |r| == 2 && r[0].id != r[1].id && r[0].kind == Meeting && r[1].kind == Interview
    ensures forall i :: 0 <= i < |r| ==> r[i].status == Completed && r[i].summary.Some? && r[i].createdAt < now
    ensures r[0].createdAt < r[1].createdAt
  {
    [ Activity("a1", Meeting, "早会", "2026开年首战宣导", "2026-01-05", None,
               Some("第一会议室"), Some("李总"), None, None, ["方案政策"], Completed,
               Some("会议顺利进行，明确了1月业务节奏。"), now - 86400000 * 5),
      Activity("a2", Interview, "面谈", "王五绩优月度沟通", "2026-01-08", None,
               None, None, Some("王五"), Some("600123"), ["意愿沟通"], Completed,
               Some("王五表示对1月目标非常有信心。"), now - 86400000 * 2) ]
  }

  /** The months a target can be issued for. */
  function MonthOptions(): (r: seq<string>)
    ensures |r| == 3 && r[1] == "2026-01"
    ensures r[0] != r[1] && r[0] != r[2] && r[1] != r[2]
  {
    ["2025-12", "2026-01", "2026-02"]
  }

  /** The agents a target can be issued to; the first is the agent of the desktop and phone views. */
  function MeList(): (r: seq<string>)
    ensures |r| == 3 && r[0] == "张三"
    ensures r[0] != r[1] && r[0] != r[2] && r[1] != r[2]
  {
    ["张三", "李四", "王五"]
  }

  function DeptTree(): (r: seq<Dept>)
    ensures |r| == 2 && r[0].name != r[1].name
    ensures forall i :: 0 <= i < |r| ==> |r[i].staff| == 2 && r[i].staff[0].name != r[i].staff[1].name
  {
    [ Dept("第一营业部", [Staff("王五", "600123"), Staff("赵六", "600124")]),
      Dept("第二营业部", [Staff("小明", "600201"), Staff("小红", "600202")]) ]
  }
}
