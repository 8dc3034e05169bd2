/** The records and status enumerations shared by every part of the application. */
module Domain {

  datatype Option<T> = None | Some(value: T)

  datatype TargetStatus = Pending | Accepted | Rejected

  datatype ActivityStatus = Ongoing | PendingSummary | Completed

  datatype ActivityType = Meeting | Interview

  /** The two target categories, `培训会议` (training meeting) and `1v1面谈` (one-on-one interview). */
  datatype TargetCategory = TrainingMeeting | OneOnOne

  /** A monthly target that the supervisor issues to one agent (`meName`). */
  datatype Target = Target(
    id: string,
    month: string,
    category: TargetCategory,
    goal: int,
    actual: int,
    status: TargetStatus,
    rejectionReason: Option<string>,
    meName: string)

  /** One meeting or interview; the optional fields are those the record may omit. */
  datatype Activity = Activity(
    id: string,
    kind: ActivityType,
    subType: string,
    title: string,
    time: string,
    participants: Option<seq<string>>,
    location: Option<string>,
    speaker: Option<string>,
    personName: Option<string>,
    idCard: Option<string>,
    themes: seq<string>,
    status: ActivityStatus,
    summary: Option<string>,
    createdAt: int)

  /** The label under which a category is shown and compared. */
  function CategoryLabel(c: TargetCategory): (name: string)
    ensures name == "培训会议" <==> c == TrainingMeeting
    ensures name == "1v1面谈" <==> c == OneOnOne
  {
    match c
    case TrainingMeeting => "培训会议"
    case OneOnOne => "1v1面谈"
  }

  /** The target category that completing an activity of kind `k` counts towards:
      a meeting counts for training meetings, an interview for interviews. */
  function CategoryOf(k: ActivityType): (c: TargetCategory)
    ensures k == Meeting <==> c == TrainingMeeting
    ensures k == Interview <==> c == OneOnOne
  {
    match k
    case Meeting => TrainingMeeting
    case Interview => OneOnOne
  }
}
