/** The task vocabulary shared by the validators, the task routes and the
    dashboard: the status and priority enumerations and their wire names. */
module Domain {
  import opened Wrappers

  datatype Status = Todo | InProgress | Done
  datatype Priority = Low | Medium | High | Urgent

  function StatusName(s: Status): string
  {
    match s
    case Todo => "TODO"
    case InProgress => "IN_PROGRESS"
    case Done => "DONE"
  }

  function PriorityName(p: Priority): string
  {
    match p
    case Low => "LOW"
    case Medium => "MEDIUM"
    case High => "HIGH"
    case Urgent => "URGENT"
  }

  /** The enumeration literals in declaration order, as `z.enum([...])` lists them. */
  const StatusNames: seq<string> := ["TODO", "IN_PROGRESS", "DONE"]
  const PriorityNames: seq<string> := ["LOW", "MEDIUM", "HIGH", "URGENT"]

  function StatusFromName(name: string): (r: Option<Status>)
    ensures r.Some? <==> name in StatusNames
    ensures r.Some? ==> StatusName(r.value) == name
  {
    if name == "TODO" then Some(Todo)
    else if name == "IN_PROGRESS" then Some(InProgress)
    else if name == "DONE" then Some(Done)
    else None
  }

  function PriorityFromName(name: string): (r: Option<Priority>)
    ensures r.Some? <==> name in PriorityNames
    ensures r.Some? ==> PriorityName(r.value) == name
  {
    if name == "LOW" then Some(Low)
    else if name == "MEDIUM" then Some(Medium)
    else if name == "HIGH" then Some(High)
    else if name == "URGENT" then Some(Urgent)
    else None
  }

  /** Reading back a written name gives the same value. */
  lemma NamesRoundTrip(s: Status, p: Priority)
    ensures StatusFromName(StatusName(s)) == Some(s)
    ensures PriorityFromName(PriorityName(p)) == Some(p)
  {
  }
}
