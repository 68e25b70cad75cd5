/** The task status enumeration: a `str` enum whose members are stored as their string values. */
module TaskStatus {
  import opened Python

  datatype Status = Todo | InProgress | Done

  /** The string value of each member. */
  function Value(s: Status): string {
    match s
    case Todo => "to-do"
    case InProgress => "in progress"
    case Done => "done"
  }

  /** `Status(v)`: the member whose value is `v`, or None when `v` is not one of the three values. */
  function FromValue(v: string): (r: Option<Status>)
    ensures r.Some? ==> Value(r.value) == v
    ensures r.None? <==> forall s: Status :: Value(s) != v
  {
    if v == "to-do" then Some(Todo)
    else if v == "in progress" then Some(InProgress)
    else if v == "done" then Some(Done)
    else None
  }

  /** Converting a member to its value and back yields the same member. */
  lemma FromValueOfValue(s: Status)
    ensures FromValue(Value(s)) == Some(s)
  {
  }

  /** No two members share a value. */
  lemma ValueInjective(a: Status, b: Status)
    ensures Value(a) == Value(b) ==> a == b
  {
  }
}
