/** The request body accepted when a task is created or replaced. */
module TaskSchema {
  import opened Python

  /** `TaskCreate`: title, description and category are required; deadline (a timestamp) and
      priority default to None. There is no owner field: the owner always comes from the
      authenticated caller. */
  datatype TaskCreate = TaskCreate(
    title: string,
    description: string,
    category: string,
    deadline: Option<int> := None,
    priority: Option<int> := None)

  /** A body that gives only the required fields has neither deadline nor priority. */
  lemma DefaultsAreNone(title: string, description: string, category: string)
    ensures TaskCreate(title, description, category).deadline == None
    ensures TaskCreate(title, description, category).priority == None
  {
  }
}
