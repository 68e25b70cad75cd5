/** The `tasks` table. */
module TaskModel {
  import opened Python
  import opened TaskStatus

  /** Declared lengths of the string columns. */
  const TitleLength := 255
  const DescriptionLength := 1024
  const CategoryLength := 255
  const UserIdLength := 255

  /** One row of `tasks`. `id` is the primary key; `deadline` and `priority` are nullable;
      `user_id` refers to `users.cognito_id`; `created_at` is set on insertion. `status` and
      `last_updated` are the two attributes the task routes assign besides the columns. */
  datatype Task = Task(
    id: int,
    title: string,
    description: string,
    category: string,
    deadline: Option<int>,
    priority: Option<int>,
    userId: string,
    createdAt: int,
    status: Status,
    lastUpdated: Option<int>)

  /** The row fits the declared column lengths, so a database that enforces them stores it. */
  predicate FitsColumns(t: Task) {
    && |t.title| <= TitleLength
    && |t.description| <= DescriptionLength
    && |t.category| <= CategoryLength
    && |t.userId| <= UserIdLength
  }
}
