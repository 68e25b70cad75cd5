/** The `users` table and the body that creates a user. */
module UserModel {

  /** One row of `users`: an integer primary key and the identity provider's subject id
      (`cognito_id`, unique), username and email. */
  datatype User = User(id: int, cognitoId: string, username: string, email: string)

  /** `NewUser`: the fields of a user a caller supplies. */
  datatype NewUser = NewUser(cognitoId: string, username: string, email: string)
}
