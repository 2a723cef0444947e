/** The user record both services return (User.cs). */
module Users {

  /**
   * The scalar properties of a user record. The nested `Address` and `Company`
   * records are not part of this model: no decision in the core looks inside a
   * user, so a user is only ever stored, compared and returned.
   */
  datatype User = User(
    id: int,
    name: string,
    username: string,
    email: string,
    phone: string,
    website: string)
}
