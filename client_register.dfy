/**
 * The registration form of the browser client, which keeps its own user
 * list (names and plain passwords) in browser storage; the list is a value
 * passed in and the list written back is returned.
 */
module ClientRegister {

  datatype StoredUser = StoredUser(username: string, password: string)

  datatype RegisterOutcome = PasswordsDiffer | UsernameExists | Registered

  /** No two stored users share a name. */
  ghost predicate UniqueUsernames(users: seq<StoredUser>)
  {
    forall i, j :: 0 <= i < j < |users| ==> users[i].username != users[j].username
  }

  /**
   * `handleSubmit`: a password that differs from its confirmation is refused
   * before the list is looked at, a name already stored is refused, and
   * otherwise `{ username, password }` is pushed and the list saved.
   */
  method HandleSubmit(users: seq<StoredUser>, username: string, password: string, confirmPassword: string)
    returns (outcome: RegisterOutcome, saved: seq<StoredUser>)
    ensures outcome == PasswordsDiffer <==> password != confirmPassword
    ensures outcome == UsernameExists <==>
              password == confirmPassword && exists j :: 0 <= j < |users| && users[j].username == username
    ensures outcome != Registered ==> saved == users
    ensures outcome == Registered ==> saved == users + [StoredUser(username, password)]
    ensures UniqueUsernames(users) ==> UniqueUsernames(saved)
  {
    if password != confirmPassword {
      return PasswordsDiffer, users;
    }
    // users.some(u => u.username === username)
    var i := 0;
    while i < |users|
      invariant 0 <= i <= |users|
      invariant forall j :: 0 <= j < i ==> users[j].username != username
    {
      if users[i].username == username {
        return UsernameExists, users;
      }
      i := i + 1;
    }
    saved := users + [StoredUser(username, password)];
    outcome := Registered;
  }
}
