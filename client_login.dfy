/** The login form of the browser client, checked against the stored user list. */
module ClientLogin {
  import opened Wrappers
  import opened ClientRegister

  /** `users.find(u => u.username === username && u.password === password)`. */
  function FindUser(users: seq<StoredUser>, username: string, password: string): (r: Option<StoredUser>)
    ensures r.None? <==> forall j :: 0 <= j < |users| ==> users[j] != StoredUser(username, password)
    ensures r.Some? ==> r.value == StoredUser(username, password) && r.value in users
  {
    if users == [] then None
    else if users[0].username == username && users[0].password == password then Some(users[0])
    else FindUser(users[1..], username, password)
  }

  /**
   * `handleSubmit`: the name handed to `login`, if a stored user has both
   * that name and that password; `None` means "Invalid credentials".
   */
  function HandleSubmit(users: seq<StoredUser>, username: string, password: string): (loggedIn: Option<string>)
    ensures loggedIn.Some? <==>
              exists j :: 0 <= j < |users| && users[j].username == username && users[j].password == password
    ensures loggedIn.Some? ==> loggedIn.value == username
  {
    if FindUser(users, username, password).Some? then Some(username) else None
  }

  /** With unique names, a stored name typed with another password does not log in. */
  lemma WrongPasswordRejected(users: seq<StoredUser>, k: nat, password: string)
    requires UniqueUsernames(users)
    requires k < |users| && users[k].password != password
    ensures HandleSubmit(users, users[k].username, password) == None
  {
  }

  /** A user just appended by registration logs in with the same name and password. */
  lemma LoginAfterRegister(users: seq<StoredUser>, username: string, password: string)
    ensures HandleSubmit(users + [StoredUser(username, password)], username, password) == Some(username)
  {
    var s := users + [StoredUser(username, password)];
    assert s[|users|] == StoredUser(username, password);
  }
}
