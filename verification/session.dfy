/**
 * The login gate: a fixed allow-list of two username/password pairs, matched
 * exactly (case-sensitive, no hashing).
 */
module Session {
  import opened Optional

  datatype Credential = Credential(username: string, password: string)

  /** What the login form holds: the two credentials and an optional company name. */
  datatype LoginData = LoginData(username: string, password: string, companyName: string)

  /** The fields of the login form. */
  datatype LoginField = Username | Password | LoginCompanyName

  const Users: seq<Credential> := [
    Credential("Noel", "admin@userNOEL"),
    Credential("admin", "admin@user")
  ]

  const InvalidCredentials: string := "Invalid credentials. Please try again."

  /** The allow-list written out: the pairs that open the session. */
  predicate Allowed(username: string, password: string) {
    || (username == "Noel" && password == "admin@userNOEL")
    || (username == "admin" && password == "admin@user")
  }

  /**
   * `users.find(u => u.username === username && u.password === password)`:
   * the first entry matching both fields, if any.
   */
  function FindUser(users: seq<Credential>, username: string, password: string): (r: Option<Credential>)
    ensures r.Some? <==> exists i :: 0 <= i < |users| && users[i] == Credential(username, password)
    ensures r.Some? ==> r.value == Credential(username, password)
  {
    if users == [] then None
    else if users[0].username == username && users[0].password == password then Some(users[0])
    else
      var r := FindUser(users[1..], username, password);
      assert forall i :: 1 <= i < |users| ==> users[i] == users[1..][i - 1];
      r
  }

  /** The lookup succeeds exactly for the two allowed pairs, and then yields the submitted username. */
  lemma LoginSucceedsIff(username: string, password: string)
    ensures FindUser(Users, username, password).Some? <==> Allowed(username, password)
    ensures FindUser(Users, username, password).Some? ==> FindUser(Users, username, password).value.username == username
  {
    if Allowed(username, password) {
      if username == "Noel" {
        assert Users[0] == Credential(username, password);
      } else {
        assert Users[1] == Credential(username, password);
      }
    }
  }
}
