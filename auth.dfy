/** Signup and login lookups over the stored `users` list, the role taken from
    the signup form, and the uniqueness of e-mail addresses that signup keeps. */
module Auth {
  import opened Records
  import opened Lists
  import opened Text

  /** The `users.find` callback of signup: same e-mail address. */
  function EmailIs(email: string): User -> bool {
    (u: User) => u.email == email
  }

  /** The `users.find` callback of login: same e-mail address and same password. */
  function CredentialsAre(email: string, password: string): User -> bool {
    (u: User) => u.email == email && u.password == password
  }

  /** Signup's duplicate check: some stored account already uses `email`. */
  function EmailTaken(users: seq<User>, email: string): (r: bool)
    ensures r <==> exists k :: 0 <= k < |users| && users[k].email == email
  {
    FindIndex(users, EmailIs(email)).Some?
  }

  /** Login's lookup: the first stored account whose e-mail address and
      password both equal the inputs exactly, or `None`. */
  function Authenticate(users: seq<User>, email: string, password: string): (r: Option<User>)
    ensures r.Some? <==> exists k :: 0 <= k < |users| && users[k].email == email && users[k].password == password
    ensures r.Some? ==> r.value.email == email && r.value.password == password
    ensures r.Some? ==> exists k :: 0 <= k < |users| && users[k] == r.value &&
                                    forall j :: 0 <= j < k ==> !(users[j].email == email && users[j].password == password)
  {
    match FindIndex(users, CredentialsAre(email, password))
    case None => None
    case Some(k) => Some(users[k])
  }

  /** The role chosen on the signup form: the checked radio button's id with
      its first "role-" removed, or "homeowner" when no button is checked. */
  function RoleFromRadio(checkedId: Option<string>): (role: string)
    ensures checkedId.None? ==> role == ROLE_HOMEOWNER
    ensures checkedId.Some? && (forall j: nat :: !OccursAt(checkedId.value, "role-", j)) ==> role == checkedId.value
  {
    match checkedId
    case None => ROLE_HOMEOWNER
    case Some(id) => ReplaceFirst(id, "role-", "")
  }

  /** A radio id of the form "role-" + x gives the role x. The form's ids are
      not in this model; that they read "role-homeowner" and "role-expert" is
      inferred from the `replace('role-', '')` that turns them into roles. */
  lemma RoleFromPrefixedId(x: string)
    ensures RoleFromRadio(Some("role-" + x)) == x
  {
  }

  /** No two stored accounts share an e-mail address. */
  ghost predicate UniqueEmails(users: seq<User>) {
    forall i, j :: 0 <= i < j < |users| ==> users[i].email != users[j].email
  }

  /** Appending an account whose e-mail is not taken keeps e-mails unique. */
  lemma SignupKeepsEmailsUnique(users: seq<User>, u: User)
    requires UniqueEmails(users) && !EmailTaken(users, u.email)
    ensures UniqueEmails(users + [u])
  {
  }

  /** After a signup, logging in with the same e-mail and password finds
      exactly the new account. */
  lemma {:induction false} LoginAfterSignup(users: seq<User>, u: User)
    requires !EmailTaken(users, u.email)
    ensures Authenticate(users + [u], u.email, u.password) == Some(u)
  {
    var all := users + [u];
    FindIndexIsFirst(all, CredentialsAre(u.email, u.password), |users|);
  }

  /** With unique e-mails, login succeeds exactly when the one account with
      that e-mail has that password, and then yields that account. */
  lemma LoginWithUniqueEmails(users: seq<User>, k: int, password: string)
    requires UniqueEmails(users) && 0 <= k < |users|
    ensures Authenticate(users, users[k].email, password) ==
      if users[k].password == password then Some(users[k]) else None
  {
  }
}
