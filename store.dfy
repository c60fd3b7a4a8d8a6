/** The marketplace's local record store and the handlers that change it:
    signup, login, logout, posting a request, submitting an offer and accepting one.
    Each handler reads a collection, changes it and writes it back; the store
    holds the three collections directly. */
module Marketplace {
  import opened Records
  import opened Lists
  import opened Auth
  import opened Requests

  class Store {
    var users: seq<User>
    var requests: seq<ServiceRequest>
    var currentUser: Option<User>

    /** The session, when there is one, is a stored account. */
    ghost predicate SessionStored()
      reads this
    {
      currentUser.Some? ==> currentUser.value in users
    }

    /** The store as it is found in the browser. */
    constructor (users: seq<User>, requests: seq<ServiceRequest>, currentUser: Option<User>)
      ensures this.users == users && this.requests == requests && this.currentUser == currentUser
    {
      this.users := users;
      this.requests := requests;
      this.currentUser := currentUser;
    }

    /** Signup: refused when the e-mail is taken; otherwise the new account is
        appended and becomes the session. */
    method Signup(name: string, email: string, password: string, checkedRoleId: Option<string>) returns (created: bool)
      modifies this
      ensures created <==> !EmailTaken(old(users), email)
      ensures !created ==> users == old(users) && currentUser == old(currentUser)
      ensures created ==>
        && users == old(users) + [User(name, email, password, RoleFromRadio(checkedRoleId))]
        && currentUser == Some(User(name, email, password, RoleFromRadio(checkedRoleId)))
      ensures requests == old(requests)
      ensures UniqueEmails(old(users)) ==> UniqueEmails(users)
      ensures old(SessionStored()) ==> SessionStored()
    {
      var newUser := User(name, email, password, RoleFromRadio(checkedRoleId));
      var existing := FindIndex(users, EmailIs(email));
      if existing.Some? {
        return false;
      }
      users := users + [newUser];
      currentUser := Some(newUser);
      created := true;
    }

    /** Login: the first account with both the e-mail and the password becomes
        the session; without a match the session is left as it was. */
    method Login(email: string, password: string) returns (found: bool)
      modifies this
      ensures found <==> Authenticate(users, email, password).Some?
      ensures currentUser == if found then Authenticate(users, email, password) else old(currentUser)
      ensures users == old(users) && requests == old(requests)
      ensures old(SessionStored()) ==> SessionStored()
    {
      var i := FindIndex(users, CredentialsAre(email, password));
      if i.Some? {
        currentUser := Some(users[i.value]);
        found := true;
      } else {
        found := false;
      }
    }

    /** Logout: the session is removed; the stored collections stay. */
    method Logout()
      modifies this
      ensures currentUser == None
      ensures users == old(users) && requests == old(requests)
      ensures SessionStored()
    {
      currentUser := None;
    }

    /** Posting a request: the new open request, with an empty offer list, is
        put at the front of `requests`. */
    method CreateRequest(user: User, id: string, title: string, category: string, description: string, date: string)
      modifies this
      ensures requests == [NewRequest(user, id, title, category, description, date)] + old(requests)
      ensures requests[0].homeownerId == user.email && requests[0].homeownerName == user.name
      ensures requests[0].id == id && requests[0].date == date
      ensures requests[0].title == title && requests[0].category == category && requests[0].description == description
      ensures requests[0].status == STATUS_OPEN && requests[0].offers == Some([])
      ensures users == old(users) && currentUser == old(currentUser)
    {
      var req := NewRequest(user, id, title, category, description, date);
      requests := [req] + requests;
    }

    /** Submitting an offer on the first request with `requestId`; nothing
        happens when there is none. */
    method SubmitOffer(requestId: string, expertName: string, expertEmail: string, price: string, message: string)
      modifies this
      ensures requests == WithOffer(old(requests), requestId, Offer(expertName, expertEmail, price, message))
      ensures users == old(users) && currentUser == old(currentUser)
    {
      var i := FindIndex(requests, IdIs(requestId));
      if i.Some? {
        var req := requests[i.value];
        var offers := req.OfferList() + [Offer(expertName, expertEmail, price, message)];
        requests := requests[i.value := req.(offers := Some(offers))];
      }
    }

    /** Accepting an offer: once confirmed, the first request with `requestId`
        is closed; a declined confirmation or an unknown id changes nothing. */
    method AcceptOffer(requestId: string, confirmed: bool)
      modifies this
      ensures requests == if confirmed then Close(old(requests), requestId) else old(requests)
      ensures users == old(users) && currentUser == old(currentUser)
    {
      if !confirmed {
        return;
      }
      var i := FindIndex(requests, IdIs(requestId));
      if i.Some? {
        requests := requests[i.value := requests[i.value].(status := STATUS_CLOSED)];
      }
    }
  }
}
