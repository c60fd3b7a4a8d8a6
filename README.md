# FixItMate data layer, in Dafny

FixItMate is a browser prototype of a home-services marketplace. Homeowners post
service requests, experts send offers, and a homeowner accepts an offer to close
a request. The browser's local store holds all its state under three keys:
`users`, `requests` and `currentUser`. This project models the data layer of
`src/main.ts`: the records, the handlers that change them and the pure views that
decide what each dashboard shows.

- `records.dfy` (module `Records`): `User`, `Offer` and `ServiceRequest`, plus the
  role and status names. A stored request may have no offer list at all, so
  `offers` is an `Option`.
- `lists.dfy` (module `Lists`): the array built-ins the handlers use. These are
  `findIndex` (also used for `find`), `filter` and `some`, each specified by
  what it returns. There are also lemmas that filtering keeps storage order.
- `text.dfy` (module `Text`): `String.replace` with a string pattern, which
  rewrites only the first occurrence. Also the greeting's first name,
  `name.split(' ')[0]`.
- `auth.dfy` (module `Auth`): signup's duplicate-email check, login's credential
  lookup, the role read from the signup form, and e-mail uniqueness.
- `requests.dfy` (module `Requests`): posting a request, adding an offer and
  closing a request, all as functions on the request list. Also the homeowner's
  list, the job board and the "already offered" flag.
- `dashboard.dfy` (module `Dashboard`): the page the dashboard renders for a
  session. This is the role branch with the two boards' contents.
- `store.dfy` (module `Marketplace`): class `Store` with the three stored
  collections as fields. Its methods are the six handlers: signup, login,
  logout, create request, submit offer and accept offer. Each method's postcondition
  gives the whole new state in terms of the old one.

Every lookup by request id takes the first request with that id. Ids are not
assumed to be unique.

## Model

| member | source | states |
|---|---|---|
| Lists.FindIndex | src/main.ts:294 | the result is the position of the first element that satisfies the callback, and no earlier element satisfies it; `None` only when no element satisfies it |
| Lists.FindIndexIsFirst | src/main.ts:314 | whichever position is the first match is exactly the one `findIndex` returns |
| Lists.Filter | src/main.ts:200 | an element is in the result iff it is in the input and satisfies the callback; the result is never longer than the input |
| Lists.FilterConcat | src/main.ts:254 | filtering a concatenation gives the two filtered parts concatenated, so storage order is kept |
| Lists.FilterAtKept | src/main.ts:254 | a kept element stands in the filtered list exactly between what is kept before it and what is kept after it |
| Lists.FilterAtDropped | src/main.ts:254 | a dropped element contributes nothing: the filtered list is what is kept before it followed by what is kept after it |
| Lists.Any | src/main.ts:260 | `some` holds iff at least one element satisfies the callback |
| Text.IndexOf | src/main.ts:93 | the result is where the pattern first occurs; `None` iff it occurs nowhere |
| Text.ReplaceFirst | src/main.ts:93 | with no occurrence the string is unchanged; otherwise only the first occurrence is replaced, by the replacement text taken literally |
| Text.ReplaceFirstAtStart | src/main.ts:93 | a pattern at the very start is the occurrence that gets replaced |
| Text.FirstWord | src/main.ts:64 | the result is a prefix of the name, contains no space, and is either the whole name or ends just before the first space |
| Text.FirstWordOfJoined | src/main.ts:64 | a name made of a space-free word, a space and anything else greets by that word; a space-free name greets by the whole name |
| Text.FirstWordIdempotent | src/main.ts:64 | taking the first word of a first word changes nothing |
| Auth.EmailTaken | src/main.ts:96-100 | signup refuses iff some stored account has the same e-mail |
| Auth.Authenticate | src/main.ts:120-123 | login finds an account iff some stored account matches both e-mail and password exactly; the one returned is the first such account |
| Auth.RoleFromRadio | src/main.ts:93 | with no radio button checked the role is "homeowner"; an id without "role-" is kept as is |
| Auth.RoleFromPrefixedId | src/main.ts:93 | a radio id "role-" + x gives the role x |
| Auth.SignupKeepsEmailsUnique | src/main.ts:96-102 | appending an account whose e-mail is not taken keeps e-mails unique |
| Auth.LoginAfterSignup | src/main.ts:102-121 | after a successful signup, logging in with the same e-mail and password finds exactly the new account |
| Auth.LoginWithUniqueEmails | src/main.ts:121 | with unique e-mails, login succeeds iff the one account with that e-mail has that password, and then yields that account |
| Requests.WithOffer | src/main.ts:293-304 | for the first request with the id, the offer is appended to its offers, an absent list counting as empty; its other fields and all other requests are unchanged; an unknown id changes nothing |
| Requests.Close | src/main.ts:313-318 | for the first request with the id, the status becomes "Closed"; its offers, its other fields and all other requests are unchanged; an unknown id changes nothing |
| Requests.CloseKeepsFirstWithId | src/main.ts:314-317 | after closing, the same request is still the first with that id |
| Requests.CloseIdempotent | src/main.ts:310-318 | accepting twice leaves the same requests as accepting once |
| Requests.MyRequests | src/main.ts:200 | a request is on the homeowner's list iff it is stored and its `homeownerId` is the user's e-mail |
| Requests.OpenJobs | src/main.ts:254 | a request is on the job board iff it is stored and its status is "Open" |
| Requests.HasOffered | src/main.ts:260 | the flag holds iff the request has an offer list and some offer in it has the user's e-mail |
| Requests.PostedHeadsLists | src/main.ts:190-200 | a request put at the front heads its owner's list and the job board, and the rest of each list keeps its order |
| Requests.OfferSetsHasOffered | src/main.ts:297-298 | after an expert's offer, the request shows that expert as having offered, and flags already set stay set |
| Requests.OfferKeepsLists | src/main.ts:297-298 | submitting an offer adds or removes nothing on either dashboard list: on the job board (if open) and on its owner's list, the request offered on stays at its place, now carrying the offer, and every other entry is unchanged; lists it is not on are unchanged |
| Requests.CloseLeavesJobBoard | src/main.ts:317 | accepting an open request takes exactly that request off the job board; the jobs before and after it stay, in order |
| Requests.CloseKeepsOwnList | src/main.ts:317 | on its owner's list the accepted request stays at its place, now "Closed", with the entries around it unchanged; every other homeowner's list is unchanged |
| Dashboard.JobCards | src/main.ts:259-260 | there is one card per open job, in board order, and each card carries that job's "already offered" flag |
| Dashboard.DashboardFor | src/main.ts:134-147 | no session gives a redirect to login. Role "expert" gives the job board: the open requests in storage order, each with its flag. Any other role gives the homeowner's own requests |
| Dashboard.PostedRequestShown | src/main.ts:190-200 | a request a homeowner just posted appears first on that homeowner's dashboard |
| Marketplace.Store.constructor | src/main.ts:96 | the store starts with the collections found in the browser |
| Marketplace.Store.Signup | src/main.ts:89-107 | a taken e-mail changes nothing. Otherwise exactly one account is appended, with the role from the form, and it becomes the session. Requests never change. Unique e-mails stay unique, and a stored session stays stored |
| Marketplace.Store.Login | src/main.ts:120-128 | the session becomes the first account matching both credentials; with no match it is unchanged; users and requests never change |
| Marketplace.Store.Logout | src/main.ts:70-73 | the session is gone afterwards; users and requests are unchanged |
| Marketplace.Store.CreateRequest | src/main.ts:177-191 | the new request is at index 0. It is owned by the user's e-mail under the user's name, carries the given id, title, category, description and date, is "Open" and has no offers. The earlier requests follow it unchanged |
| Marketplace.Store.SubmitOffer | src/main.ts:293-307 | requests become `WithOffer` of the old requests; users and session are unchanged |
| Marketplace.Store.AcceptOffer | src/main.ts:310-322 | a confirmed accept turns requests into `Close` of the old requests; a declined one changes nothing; users and session are unchanged |

The greeting splits on the single space character, as `split(' ')` does. It
does not split on other whitespace. A name that begins with a space greets by
the empty string.

## Left out

- Serialisation: JSON parsing and writing of the stored keys is not modelled. A
  stored collection is a Dafny sequence, and a missing key reads as empty
  because the constructor takes whatever the browser holds.
- Malformed or tampered stored records and cross-tab last-writer-wins: there is
  no logic for them. Records are assumed well-formed.
- `alert`, `confirm`, redirects and page reloads are platform I/O. The
  confirmation dialog of accept becomes the `confirmed` parameter. The
  `expertName` argument of accept only appears in the dialog text, so it is not
  modelled.
- `Date.now()` ids and `toLocaleDateString()` dates read the clock and the
  locale. They are parameters of `CreateRequest`.
- DOM work is not modelled: templates, cards, the form toggle, the header and
  wiring the logout button (src/main.ts:56-69); the logout itself is. It includes the HTML detail that an
  Accept button appears beside each offer only while the request is "Open".
- Scroll reveal, smooth scrolling and the theme toggle are cosmetic browser
  features.
- Reading form fields is not modelled. The handlers take the values as
  parameters, and signup takes the checked radio button's id, or `None`.
