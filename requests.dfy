/** The `requests` collection: posting a request, adding an offer, closing a
    request, and the two lists the dashboards show. Every lookup by id takes
    the FIRST request with that id; ids are not assumed unique. */
module Requests {
  import opened Records
  import opened Lists

  /** The `findIndex` callback of both actions: same id. */
  function IdIs(id: string): ServiceRequest -> bool {
    (r: ServiceRequest) => r.id == id
  }

  /** The `filter` callback of the homeowner's list. */
  function OwnedBy(email: string): ServiceRequest -> bool {
    (r: ServiceRequest) => r.homeownerId == email
  }

  /** The `filter` callback of the expert's job board. */
  function IsOpen(): ServiceRequest -> bool {
    (r: ServiceRequest) => r.status == STATUS_OPEN
  }

  /** The `some` callback of the "already offered" flag. */
  function OfferedBy(email: string): Offer -> bool {
    (o: Offer) => o.expertEmail == email
  }

  /** `i` is the position of the first request with this id. */
  ghost predicate FirstWithId(rs: seq<ServiceRequest>, id: string, i: int) {
    IsFirst(rs, IdIs(id), i)
  }

  /** No request has this id. */
  ghost predicate NoneWithId(rs: seq<ServiceRequest>, id: string) {
    forall j :: 0 <= j < |rs| ==> rs[j].id != id
  }

  /** The request a homeowner posts: owned by the user's e-mail, open, no offers. */
  function NewRequest(user: User, id: string, title: string, category: string, description: string, date: string): ServiceRequest {
    ServiceRequest(id, user.email, user.name, title, category, description, STATUS_OPEN, date, Some([]))
  }

  /** `requests` after `o` is submitted on request `id`: the first request with
      that id gains `o` at the end of its offers (an absent list starting
      empty) and nothing else changes; an unknown id changes nothing. */
  function WithOffer(rs: seq<ServiceRequest>, id: string, o: Offer): (r: seq<ServiceRequest>)
    ensures |r| == |rs|
    ensures NoneWithId(rs, id) ==> r == rs
    ensures forall i :: FirstWithId(rs, id, i) ==>
      && r[i].offers == Some(rs[i].OfferList() + [o])
      && r[i].(offers := rs[i].offers) == rs[i]
      && forall k :: 0 <= k < |rs| && k != i ==> r[k] == rs[k]
  {
    match FindIndex(rs, IdIs(id))
    case None => rs
    case Some(i) =>
      assert FirstWithId(rs, id, i);
      assert forall i' :: FirstWithId(rs, id, i') ==> i' == i;
      rs[i := rs[i].(offers := Some(rs[i].OfferList() + [o]))]
  }

  /** `requests` after the offers on request `id` are accepted: the first
      request with that id is `Closed`, nothing else changes; an unknown id
      changes nothing. Which offer was accepted is not recorded. */
  function Close(rs: seq<ServiceRequest>, id: string): (r: seq<ServiceRequest>)
    ensures |r| == |rs|
    ensures NoneWithId(rs, id) ==> r == rs
    ensures forall i :: FirstWithId(rs, id, i) ==>
      && r[i].status == STATUS_CLOSED
      && r[i].(status := rs[i].status) == rs[i]
      && forall k :: 0 <= k < |rs| && k != i ==> r[k] == rs[k]
  {
    match FindIndex(rs, IdIs(id))
    case None => rs
    case Some(i) =>
      assert FirstWithId(rs, id, i);
      assert forall i' :: FirstWithId(rs, id, i') ==> i' == i;
      rs[i := rs[i].(status := STATUS_CLOSED)]
  }

  /** Ids are untouched by both actions, so the same request is found again. */
  lemma CloseKeepsFirstWithId(rs: seq<ServiceRequest>, id: string, i: int)
    requires FirstWithId(rs, id, i)
    ensures FirstWithId(Close(rs, id), id, i)
  {
  }

  /** Accepting twice is the same as accepting once. */
  lemma CloseIdempotent(rs: seq<ServiceRequest>, id: string)
    ensures Close(Close(rs, id), id) == Close(rs, id)
  {
  }

  /** The homeowner dashboard's list: the requests posted under `email`. */
  function MyRequests(rs: seq<ServiceRequest>, email: string): (r: seq<ServiceRequest>)
    ensures forall x :: x in r <==> x in rs && x.homeownerId == email
  {
    Filter(rs, OwnedBy(email))
  }

  /** The expert dashboard's job board: the requests still open. */
  function OpenJobs(rs: seq<ServiceRequest>): (r: seq<ServiceRequest>)
    ensures forall x :: x in r <==> x in rs && x.status == STATUS_OPEN
  {
    Filter(rs, IsOpen())
  }

  /** The "already offered" flag: the request has an offer list and some offer
      in it comes from `email`. */
  function HasOffered(req: ServiceRequest, email: string): (r: bool)
    ensures r <==> req.offers.Some? && exists o :: o in req.offers.value && o.expertEmail == email
  {
    req.offers.Some? && Any(req.offers.value, OfferedBy(email))
  }

  /** Both lists keep storage order: a request put at the front of `requests`
      heads the owner's list and, while open, the job board. */
  lemma PostedHeadsLists(rs: seq<ServiceRequest>, user: User, id: string, title: string, category: string, description: string, date: string)
    ensures MyRequests([NewRequest(user, id, title, category, description, date)] + rs, user.email)
            == [NewRequest(user, id, title, category, description, date)] + MyRequests(rs, user.email)
    ensures OpenJobs([NewRequest(user, id, title, category, description, date)] + rs)
            == [NewRequest(user, id, title, category, description, date)] + OpenJobs(rs)
  {
  }

  /** After an offer from `o.expertEmail` on request `id`, that request shows
      the expert as having offered; flags already set stay set. */
  lemma OfferSetsHasOffered(rs: seq<ServiceRequest>, id: string, o: Offer, i: int)
    requires FirstWithId(rs, id, i)
    ensures HasOffered(WithOffer(rs, id, o)[i], o.expertEmail)
    ensures forall k, email :: 0 <= k < |rs| && HasOffered(rs[k], email) ==> HasOffered(WithOffer(rs, id, o)[k], email)
  {
  }

  /** Submitting an offer adds or removes nothing on either dashboard list:
      ids, owners and status are untouched, so each list holds the same
      requests in the same places, the one offered on now carrying the offer. */
  lemma {:induction false} OfferKeepsLists(rs: seq<ServiceRequest>, id: string, o: Offer, i: int, email: string)
    requires FirstWithId(rs, id, i)
    ensures rs[i].status == STATUS_OPEN ==>
      OpenJobs(WithOffer(rs, id, o)) == OpenJobs(rs[..i]) + [WithOffer(rs, id, o)[i]] + OpenJobs(rs[i + 1..])
    ensures rs[i].status == STATUS_OPEN ==>
      OpenJobs(rs) == OpenJobs(rs[..i]) + [rs[i]] + OpenJobs(rs[i + 1..])
    ensures rs[i].status != STATUS_OPEN ==> OpenJobs(WithOffer(rs, id, o)) == OpenJobs(rs)
    ensures rs[i].homeownerId == email ==>
      MyRequests(WithOffer(rs, id, o), email) == MyRequests(rs[..i], email) + [WithOffer(rs, id, o)[i]] + MyRequests(rs[i + 1..], email)
    ensures rs[i].homeownerId == email ==>
      MyRequests(rs, email) == MyRequests(rs[..i], email) + [rs[i]] + MyRequests(rs[i + 1..], email)
    ensures rs[i].homeownerId != email ==> MyRequests(WithOffer(rs, id, o), email) == MyRequests(rs, email)
  {
    var x := WithOffer(rs, id, o)[i];
    assert WithOffer(rs, id, o) == rs[i := x];
    ReplaceSlices(rs, i, x);
    if rs[i].status == STATUS_OPEN {
      FilterAtKept(rs, i, IsOpen());
      FilterAtKept(rs[i := x], i, IsOpen());
    } else {
      FilterAtDropped(rs, i, IsOpen());
      FilterAtDropped(rs[i := x], i, IsOpen());
    }
    if rs[i].homeownerId == email {
      FilterAtKept(rs, i, OwnedBy(email));
      FilterAtKept(rs[i := x], i, OwnedBy(email));
    } else {
      FilterAtDropped(rs, i, OwnedBy(email));
      FilterAtDropped(rs[i := x], i, OwnedBy(email));
    }
  }

  lemma ClosedIsNotOpen()
    ensures STATUS_CLOSED != STATUS_OPEN
  {
    assert STATUS_CLOSED[0] != STATUS_OPEN[0];
  }

  /** Accepting an open request takes exactly it off the job board; the rest
      of the board keeps its order. */
  lemma {:induction false} CloseLeavesJobBoard(rs: seq<ServiceRequest>, id: string, i: int)
    requires FirstWithId(rs, id, i) && rs[i].status == STATUS_OPEN
    ensures OpenJobs(rs) == OpenJobs(rs[..i]) + [rs[i]] + OpenJobs(rs[i + 1..])
    ensures OpenJobs(Close(rs, id)) == OpenJobs(rs[..i]) + OpenJobs(rs[i + 1..])
  {
    var x := rs[i].(status := STATUS_CLOSED);
    assert Close(rs, id) == rs[i := x];
    ReplaceSlices(rs, i, x);
    ClosedIsNotOpen();
    FilterAtKept(rs, i, IsOpen());
    FilterAtDropped(rs[i := x], i, IsOpen());
  }

  /** On its owner's list an accepted request stays in place, now "Closed";
      every other homeowner's list is unchanged. */
  lemma {:induction false} CloseKeepsOwnList(rs: seq<ServiceRequest>, id: string, i: int, email: string)
    requires FirstWithId(rs, id, i)
    ensures rs[i].homeownerId == email ==>
      MyRequests(rs, email) == MyRequests(rs[..i], email) + [rs[i]] + MyRequests(rs[i + 1..], email)
    ensures rs[i].homeownerId == email ==>
      MyRequests(Close(rs, id), email)
        == MyRequests(rs[..i], email) + [rs[i].(status := STATUS_CLOSED)] + MyRequests(rs[i + 1..], email)
    ensures rs[i].homeownerId != email ==> MyRequests(Close(rs, id), email) == MyRequests(rs, email)
  {
    var x := rs[i].(status := STATUS_CLOSED);
    assert Close(rs, id) == rs[i := x];
    ReplaceSlices(rs, i, x);
    if rs[i].homeownerId == email {
      FilterAtKept(rs, i, OwnedBy(email));
      FilterAtKept(rs[i := x], i, OwnedBy(email));
    } else {
      FilterAtDropped(rs, i, OwnedBy(email));
      FilterAtDropped(rs[i := x], i, OwnedBy(email));
    }
  }
}
