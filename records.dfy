/** The records the marketplace keeps in the browser's local store under the
    keys `users`, `requests` and `currentUser`. Serialisation to JSON text is
    not modelled: a stored collection is a sequence of these values. */
module Records {

  /** An optional value: the `currentUser` key, present or absent. */
  datatype Option<+T> = None | Some(value: T)

  /** The role names the dashboard branches on, and the two request states. */
  const ROLE_HOMEOWNER: string := "homeowner"
  const ROLE_EXPERT: string := "expert"
  const STATUS_OPEN: string := "Open"
  const STATUS_CLOSED: string := "Closed"

  /** A registered account; `email` is the natural key checked at signup.
      `role` is a free string: any value other than "expert" is treated as a homeowner. */
  datatype User = User(name: string, email: string, password: string, role: string)

  /** An expert's offer on one request; the price is kept as the text typed in. */
  datatype Offer = Offer(expertName: string, expertEmail: string, price: string, message: string)

  /** A homeowner's service request. `offers` is `None` when the stored record
      carries no offer list at all; a freshly posted request has `Some([])`. */
  datatype ServiceRequest = ServiceRequest(
    id: string,
    homeownerId: string,
    homeownerName: string,
    title: string,
    category: string,
    description: string,
    status: string,
    date: string,
    offers: Option<seq<Offer>>)
  {
    /** The offers received so far, an absent list reading as empty. */
    function OfferList(): seq<Offer> {
      if offers.Some? then offers.value else []
    }
  }
}
