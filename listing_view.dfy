/** How a listing is presented (client/src/components/ListingItem.jsx and
    client/src/pages/Listing.jsx), and the listing page's own state: fetch outcome,
    render precedence and the contact button. */
module ListingView {
  import opened Wrappers

  /** The fields of a listing record that the pages read (`listingType` is its `type`). */
  datatype Listing = Listing(
    id: string,
    name: string,
    listingType: string,
    offer: bool,
    regularPrice: int,
    discountPrice: int,
    bedrooms: int,
    bathrooms: int,
    parking: bool,
    furnished: bool,
    userRef: string,
    imageUrls: seq<string>)

  /** The price shown on a card, on the listing page and in the profile list. */
  function ShownPrice(l: Listing): (price: int)
    ensures price == l.discountPrice || price == l.regularPrice
    ensures l.offer ==> price == l.discountPrice
    ensures !l.offer ==> price == l.regularPrice
  {
    if l.offer then l.discountPrice else l.regularPrice
  }

  /** The "/month" suffix appears exactly for `type === "rent"`, so it goes with the
      "For Rent" badge and never with "For Sale". */
  predicate ShowsMonthSuffix(l: Listing)
    ensures ShowsMonthSuffix(l) <==> TypeLabel(l) == "For Rent"
  {
    l.listingType == "rent"
  }

  /** The type badge: "For Rent" for `type === "rent"`, "For Sale" for anything else. */
  function TypeLabel(l: Listing): (badge: string)
    ensures badge == "For Rent" <==> l.listingType == "rent"
    ensures badge == "For Sale" <==> l.listingType != "rent"
  {
    if l.listingType == "rent" then "For Rent" else "For Sale"
  }

  /** The discount badge of the listing page: shown only for an offer, with the amount
      `regularPrice - discountPrice`. */
  function DiscountBadge(l: Listing): (amount: Option<int>)
    ensures amount.Some? <==> l.offer
    ensures amount.Some? ==> ShownPrice(l) + amount.value == l.regularPrice
  {
    if l.offer then Some(l.regularPrice - l.discountPrice) else None
  }

  /** The card's "Special Offer" badge: on exactly the listings whose page shows a
      discount badge, and whose shown price is the discount price. */
  predicate ShowsOfferBadge(l: Listing)
    ensures ShowsOfferBadge(l) <==> DiscountBadge(l).Some?
    ensures ShowsOfferBadge(l) ==> ShownPrice(l) == l.discountPrice
  {
    l.offer
  }

  /** The card links to the listing's own page. */
  function CardLink(l: Listing): (link: string)
    ensures |link| == |"/listing/"| + |l.id|
    ensures link[..|"/listing/"|] == "/listing/" && link[|"/listing/"|..] == l.id
  {
    "/listing/" + l.id
  }

  /** "Bed" only for exactly one bedroom, "Beds" otherwise (0 included). */
  function BedWord(count: int): (word: string)
    ensures word == "Bed" <==> count == 1
    ensures word == "Bed" || word == "Beds"
  {
    if count == 1 then "Bed" else "Beds"
  }

  /** "Bath" only for exactly one bathroom, "Baths" otherwise. */
  function BathWord(count: int): (word: string)
    ensures word == "Bath" <==> count == 1
    ensures word == "Bath" || word == "Baths"
  {
    if count == 1 then "Bath" else "Baths"
  }

  /** "Yes"/"No" of the parking and furnished tiles. */
  function YesNo(b: bool): (word: string)
    ensures word == "Yes" <==> b
  {
    if b then "Yes" else "No"
  }

  /** For an offer the badge shows how much the shown price saves; without one the
      shown price is the regular price and there is no badge. */
  lemma DiscountExplainsPrice(l: Listing)
    ensures l.offer ==> DiscountBadge(l) == Some(l.regularPrice - ShownPrice(l))
    ensures !l.offer ==> DiscountBadge(l) == None && ShownPrice(l) == l.regularPrice
  {
  }

  /** What the listing page draws, in order of precedence. */
  datatype Screen = Spinner | ErrorPanel | Details(listing: Listing) | Blank

  function Render(loading: bool, error: bool, listing: Option<Listing>): (s: Screen)
    ensures s == Spinner <==> loading
    ensures s == ErrorPanel <==> !loading && error
    ensures s.Details? <==> !loading && !error && listing.Some?
    ensures s.Details? ==> s.listing == listing.value
  {
    if loading then Spinner
    else if error then ErrorPanel
    else if listing.Some? then Details(listing.value)
    else Blank
  }

  /** The "Contact Property Owner" button: a signed-in user who does not own the
      listing, while the contact panel is still closed. */
  predicate ShowsContactButton(currentUserId: Option<string>, l: Listing, contactOpen: bool)
    ensures currentUserId == None ==> !ShowsContactButton(currentUserId, l, contactOpen)
    ensures currentUserId == Some(l.userRef) ==> !ShowsContactButton(currentUserId, l, contactOpen)
    ensures contactOpen ==> !ShowsContactButton(currentUserId, l, contactOpen)
    ensures currentUserId.Some? && l.userRef != currentUserId.value && !contactOpen ==>
      ShowsContactButton(currentUserId, l, contactOpen)
  {
    currentUserId.Some? && l.userRef != currentUserId.value && !contactOpen
  }

  /** The Contact panel: drawn inside the details, once `contact` is set. The button and
      the panel are never on screen together, whoever is signed in. */
  predicate ShowsContactPanel(screen: Screen, contact: bool)
    ensures ShowsContactPanel(screen, contact) ==>
      screen.Details? && forall u :: !ShowsContactButton(u, screen.listing, contact)
  {
    screen.Details? && contact
  }

  /** With the details drawn the panel follows the flag; while loading or after an
      error it is not drawn. */
  lemma ButtonGivesWayToPanel(loading: bool, error: bool, listing: Option<Listing>, contact: bool)
    requires listing.Some?
    ensures !loading && !error ==>
      (ShowsContactPanel(Render(loading, error, listing), contact) <==> contact)
    ensures loading || error ==> !ShowsContactPanel(Render(loading, error, listing), contact)
  {
  }

  /** What fetching `/api/listing/get/<id>` produced. */
  datatype ListingReply = Found(listing: Listing) | NotFound(message: string) | FetchThrew

  /** The listing page component. */
  class ListingPage {
    var listing: Option<Listing>
    var loading: bool
    var error: bool
    var contact: bool

    constructor ()
      ensures listing == None && !loading && !error && !contact
    {
      listing := None;
      loading := false;
      error := false;
      contact := false;
    }

    /** The fetch effect starts: `setLoading(true)`. */
    method StartFetch()
      modifies this
      ensures loading
      ensures listing == old(listing) && error == old(error) && contact == old(contact)
    {
      loading := true;
    }

    /** The fetch effect settles. A `{success: false}` body or a thrown error sets
        `error` and leaves `listing`; a listing is stored and clears `error`. */
    method FetchSettled(reply: ListingReply)
      modifies this
      ensures !loading && contact == old(contact)
      ensures reply.Found? ==> listing == Some(reply.listing) && !error
      ensures !reply.Found? ==> listing == old(listing) && error
    {
      match reply
      case Found(l) =>
        listing := Some(l);
        loading := false;
        error := false;
      case NotFound(_) =>
        error := true;
        loading := false;
      case FetchThrew =>
        error := true;
        loading := false;
    }

    /** The contact button's `onClick`. */
    method OpenContact()
      modifies this
      ensures contact
      ensures !loading && !error && listing.Some? ==> ContactPanelShown()
      ensures listing == old(listing) && loading == old(loading) && error == old(error)
    {
      contact := true;
    }

    function Screen(): Screen
      reads this
    {
      Render(loading, error, listing)
    }

    /** The panel is on screen exactly when the listing has loaded without error and
        the button was clicked. */
    predicate ContactPanelShown()
      reads this
      ensures ContactPanelShown() <==> !loading && !error && listing.Some? && contact
    {
      ShowsContactPanel(Screen(), contact)
    }
  }
}
