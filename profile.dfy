/** The profile page (client/src/pages/Profile.jsx): its key/value form, the avatar
    upload status line, and the user's list of listings with deletion by id. */
module Profile {
  import opened Wrappers
  import opened ListingView

  /** The status line under the avatar. */
  datatype UploadStatus = UploadError | Uploading(percent: int) | Uploaded | NoStatus

  /** An upload error wins; then "Uploading p%" for 0 < p < 100; then success at
      exactly 100; otherwise nothing. */
  function StatusLine(fileUploadError: bool, filePerc: int): (s: UploadStatus)
    ensures s == UploadError <==> fileUploadError
    ensures s.Uploading? <==> !fileUploadError && 0 < filePerc < 100
    ensures s.Uploading? ==> s.percent == filePerc
    ensures s == Uploaded <==> !fileUploadError && filePerc == 100
    ensures s == NoStatus <==> !fileUploadError && (filePerc <= 0 || filePerc > 100)
  {
    if fileUploadError then UploadError
    else if 0 < filePerc < 100 then Uploading(filePerc)
    else if filePerc == 100 then Uploaded
    else NoStatus
  }

  /** The listings button's caption. */
  function ListingsButton(listings: seq<Listing>): (caption: string)
    ensures caption == "Refresh Listings" <==> |listings| > 0
    ensures caption == "Show My Listings" <==> |listings| == 0
  {
    if |listings| > 0 then "Refresh Listings" else "Show My Listings"
  }

  /** `prev.filter((listing) => listing._id !== listingId)`. */
  function RemoveById(listings: seq<Listing>, id: string): (r: seq<Listing>)
    ensures |r| <= |listings|
    ensures forall k :: 0 <= k < |r| ==> r[k].id != id
    ensures forall l :: l in listings && l.id != id ==> l in r
    ensures forall l :: l in r ==> l in listings
  {
    if listings == [] then []
    else if listings[0].id == id then RemoveById(listings[1..], id)
    else [listings[0]] + RemoveById(listings[1..], id)
  }

  /** What the delete endpoint answered. */
  datatype DeleteReply = Deleted | Refused(message: string) | Threw(message: string)

  /** What the user-listings endpoint answered. */
  datatype ListingsReply = ListingsFound(listings: seq<Listing>) | ListingsRefused | ListingsThrew

  class ProfilePage {
    var formData: map<string, string>
    var userListings: seq<Listing>
    var fileUploadError: bool
    var filePerc: int
    var showListingsError: bool

    constructor ()
      ensures formData == map[] && userListings == [] && !fileUploadError
      ensures filePerc == 0 && !showListingsError
    {
      formData := map[];
      userListings := [];
      fileUploadError := false;
      filePerc := 0;
      showListingsError := false;
    }

    /** `handleChange`: the input's id names the one key that changes. */
    method HandleChange(id: string, value: string)
      modifies this
      ensures formData.Keys == old(formData.Keys) + {id}
      ensures formData[id] == value
      ensures forall k :: k in old(formData) && k != id ==> formData[k] == old(formData)[k]
      ensures userListings == old(userListings) && fileUploadError == old(fileUploadError)
      ensures filePerc == old(filePerc) && showListingsError == old(showListingsError)
    {
      formData := formData[id := value];
    }

    /** A progress report of the avatar upload, already rounded to a whole percent. */
    method UploadProgress(percent: int)
      modifies this
      ensures filePerc == percent
      ensures !fileUploadError ==> (Status() == Uploaded <==> percent == 100)
      ensures formData == old(formData) && userListings == old(userListings)
      ensures fileUploadError == old(fileUploadError) && showListingsError == old(showListingsError)
    {
      filePerc := percent;
    }

    method UploadFailed()
      modifies this
      ensures fileUploadError && Status() == UploadError
      ensures formData == old(formData) && userListings == old(userListings)
      ensures filePerc == old(filePerc) && showListingsError == old(showListingsError)
    {
      fileUploadError := true;
    }

    /** The avatar's download URL arrives: `avatar` is set, every other key stays. */
    method AvatarUploaded(url: string)
      modifies this
      ensures formData.Keys == old(formData.Keys) + {"avatar"}
      ensures formData["avatar"] == url
      ensures forall k :: k in old(formData) && k != "avatar" ==> formData[k] == old(formData)[k]
      ensures userListings == old(userListings) && fileUploadError == old(fileUploadError)
      ensures filePerc == old(filePerc) && showListingsError == old(showListingsError)
    {
      formData := formData["avatar" := url];
    }

    /** `handleShowListings`. */
    method ShowListings(reply: ListingsReply)
      modifies this
      ensures reply.ListingsFound? ==> userListings == reply.listings && !showListingsError
      ensures !reply.ListingsFound? ==> userListings == old(userListings) && showListingsError
      ensures formData == old(formData) && fileUploadError == old(fileUploadError)
      ensures filePerc == old(filePerc)
    {
      showListingsError := false;
      match reply
      case ListingsFound(listings) =>
        userListings := listings;
      case ListingsRefused =>
        showListingsError := true;
      case ListingsThrew =>
        showListingsError := true;
    }

    /** `handleListingDelete`, with the answer to `window.confirm` and the endpoint's
        reply as inputs. Only a confirmed, successful delete changes the list. */
    method HandleListingDelete(id: string, confirmed: bool, reply: DeleteReply)
      modifies this
      ensures confirmed && reply == Deleted ==> userListings == RemoveById(old(userListings), id)
      ensures !confirmed || reply != Deleted ==> userListings == old(userListings)
      ensures formData == old(formData) && fileUploadError == old(fileUploadError)
      ensures filePerc == old(filePerc) && showListingsError == old(showListingsError)
    {
      if !confirmed {
        return;
      }
      match reply
      case Deleted =>
        userListings := RemoveById(userListings, id);
      case Refused(_) =>
      case Threw(_) =>
    }

    /** The status line drawn for the page's state. */
    function Status(): (s: UploadStatus)
      reads this
      ensures s == UploadError <==> fileUploadError
      ensures s.Uploading? ==> s.percent == filePerc
      ensures s == Uploaded ==> filePerc == 100
    {
      StatusLine(fileUploadError, filePerc)
    }
  }

  /** Removing by id keeps the other listings in their order: it distributes over
      concatenation. */
  lemma {:induction false} RemoveByIdConcat(a: seq<Listing>, b: seq<Listing>, id: string)
    ensures RemoveById(a + b, id) == RemoveById(a, id) + RemoveById(b, id)
  {
    if a == [] {
      assert a + b == b;
    } else {
      assert (a + b)[1..] == a[1..] + b;
      RemoveByIdConcat(a[1..], b, id);
    }
  }

  /** A list without the id is left exactly as it was. */
  lemma {:induction false} RemoveAbsentId(listings: seq<Listing>, id: string)
    requires forall k :: 0 <= k < |listings| ==> listings[k].id != id
    ensures RemoveById(listings, id) == listings
  {
    if listings != [] {
      RemoveAbsentId(listings[1..], id);
    }
  }

  /** Every listing with the id is removed, so the list shrinks by their number. */
  lemma {:induction false} RemoveByIdCount(listings: seq<Listing>, id: string)
    ensures |RemoveById(listings, id)| + CountId(listings, id) == |listings|
  {
    if listings != [] {
      RemoveByIdCount(listings[1..], id);
    }
  }

  function CountId(listings: seq<Listing>, id: string): nat
  {
    if listings == [] then 0
    else (if listings[0].id == id then 1 else 0) + CountId(listings[1..], id)
  }
}
