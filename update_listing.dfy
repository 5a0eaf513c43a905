/** The listing edit form (client/src/pages/UpdateListing.jsx): the image list with its
    six-image cap, the all-or-nothing upload batch, removal by index, per-field updates
    and the two checks made before the update request is sent. */
module UpdateListing {
  import opened Wrappers
  import opened Promises

  /** The `formData` state (`listingType` is its `type` field). Prices and room counts
      are integers: the string-to-number coercion of the inputs is not modelled. */
  datatype ListingForm = ListingForm(
    imageUrls: seq<string>,
    name: string,
    description: string,
    address: string,
    listingType: string,
    bedrooms: int,
    bathrooms: int,
    regularPrice: int,
    discountPrice: int,
    offer: bool,
    parking: bool,
    furnished: bool)

  const InitialForm := ListingForm([], "", "", "", "rent", 1, 1, 50, 0, false, false, false)

  const MaxImages := 6
  const TooManyImagesError := "You can only upload 6 images per listing"
  const UploadFailedError := "Image upload failed (2 mb max per image)"
  const NoImageError := "You must upload at least one image"
  const PriceError := "Discount price must be lower than regular price"

  /** A change event: the input's id and type, its text value, the number that text
      denotes (for number inputs), and its checked flag. */
  datatype InputEvent = InputEvent(id: string, inputType: string, value: string, number: int, checked: bool)

  /** The guard of `handleImageSubmit`. */
  function AcceptsBatch(current: nat, files: nat): (accepted: bool)
    ensures accepted <==> 1 <= files && current + files <= MaxImages
  {
    files > 0 && files + current < 7
  }

  /** `urls.filter((url, i) => i !== index)`. */
  function WithoutIndex(urls: seq<string>, index: int): (r: seq<string>)
    ensures 0 <= index < |urls| ==> r == urls[..index] + urls[index + 1..]
    ensures !(0 <= index < |urls|) ==> r == urls
  {
    if urls == [] then []
    else
      var n := |urls| - 1;
      var kept := WithoutIndex(urls[..n], index);
      assert urls[..n] + [urls[n]] == urls;
      if n == index then kept else kept + [urls[n]]
  }

  /** The third `if` of `handleChange`: a text, number or textarea input stores its raw
      value under its id. */
  function StoreValue(f: ListingForm, ev: InputEvent): (r: ListingForm)
    ensures r.(name := f.name, description := f.description, address := f.address,
               listingType := f.listingType, bedrooms := f.bedrooms, bathrooms := f.bathrooms,
               regularPrice := f.regularPrice, discountPrice := f.discountPrice) == f
    ensures r.name != f.name ==> ev.id == "name"
    ensures r.description != f.description ==> ev.id == "description"
    ensures r.address != f.address ==> ev.id == "address"
    ensures r.listingType != f.listingType ==> ev.id == "type"
    ensures r.bedrooms != f.bedrooms ==> ev.id == "bedrooms"
    ensures r.bathrooms != f.bathrooms ==> ev.id == "bathrooms"
    ensures r.regularPrice != f.regularPrice ==> ev.id == "regularPrice"
    ensures r.discountPrice != f.discountPrice ==> ev.id == "discountPrice"
  {
    if ev.id == "name" then f.(name := ev.value)
    else if ev.id == "description" then f.(description := ev.value)
    else if ev.id == "address" then f.(address := ev.value)
    else if ev.id == "type" then f.(listingType := ev.value)
    else if ev.id == "bedrooms" then f.(bedrooms := ev.number)
    else if ev.id == "bathrooms" then f.(bathrooms := ev.number)
    else if ev.id == "regularPrice" then f.(regularPrice := ev.number)
    else if ev.id == "discountPrice" then f.(discountPrice := ev.number)
    else f
  }

  predicate IsValueInput(inputType: string)
  {
    inputType == "number" || inputType == "text" || inputType == "textarea"
  }

  /** `handleChange`. Its three `if`s each spread the same `formData`, so when more than
      one fires the last one decides; they are tried here from last to first. */
  function ApplyInput(f: ListingForm, ev: InputEvent): (r: ListingForm)
    ensures r.imageUrls == f.imageUrls
    ensures r.name != f.name ==> ev.id == "name"
    ensures r.description != f.description ==> ev.id == "description"
    ensures r.address != f.address ==> ev.id == "address"
    ensures r.listingType != f.listingType ==> ev.id in {"type", "sale", "rent"}
    ensures r.bedrooms != f.bedrooms ==> ev.id == "bedrooms"
    ensures r.bathrooms != f.bathrooms ==> ev.id == "bathrooms"
    ensures r.regularPrice != f.regularPrice ==> ev.id == "regularPrice"
    ensures r.discountPrice != f.discountPrice ==> ev.id == "discountPrice"
    ensures r.offer != f.offer ==> ev.id == "offer"
    ensures r.parking != f.parking ==> ev.id == "parking"
    ensures r.furnished != f.furnished ==> ev.id == "furnished"
  {
    if IsValueInput(ev.inputType) then StoreValue(f, ev)
    else if ev.id == "parking" then f.(parking := ev.checked)
    else if ev.id == "furnished" then f.(furnished := ev.checked)
    else if ev.id == "offer" then f.(offer := ev.checked)
    else if ev.id == "sale" || ev.id == "rent" then f.(listingType := ev.id)
    else f
  }

  /** The checks of `handleSubmit`, in order; None means the request is sent. */
  function SubmitError(f: ListingForm): (err: Option<string>)
    ensures err.None? <==> |f.imageUrls| >= 1 && f.regularPrice >= f.discountPrice
    ensures err.Some? ==> err.value == NoImageError || err.value == PriceError
  {
    if |f.imageUrls| < 1 then Some(NoImageError)
    else if f.regularPrice < f.discountPrice then Some(PriceError)
    else None
  }

  /** What the update endpoint answered: the saved listing, a `{success: false}` body,
      or a thrown error. */
  datatype UpdateReply = Saved(id: string) | Refused(message: string) | Threw(message: string)

  /** The POST to `/api/listing/update/<listingId>`: the form plus the user's id. */
  datatype UpdateRequest = UpdateRequest(listingId: string, form: ListingForm, userRef: string)

  class EditPage {
    var formData: ListingForm
    var imageUploadError: Option<string>
    var uploading: bool
    var error: Option<string>
    var loading: bool

    constructor ()
      ensures formData == InitialForm && imageUploadError == None && !uploading
      ensures error == None && !loading
    {
      formData := InitialForm;
      imageUploadError := None;
      uploading := false;
      error := None;
      loading := false;
    }

    /** The fetch effect: a listing replaces the form; a `{success: false}` body (None)
        leaves it. */
    method LoadListing(fetched: Option<ListingForm>)
      modifies this
      ensures formData == if fetched.Some? then fetched.value else old(formData)
      ensures imageUploadError == old(imageUploadError) && uploading == old(uploading)
      ensures error == old(error) && loading == old(loading)
    {
      if fetched.Some? {
        formData := fetched.value;
      }
    }

    /** `handleImageSubmit` through to the settling of its `Promise.all`: `uploads` holds
        each selected file's upload outcome, in file order (None for a failed upload). */
    method HandleImageSubmit(uploads: seq<Option<string>>)
      modifies this
      ensures !AcceptsBatch(|old(formData.imageUrls)|, |uploads|) ==>
        formData == old(formData) && imageUploadError == Some(TooManyImagesError)
      ensures AcceptsBatch(|old(formData.imageUrls)|, |uploads|) && All(uploads).Some? ==>
        formData == old(formData).(imageUrls := old(formData.imageUrls) + All(uploads).value)
        && imageUploadError == None
      ensures AcceptsBatch(|old(formData.imageUrls)|, |uploads|) && All(uploads).None? ==>
        formData == old(formData) && imageUploadError == Some(UploadFailedError)
      ensures !uploading
      ensures error == old(error) && loading == old(loading)
    {
      if AcceptsBatch(|formData.imageUrls|, |uploads|) {
        uploading := true;
        imageUploadError := None;
        var promises: seq<Option<string>> := [];
        var i := 0;
        while i < |uploads|
          invariant 0 <= i <= |uploads|
          invariant promises == uploads[..i]
        {
          promises := promises + [uploads[i]];
          i := i + 1;
        }
        assert uploads[..i] == uploads;
        match All(promises)
        case Some(urls) =>
          formData := formData.(imageUrls := formData.imageUrls + urls);
          imageUploadError := None;
          uploading := false;
        case None =>
          imageUploadError := Some(UploadFailedError);
          uploading := false;
      } else {
        imageUploadError := Some(TooManyImagesError);
        uploading := false;
      }
    }

    method HandleRemoveImage(index: int)
      modifies this
      ensures formData == old(formData).(imageUrls := WithoutIndex(old(formData.imageUrls), index))
      ensures imageUploadError == old(imageUploadError) && uploading == old(uploading)
      ensures error == old(error) && loading == old(loading)
    {
      formData := formData.(imageUrls := WithoutIndex(formData.imageUrls, index));
    }

    method HandleChange(ev: InputEvent)
      modifies this
      ensures formData == ApplyInput(old(formData), ev)
      ensures imageUploadError == old(imageUploadError) && uploading == old(uploading)
      ensures error == old(error) && loading == old(loading)
    {
      formData := ApplyInput(formData, ev);
    }

    /** `handleSubmit`, with the signed-in user's id and the endpoint's reply as inputs.
        It returns the request sent (if any) and where the page navigates (if anywhere).
        A `{success: false}` reply sets the error and still navigates, to the id of a
        body that has none: `/listing/undefined`. */
    method HandleSubmit(listingId: string, userId: string, reply: UpdateReply)
      returns (request: Option<UpdateRequest>, navigateTo: Option<string>)
      modifies this
      ensures SubmitError(old(formData)).Some? ==>
        request == None && navigateTo == None && error == SubmitError(old(formData))
        && loading == old(loading)
      ensures SubmitError(old(formData)).None? ==>
        && request == Some(UpdateRequest(listingId, old(formData), userId))
        && !loading
        && (reply.Saved? ==> error == None && navigateTo == Some("/listing/" + reply.id))
        && (reply.Refused? ==> error == Some(reply.message) && navigateTo == Some("/listing/undefined"))
        && (reply.Threw? ==> error == Some(reply.message) && navigateTo == None)
      ensures formData == old(formData)
      ensures imageUploadError == old(imageUploadError) && uploading == old(uploading)
    {
      var check := SubmitError(formData);
      if check.Some? {
        error := check;
        return None, None;
      }
      loading := true;
      error := None;
      request := Some(UpdateRequest(listingId, formData, userId));
      match reply
      case Saved(id) =>
        loading := false;
        navigateTo := Some("/listing/" + id);
      case Refused(message) =>
        loading := false;
        error := Some(message);
        navigateTo := Some("/listing/undefined");
      case Threw(message) =>
        error := Some(message);
        loading := false;
        navigateTo := None;
    }
  }

  /** An accepted batch never takes the list above six images, and a batch of zero
      files is never accepted. */
  lemma {:induction false} AcceptedBatchWithinCap(current: seq<string>, uploads: seq<Option<string>>)
    ensures !AcceptsBatch(|current|, 0)
    ensures AcceptsBatch(|current|, |uploads|) && All(uploads).Some? ==>
      |current + All(uploads).value| <= MaxImages
  {
  }

  /** A successful batch appends the new URLs in file order after the old ones. */
  lemma {:induction false} BatchAppendsInOrder(current: seq<string>, uploads: seq<Option<string>>)
    requires All(uploads).Some?
    ensures var urls := current + All(uploads).value;
      && urls[..|current|] == current
      && forall i :: 0 <= i < |uploads| ==> urls[|current| + i] == uploads[i].value
  {
  }

  /** The image check comes first: an empty list is refused for that reason whatever
      the prices. */
  lemma EmptyImagesFirst(f: ListingForm)
    requires |f.imageUrls| == 0
    ensures SubmitError(f) == Some(NoImageError)
  {
  }

  /** With images present, only `regularPrice < discountPrice` is refused: equal prices
      pass, and the offer flag plays no part. */
  lemma PriceCheck(f: ListingForm, offer: bool)
    requires |f.imageUrls| >= 1
    ensures SubmitError(f) == Some(PriceError) <==> f.regularPrice < f.discountPrice
    ensures SubmitError(f) == None <==> f.regularPrice >= f.discountPrice
    ensures SubmitError(f.(offer := offer)) == SubmitError(f)
  {
  }

  /** Each change updates only the field its id names. */
  lemma ChangeIsLocal(f: ListingForm, ev: InputEvent)
    ensures !IsValueInput(ev.inputType) && (ev.id == "sale" || ev.id == "rent") ==>
      ApplyInput(f, ev) == f.(listingType := ev.id)
    ensures !IsValueInput(ev.inputType) && ev.id == "offer" ==> ApplyInput(f, ev) == f.(offer := ev.checked)
    ensures !IsValueInput(ev.inputType) && ev.id == "parking" ==> ApplyInput(f, ev) == f.(parking := ev.checked)
    ensures !IsValueInput(ev.inputType) && ev.id == "furnished" ==> ApplyInput(f, ev) == f.(furnished := ev.checked)
    ensures IsValueInput(ev.inputType) && ev.id == "name" ==> ApplyInput(f, ev) == f.(name := ev.value)
    ensures IsValueInput(ev.inputType) && ev.id == "description" ==> ApplyInput(f, ev) == f.(description := ev.value)
    ensures IsValueInput(ev.inputType) && ev.id == "address" ==> ApplyInput(f, ev) == f.(address := ev.value)
    ensures IsValueInput(ev.inputType) && ev.id == "bedrooms" ==> ApplyInput(f, ev) == f.(bedrooms := ev.number)
    ensures IsValueInput(ev.inputType) && ev.id == "bathrooms" ==> ApplyInput(f, ev) == f.(bathrooms := ev.number)
    ensures IsValueInput(ev.inputType) && ev.id == "regularPrice" ==> ApplyInput(f, ev) == f.(regularPrice := ev.number)
    ensures IsValueInput(ev.inputType) && ev.id == "discountPrice" ==> ApplyInput(f, ev) == f.(discountPrice := ev.number)
    ensures ApplyInput(f, ev).imageUrls == f.imageUrls
  {
  }
}
