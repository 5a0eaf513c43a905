# RoofSurf client logic in Dafny

RoofSurf is a real-estate listing site with a React client. This project models the
deterministic logic of that client:

- the search sidebar and its URL round trip;
- the header search box;
- the listing edit form, with its image batch and submit checks;
- the profile page, with its form, avatar status line and listing deletion;
- the storage helpers for upload paths, delete keys and batch uploads;
- the landlord contact panel and its `mailto:` link;
- the presentation rules of a listing card and of the listing page.

Each async boundary becomes an input: a fetch reply, an upload outcome, a session flag,
the answer to `window.confirm`, or the random and clock text of a file name. A React
component whose state its handlers replace is a `class`. Its state variables are
fields, and each handler or settled async call is a `method` whose `ensures` gives
the whole new state. The pure rules are functions, and the properties the pages rely
on are lemmas about them.

Modules:

- `Wrappers`: `Option` and `Result`.
- `Strings`: JavaScript `String.prototype.split` on a non-empty separator, with `Join`
  as its inverse.
- `UrlSearchParams`: the `get` and `set` of the WHATWG URL Standard, section 6, on
  decoded pairs. The `SearchParams` class is the object that `set` mutates.
- `Promises`: `Promise.all` over settled outcomes.
- `UriEncoding`: `encodeURIComponent` (ECMA-262, section 19.2.6.5), with the
  RFC 3986, section 2.1, percent-decoding as its partner.
- `SearchPage`, `HeaderBar`, `UpdateListing`, `Profile`, `Storage`, `Contact` and
  `ListingView`: one module per component or source file.

## Model

| member | source | states |
|---|---|---|
| Strings.IndexOf | client/src/supabase.js:57 | the result is the first occurrence of the separator; None exactly when there is none |
| Strings.Split | client/src/supabase.js:16 | JavaScript's `split`: at least one piece, and at most one more piece than the string has characters |
| Strings.JoinSplit | client/src/supabase.js:57 | joining the pieces of `split` with the separator gives the string back |
| Strings.SplitPiecesFree | client/src/supabase.js:57 | no piece of `split` contains the separator |
| Strings.SplitSingle | client/src/supabase.js:57-58 | `split` gives one piece exactly when the separator does not occur, and that piece is the whole string |
| Strings.SplitLastIsSuffix | client/src/supabase.js:16 | a single piece (`pop()` of a split without the separator) is the whole string; otherwise the string is the other pieces joined, the separator, then the last piece |
| Strings.ContainsChar | client/src/supabase.js:16 | a one-character separator occurs exactly when the character is in the string |
| Strings.SplitAfterFirst | client/src/pages/Search.jsx:70-71 | text before a first single-character separator is the first piece, and the rest is split in turn |
| UrlSearchParams.Get | client/src/components/Header.jsx:22 | `get` returns the value of the first pair with the name; None exactly when no pair has it |
| UrlSearchParams.OrElse | client/src/pages/Search.jsx:30-36 | the value when it is non-empty, else the fallback, as JavaScript's or-default does |
| UrlSearchParams.Without | client/src/components/Header.jsx:15 | a pair is kept exactly when it was present and has another name, so no pair with the name remains and nothing is added |
| UrlSearchParams.SetValue | client/src/components/Header.jsx:15 | `set` never lengthens a list that already has the name, and appends the pair at the end when it is absent |
| UrlSearchParams.SearchParams.constructor | client/src/components/Header.jsx:14 | the object holds the given pairs |
| UrlSearchParams.SearchParams.Set | client/src/components/Header.jsx:15 | `set` replaces the first pair with the name and drops later ones, or appends a new pair at the end |
| UrlSearchParams.SetLeavesOne | client/src/components/Header.jsx:15 | after `set`, exactly one pair has the name |
| UrlSearchParams.GetAfterSet | client/src/components/Header.jsx:15 | after `set`, `get` of the name gives the value that was set |
| UrlSearchParams.GetOtherAfterSet | client/src/pages/Search.jsx:82-88 | `set` on one name does not change what `get` gives for another |
| UrlSearchParams.SetKeepsOthers | client/src/components/Header.jsx:15 | pairs with other names keep their values and their relative order |
| UrlSearchParams.SetPosition | client/src/components/Header.jsx:15 | when the name is present, its first pair keeps its position and takes the new value, and everything before it is unchanged |
| UrlSearchParams.CountWithout | client/src/components/Header.jsx:15 | dropping a name leaves no pair with it |
| UrlSearchParams.WithoutIdempotent | client/src/components/Header.jsx:15 | dropping a name twice is the same as dropping it once |
| UrlSearchParams.GetIgnoresWithout | client/src/components/Header.jsx:15 | dropping one name does not change `get` of another |
| Promises.All | client/src/supabase.js:79 | `Promise.all` succeeds exactly when every outcome does, with the values in input order |
| SearchPage.DecodeUrl | client/src/pages/Search.jsx:20-37 | the URL effect's new draft: unchanged when no filter parameter is non-empty, otherwise decoded with defaults |
| SearchPage.SortOrder | client/src/pages/Search.jsx:70-71 | the sort select's value is split on `_`; empty parts default to `createdAt` and `desc` |
| SearchPage.ApplyChange | client/src/pages/Search.jsx:50-78 | a type box sets `type` to its id; each field changes only when its own control fires, and sort and order only from the sort select |
| SearchPage.Encode | client/src/pages/Search.jsx:82-88 | the submitted query holds the seven filter names in the order of the `set` calls |
| SearchPage.Sidebar.constructor | client/src/pages/Search.jsx:6-14 | the draft starts as the defaults `''`, `all`, three false flags, `createdAt`, `desc` |
| SearchPage.Sidebar.LoadFromUrl | client/src/pages/Search.jsx:20-38 | the draft becomes the decoding of `location.search` |
| SearchPage.Sidebar.HandleChange | client/src/pages/Search.jsx:50-78 | the draft becomes the change applied by id |
| SearchPage.Sidebar.HandleSubmit | client/src/pages/Search.jsx:79-91 | seven successive `set` calls give a query equal to the encoded draft, and the target path is `/search` |
| SearchPage.EncodeWritesAll | client/src/pages/Search.jsx:81-88 | the submitted query has seven pairs, and `get` of each name gives its field, with booleans written as `"true"`/`"false"` |
| SearchPage.DecodeEncode | client/src/pages/Search.jsx:28-37 | decoding what submit wrote gives the draft back whenever `type`, `sort` and `order` are non-empty |
| SearchPage.StrictBooleans | client/src/pages/Search.jsx:32-34 | with a filter present, a flag decodes to true exactly when its value is the string `"true"` |
| SearchPage.UpperCaseTrueIsFalse | client/src/pages/Search.jsx:32 | `parking=TRUE` alone decodes to the default draft, with parking false |
| SearchPage.TextDefaults | client/src/pages/Search.jsx:30-31 | absent or empty text parameters take `''`, `all`, `createdAt` and `desc`; any other `type` is taken unvalidated |
| SearchPage.EmptyUrlKeepsDraft | client/src/pages/Search.jsx:28 | with no non-empty filter parameter, the draft is kept and not reset |
| SearchPage.UnknownTypeChecksNoBox | client/src/pages/Search.jsx:104-112 | any non-empty `type` from the URL outside all/rent/sale leaves every type box unchecked |
| SearchPage.TypeBoxSelects | client/src/pages/Search.jsx:51-56 | a type-box change sets `type` to its id whatever the checked flag; then that box alone is checked |
| SearchPage.ChangeIsLocal | client/src/pages/Search.jsx:57-77 | each change touches only its own fields, booleans store the checked flag, and unknown ids change nothing |
| SearchPage.SortOrderParts | client/src/pages/Search.jsx:69-77 | for `X_Y`, sort is X and order is Y (empty parts take the defaults), and a third segment is ignored |
| SearchPage.SortOrderNoUnderscore | client/src/pages/Search.jsx:70-71 | a value without `_` is all sort, with order `desc` |
| SearchPage.SortOptionLatest | client/src/pages/Search.jsx:134 | `createdAt_desc` gives (`createdAt`, `desc`) |
| SearchPage.SortOptionOldest | client/src/pages/Search.jsx:135 | `createdAt_asc` gives (`createdAt`, `asc`) |
| SearchPage.SortOptionPriceHighToLow | client/src/pages/Search.jsx:136 | `regularPrice_desc` gives (`regularPrice`, `desc`) |
| SearchPage.SortOptionPriceLowToHigh | client/src/pages/Search.jsx:137 | `regularPrice_asc` gives (`regularPrice`, `asc`) |
| HeaderBar.SearchBox.constructor | client/src/components/Header.jsx:9 | the box starts empty |
| HeaderBar.SearchBox.Type | client/src/components/Header.jsx:49 | typing replaces the box's text |
| HeaderBar.SearchBox.SyncFromUrl | client/src/components/Header.jsx:20-26 | the box takes the URL's `searchTerm` when it is non-empty |
| HeaderBar.SearchBox.HandleSubmit | client/src/components/Header.jsx:12-18 | the target is `/search`, `get("searchTerm")` gives the box's text, and every other pair is kept in order |
| HeaderBar.SyncedTerm | client/src/components/Header.jsx:21-25 | the box ends with its old text or the URL's `searchTerm`, and the effect never empties a non-empty box |
| HeaderBar.SyncCopiesNonEmpty | client/src/components/Header.jsx:21-25 | a non-empty URL term is copied into the box; an absent or empty one leaves the text as it was |
| HeaderBar.SyncIdempotent | client/src/components/Header.jsx:20-26 | running the effect twice on the same query gives the same text as running it once |
| HeaderBar.SubmitSingleTerm | client/src/components/Header.jsx:14-16 | after submit exactly one `searchTerm` pair remains: appended when absent, otherwise at the first one's position |
| UpdateListing.WithoutIndex | client/src/pages/UpdateListing.jsx:109 | index i is removed and the others keep their order; an out-of-range index changes nothing |
| UpdateListing.AcceptsBatch | client/src/pages/UpdateListing.jsx:52 | the guard itself, restated against the six-image cap: a non-empty batch that keeps the list at six or fewer; the cap as a promise is AcceptedBatchWithinCap |
| UpdateListing.StoreValue | client/src/pages/UpdateListing.jsx:129-139 | a value input changes only the field its id names, and only the eight value fields |
| UpdateListing.ApplyInput | client/src/pages/UpdateListing.jsx:113-140 | the images never change, and every other field changes only for the ids that name it (`type` also for `sale`/`rent`) |
| UpdateListing.SubmitError | client/src/pages/UpdateListing.jsx:145-152 | the request is sent exactly when there is an image and `regularPrice >= discountPrice`; any refusal is one of the two messages |
| UpdateListing.EditPage.constructor | client/src/pages/UpdateListing.jsx:18-35 | the initial form and flags |
| UpdateListing.EditPage.LoadListing | client/src/pages/UpdateListing.jsx:37-49 | a fetched listing replaces the form, and a `{success: false}` body leaves it |
| UpdateListing.EditPage.HandleImageSubmit | client/src/pages/UpdateListing.jsx:51-78 | a rejected batch sets the six-image error; a failed one sets the upload error; a successful one appends the URLs in file order; `uploading` ends false |
| UpdateListing.EditPage.HandleRemoveImage | client/src/pages/UpdateListing.jsx:106-111 | the image list loses exactly the given index |
| UpdateListing.EditPage.HandleChange | client/src/pages/UpdateListing.jsx:113-140 | the form becomes the change applied by id and input type |
| UpdateListing.EditPage.HandleSubmit | client/src/pages/UpdateListing.jsx:142-175 | no request until both checks pass; then the request carries the form and user id, and the reply sets the error and the navigation |
| UpdateListing.AcceptedBatchWithinCap | client/src/pages/UpdateListing.jsx:52 | an empty batch is never accepted, and an accepted batch keeps the list at six images or fewer |
| UpdateListing.BatchAppendsInOrder | client/src/pages/UpdateListing.jsx:59-64 | the old URLs come first, then the new ones in file order |
| UpdateListing.EmptyImagesFirst | client/src/pages/UpdateListing.jsx:145-147 | an empty image list is refused with its own message before the prices are looked at |
| UpdateListing.PriceCheck | client/src/pages/UpdateListing.jsx:148-152 | only `regularPrice < discountPrice` is refused; equal prices pass, and `offer` plays no part |
| UpdateListing.ChangeIsLocal | client/src/pages/UpdateListing.jsx:113-139 | `sale`/`rent` set `type`, the checkboxes store `checked`, each of the seven value inputs stores its value in its own field, and the images never change |
| Profile.StatusLine | client/src/pages/Profile.jsx:197-209 | an error wins; then "Uploading p%" for 0 < p < 100; then success at exactly 100; otherwise nothing |
| Profile.ListingsButton | client/src/pages/Profile.jsx:289-291 | "Refresh Listings" exactly when the list is non-empty, else "Show My Listings" |
| Profile.ProfilePage.Status | client/src/pages/Profile.jsx:197-209 | the line drawn for the page's state: an error exactly when the upload failed, the page's own percentage while uploading, success only at 100 |
| Profile.RemoveById | client/src/pages/Profile.jsx:160-162 | no listing with the id remains, every other listing is kept, and nothing new appears |
| Profile.RemoveByIdConcat | client/src/pages/Profile.jsx:160-162 | the filter distributes over concatenation, so the kept listings stay in order |
| Profile.RemoveAbsentId | client/src/pages/Profile.jsx:160-162 | a list without the id is left exactly as it was |
| Profile.RemoveByIdCount | client/src/pages/Profile.jsx:160-162 | the list shrinks by exactly the number of listings with the id |
| Profile.ProfilePage.constructor | client/src/pages/Profile.jsx:30-36 | the initial empty form, empty list and cleared status |
| Profile.ProfilePage.HandleChange | client/src/pages/Profile.jsx:68-70 | the key named by the input id takes the value, and every other key is kept |
| Profile.ProfilePage.UploadProgress | client/src/pages/Profile.jsx:52-56 | the percentage is stored; without an error the line shows success exactly at 100 |
| Profile.ProfilePage.UploadFailed | client/src/pages/Profile.jsx:57-59 | the upload error flag is set and the line shows the error |
| Profile.ProfilePage.AvatarUploaded | client/src/pages/Profile.jsx:60-64 | `avatar` takes the URL, and every other key is kept |
| Profile.ProfilePage.ShowListings | client/src/pages/Profile.jsx:133-146 | a listing array replaces the list; a refusal or a throw sets the error and keeps the list |
| Profile.ProfilePage.HandleListingDelete | client/src/pages/Profile.jsx:148-166 | only a confirmed, successful delete removes the listings with the id; anything else keeps the list |
| Storage.UploadImage | client/src/supabase.js:14-44 | without a session it fails before any storage call; otherwise it uploads to the built path and prefixes any error with "Image upload failed: " |
| Storage.DeleteImage | client/src/supabase.js:47-71 | without a session it fails before any storage call; otherwise it removes the extracted key and prefixes any error with "Image deletion failed: " |
| Storage.UploadMultipleImages | client/src/supabase.js:73-84 | URLs come back in file order when every upload succeeds; otherwise the whole batch fails with "Multiple image upload failed" |
| Storage.FileExtension | client/src/supabase.js:16 | the extension never contains a dot |
| Storage.UploadPath | client/src/supabase.js:17-18 | the path is the folder, a `/`, and a file name ending in `.` and the extension |
| Storage.DeleteKey | client/src/supabase.js:57-58 | with `/RoofSurf/` in the path the key never contains it; without it the key is the path |
| Storage.FileExtensionIsLastDotSuffix | client/src/supabase.js:16 | the extension is the text after the last `.`: free of dots, a suffix of the name, the whole name when it has no dot |
| Storage.TrailingDotGivesEmptyExtension | client/src/supabase.js:16 | every name ending in a dot has the empty extension |
| Storage.NoDotGivesWholeName | client/src/supabase.js:16 | every name without a dot is its own extension |
| Storage.DeleteKeyBetweenMarkers | client/src/supabase.js:57-58 | with the marker, the key is the text between its first occurrence and the next one or the end |
| Storage.NoSessionNoStorageCall | client/src/supabase.js:24-26 | without a session no upload reaches storage, and a non-empty batch fails |
| UriEncoding.Utf8Bytes | client/src/components/Contact.jsx:90 | one to four bytes with the UTF-8 lead and continuation ranges for the code point |
| UriEncoding.Utf8BytesDecode | client/src/components/Contact.jsx:90 | the UTF-8 bytes of a character give back its code point |
| UriEncoding.HexValue | client/src/components/Contact.jsx:90 | exactly the upper-case hex digits have a value, below 16, whose digit is the character read |
| UriEncoding.HexDigitValue | client/src/components/Contact.jsx:90 | every value below 16 reads back from its hex digit |
| UriEncoding.PercentByte | client/src/components/Contact.jsx:90 | a byte is written as `%` and two hex digits |
| UriEncoding.EncodeUriComponent | client/src/components/Contact.jsx:90 | `encodeURIComponent`: the output holds only unreserved characters and `%`, and is at least as long as the input |
| UriEncoding.PercentDecode | client/src/components/Contact.jsx:90 | reading the escapes back yields at most one byte per character |
| UriEncoding.EncodeDecodeRoundTrip | client/src/components/Contact.jsx:90 | percent-decoding the encoded message gives exactly its UTF-8 bytes |
| UriEncoding.EncodedHasNoDelimiters | client/src/components/Contact.jsx:90 | `&`, `=`, `#`, `?` and space never appear in the encoded text |
| UriEncoding.UnescapedUnchanged | client/src/components/Contact.jsx:90 | text made only of unreserved characters is left as it is |
| UriEncoding.EncodeSpace | client/src/components/Contact.jsx:90 | a space is written `%20` |
| UriEncoding.EncodeAccent | client/src/components/Contact.jsx:90 | `é` is written `%C3%A9` |
| Contact.FieldText | client/src/components/Contact.jsx:88 | a missing field is written `undefined` in the template literal |
| Contact.MailtoHref | client/src/components/Contact.jsx:88-90 | the link starts with `mailto:` and the email, and ends with the encoded message |
| Contact.ContactPanel.constructor | client/src/components/Contact.jsx:5-6 | no landlord yet and an empty message |
| Contact.ContactPanel.OnChange | client/src/components/Contact.jsx:8-10 | the message is replaced by the latest text |
| Contact.ContactPanel.LandlordFetched | client/src/components/Contact.jsx:12-31 | any parsed body is stored as the landlord; a throw leaves it as it was |
| Contact.ContactPanel.Href | client/src/components/Contact.jsx:35 | nothing is rendered until a landlord is present; then the link is built from its email, the listing name and the message |
| Contact.HrefHasTwoParameters | client/src/components/Contact.jsx:87-90 | with no `&` in the email or name, the link has exactly two `&`-separated parts, the second `body=` and the encoded message |
| Contact.MessageAddsNoDelimiters | client/src/components/Contact.jsx:90 | whatever the message, the text after `&body=` has no `&`, `=`, `#` or `?`, and it decodes to the message's bytes |
| Contact.HashInNameCutsLink | client/src/components/Contact.jsx:88-89 | the subject is not encoded, so a `#` in the listing name ends the link's address and query before the body |
| Contact.ErrorBodyAddressesUndefined | client/src/components/Contact.jsx:25 | once an error body without an email is stored, the panel draws a link and that link is addressed to `undefined` |
| ListingView.ShownPrice | client/src/components/ListingItem.jsx:52-54 | the discount price for an offer, the regular price otherwise |
| ListingView.ShowsMonthSuffix | client/src/components/ListingItem.jsx:55-59 | the `/month` suffix appears exactly with the "For Rent" label |
| ListingView.TypeLabel | client/src/pages/Listing.jsx:164-166 | "For Rent" exactly for `type === "rent"`, "For Sale" for every other value |
| ListingView.DiscountBadge | client/src/pages/Listing.jsx:169-177 | shown only for an offer, with the amount the shown price saves on the regular price |
| ListingView.ShowsOfferBadge | client/src/components/ListingItem.jsx:26-32 | the card's offer badge appears on exactly the listings whose page shows a discount, and then the discount price is shown |
| ListingView.CardLink | client/src/components/ListingItem.jsx:8 | the card links to `/listing/` followed by the id |
| ListingView.BedWord | client/src/components/ListingItem.jsx:68 | "Bed" exactly for one bedroom, "Beds" otherwise, 0 included |
| ListingView.BathWord | client/src/components/ListingItem.jsx:76 | "Bath" exactly for one bathroom, "Baths" otherwise |
| ListingView.YesNo | client/src/pages/Listing.jsx:221 | "Yes" exactly when the flag is set |
| ListingView.DiscountExplainsPrice | client/src/pages/Listing.jsx:140-146 | for an offer the badge is the regular price minus the shown price; without one there is no badge and the regular price is shown |
| ListingView.Render | client/src/pages/Listing.jsx:53-76 | loading shows the spinner, then an error shows the error panel, then the details show only for a present listing |
| ListingView.ShowsContactButton | client/src/pages/Listing.jsx:243-245 | the button shows exactly for a signed-in visitor who does not own the listing while the panel is closed; the owner, a signed-out visitor and anyone with the panel open see none |
| ListingView.ShowsContactPanel | client/src/pages/Listing.jsx:256 | the panel is drawn only inside the details, and then nobody sees the contact button |
| ListingView.ButtonGivesWayToPanel | client/src/pages/Listing.jsx:53-76 | with the details drawn the panel follows the `contact` flag; while loading or after an error it is not drawn |
| ListingView.ListingPage.constructor | client/src/pages/Listing.jsx:23-27 | no listing, not loading, no error, contact closed |
| ListingView.ListingPage.StartFetch | client/src/pages/Listing.jsx:34 | loading is set |
| ListingView.ListingPage.FetchSettled | client/src/pages/Listing.jsx:31-51 | a listing is stored and clears the error; a `{success: false}` body or a throw sets the error and keeps the listing; loading ends |
| ListingView.ListingPage.OpenContact | client/src/pages/Listing.jsx:248 | the contact flag is set, and with a loaded listing the panel is then on screen |
| ListingView.ListingPage.ContactPanelShown | client/src/pages/Listing.jsx:256 | the panel is on screen exactly when the listing loaded without error and the button was clicked |

## Left out

- Network and SDK calls: every `fetch`, Redux `dispatch`, `navigate` and Firebase or Supabase call. Their results are inputs: a reply datatype, an upload outcome or a session flag.
- Async ordering. Each async completion is one method call given its outcome. A stale response overwriting a newer one is not modelled. Neither is the closure over an old `formData` in the image-batch and avatar-upload callbacks: the model merges into the current state.
- Search.jsx's listing fetch (39-47), and the server's filtering of the query it sends, are not part of this model.
- Query-string serialisation and parsing (`toString`, percent-decoding of `location.search`). Queries are sequences of already-decoded pairs.
- Number coercion and formatting: `+value`, `toLocaleString`. Prices and room counts are integers, and a number input's event carries the integer its text denotes.
- Upload progress arithmetic (float division, `Math.round`): the percentage is given as an integer.
- `Date.now()`, `Math.random()` and `window.confirm` become parameters. Firebase's `storeImage` (UpdateListing.jsx:80-104) is only its outcome.
- UpdateListing.ApplyInput: JavaScript would also write unknown ids (or a boolean id on a text input) as new keys of `formData`. The markup never produces such events, and the model leaves the record unchanged for them.
- Contact.jsx's landlord fetch request itself, and the avatar, username and listing name it only displays.
- Listing.jsx's share button, its clipboard write and the timed "Link copied!" message (99-118). The image gallery markup is not modelled either.
- Profile.jsx's update, delete-account and sign-out handlers (72-131) only forward to the server and the Redux store.
- The `auth` helpers of supabase.js (87-123) only wrap Supabase calls.
- `encodeURIComponent` throws on lone surrogates. A Dafny `char` is a Unicode scalar value, so that case cannot arise.
