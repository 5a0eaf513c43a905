/** The search page's filter sidebar (client/src/pages/Search.jsx): the seven-field
    draft, its change handler, the URL decoding effect and the submit encoder. */
module SearchPage {
  import opened Wrappers
  import opened Strings
  import opened UrlSearchParams

  /** The `sidebarData` state (`listingType` is its `type` field). `type`, `sort` and `order` are plain strings: nothing in
      the page restricts them to the values its controls offer. */
  datatype Draft = Draft(
    searchTerm: string,
    listingType: string,
    parking: bool,
    furnished: bool,
    offer: bool,
    sort: string,
    order: string)

  /** The initial `useState` value. */
  const DefaultDraft := Draft("", "all", false, false, false, "createdAt", "desc")

  /** The change event of one sidebar control: its id, its text value and its checked flag. */
  datatype ChangeEvent = ChangeEvent(id: string, value: string, checked: bool)

  /** `'true'` is the only value that decodes to true. */
  predicate DecodesTrue(v: Option<string>)
  {
    v == Some("true")
  }

  /** Some filter parameter of the URL holds a non-empty value. */
  predicate AnyFilterParam(q: Pairs)
  {
    || NonEmpty(Get(q, "searchTerm")) || NonEmpty(Get(q, "type"))
    || NonEmpty(Get(q, "parking")) || NonEmpty(Get(q, "furnished")) || NonEmpty(Get(q, "offer"))
    || NonEmpty(Get(q, "sort")) || NonEmpty(Get(q, "order"))
  }

  /** The effect that reads `location.search` into the draft. When no parameter has a
      non-empty value the current draft is kept as it is. */
  function DecodeUrl(q: Pairs, current: Draft): (d: Draft)
  {
    if AnyFilterParam(q) then
      Draft(
        OrElse(Get(q, "searchTerm"), ""),
        OrElse(Get(q, "type"), "all"),
        DecodesTrue(Get(q, "parking")),
        DecodesTrue(Get(q, "furnished")),
        DecodesTrue(Get(q, "offer")),
        OrElse(Get(q, "sort"), "createdAt"),
        OrElse(Get(q, "order"), "desc"))
    else current
  }

  /** The select's value `"X_Y"` split on `'_'`: X (or `createdAt` when empty) and the
      second piece (or `desc` when empty or missing). */
  function SortOrder(value: string): (sortAndOrder: (string, string))
  {
    var parts := Split(value, "_");
    (OrElse(At(parts, 0), "createdAt"), OrElse(At(parts, 1), "desc"))
  }

  predicate IsTypeBox(id: string)
  {
    id == "all" || id == "rent" || id == "sale"
  }

  predicate IsAmenityBox(id: string)
  {
    id == "parking" || id == "furnished" || id == "offer"
  }

  /** `handleChange`: the control's id decides the one field (or, for the sort select,
      the two fields) that change; an unknown id changes nothing. */
  function ApplyChange(d: Draft, ev: ChangeEvent): (r: Draft)
    ensures IsTypeBox(ev.id) ==> r.listingType == ev.id
    ensures r.listingType != d.listingType ==> IsTypeBox(ev.id)
    ensures r.searchTerm != d.searchTerm ==> ev.id == "searchTerm"
    ensures r.parking != d.parking ==> ev.id == "parking"
    ensures r.furnished != d.furnished ==> ev.id == "furnished"
    ensures r.offer != d.offer ==> ev.id == "offer"
    ensures r.sort != d.sort || r.order != d.order ==> ev.id == "sort_order"
  {
    if IsTypeBox(ev.id) then d.(listingType := ev.id)
    else if ev.id == "searchTerm" then d.(searchTerm := ev.value)
    else if ev.id == "parking" then d.(parking := ev.checked)
    else if ev.id == "furnished" then d.(furnished := ev.checked)
    else if ev.id == "offer" then d.(offer := ev.checked)
    else if ev.id == "sort_order" then
      var (sort, order) := SortOrder(ev.value);
      d.(sort := sort, order := order)
    else d
  }

  /** A boolean set on URLSearchParams is stored as its string form. */
  function BoolText(b: bool): string
  {
    if b then "true" else "false"
  }

  /** The names `handleSubmit` writes, in the order of its seven `set` calls. */
  const FilterNames: seq<string> := ["searchTerm", "type", "parking", "furnished", "offer", "sort", "order"]

  /** The pairs `handleSubmit` writes, in the order of its seven `set` calls. */
  function Encode(d: Draft): (q: Pairs)
    ensures |q| == |FilterNames|
    ensures forall k :: 0 <= k < |q| ==> q[k].0 == FilterNames[k]
  {
    [ ("searchTerm", d.searchTerm), ("type", d.listingType), ("parking", BoolText(d.parking)),
      ("furnished", BoolText(d.furnished)), ("offer", BoolText(d.offer)),
      ("sort", d.sort), ("order", d.order) ]
  }

  /** The type check box `id` is drawn checked. */
  predicate TypeBoxChecked(d: Draft, id: string)
  {
    d.listingType == id
  }

  /** The sidebar component and its `sidebarData` state. */
  class Sidebar {
    var draft: Draft

    constructor ()
      ensures draft == DefaultDraft
    {
      draft := DefaultDraft;
    }

    /** The URL effect, with `location.search` passed in. */
    method LoadFromUrl(search: Pairs)
      modifies this
      ensures draft == DecodeUrl(search, old(draft))
    {
      draft := DecodeUrl(search, draft);
    }

    method HandleChange(ev: ChangeEvent)
      modifies this
      ensures draft == ApplyChange(old(draft), ev)
    {
      draft := ApplyChange(draft, ev);
    }

    /** `handleSubmit`: seven `set` calls on a fresh URLSearchParams, then navigation. */
    method HandleSubmit() returns (target: Location)
      ensures target.pathname == "/search"
      ensures target.search == Encode(draft)
    {
      var params := new SearchParams([]);
      SubmitStep(draft, 0, params.pairs);
      params.Set("searchTerm", draft.searchTerm);
      SubmitStep(draft, 1, params.pairs);
      params.Set("type", draft.listingType);
      SubmitStep(draft, 2, params.pairs);
      params.Set("parking", BoolText(draft.parking));
      SubmitStep(draft, 3, params.pairs);
      params.Set("furnished", BoolText(draft.furnished));
      SubmitStep(draft, 4, params.pairs);
      params.Set("offer", BoolText(draft.offer));
      SubmitStep(draft, 5, params.pairs);
      params.Set("sort", draft.sort);
      SubmitStep(draft, 6, params.pairs);
      params.Set("order", draft.order);
      assert Encode(draft)[..7] == Encode(draft);
      target := Location("/search", params.pairs);
    }
  }

  /** The seven names are distinct, so each `set` of submit appends a new pair. */
  lemma EncodeStep(d: Draft, k: nat)
    requires k < 7
    ensures SetValue(Encode(d)[..k], Encode(d)[k].0, Encode(d)[k].1) == Encode(d)[..k + 1]
  {
    var e := Encode(d);
    assert !HasName(e[..k], e[k].0) by {
      forall i | 0 <= i < k ensures e[..k][i].0 != e[k].0 {
        assert e[..k][i].0 == FilterNames[i];
      }
    }
    assert e[..k] + [e[k]] == e[..k + 1];
  }

  /** One `set` of submit, on the pairs written so far. */
  lemma SubmitStep(d: Draft, k: nat, p: Pairs)
    requires k < 7
    requires k == 0 ==> p == []
    requires k > 0 ==> p == Encode(d)[..k]
    ensures SetValue(p, FilterNames[k], Encode(d)[k].1) == Encode(d)[..k + 1]
  {
    assert Encode(d)[k].0 == FilterNames[k];
    EncodeStep(d, k);
  }

  /** `get` on Encode's output finds the pair at the name's position. */
  lemma EncodeGet(d: Draft, k: nat)
    requires k < 7
    ensures Get(Encode(d), FilterNames[k]) == Some(Encode(d)[k].1)
  {
    var e := Encode(d);
    EncodeStep(d, k);
    GetAfterSet(e[..k], e[k].0, e[k].1);
    assert e == e[..k + 1] + e[k + 1..];
    GetFromPrefix(e[..k + 1], e[k + 1..], FilterNames[k]);
  }

  /** Decoding what submit wrote gives back the draft, whenever `type`, `sort` and
      `order` are non-empty (an empty one would come back as its default). */
  lemma DecodeEncode(d: Draft, current: Draft)
    requires d.listingType != "" && d.sort != "" && d.order != ""
    ensures DecodeUrl(Encode(d), current) == d
  {
    EncodeWritesAll(d);
  }

  /** Booleans: exactly the string `"true"` gives true; `"TRUE"` or absence gives false. */
  lemma StrictBooleans(q: Pairs, current: Draft)
    requires AnyFilterParam(q)
    ensures DecodeUrl(q, current).parking <==> Get(q, "parking") == Some("true")
    ensures DecodeUrl(q, current).furnished <==> Get(q, "furnished") == Some("true")
    ensures DecodeUrl(q, current).offer <==> Get(q, "offer") == Some("true")
  {
  }

  /** A URL whose only parameter is `parking=TRUE` resets the draft to the defaults. */
  lemma UpperCaseTrueIsFalse(current: Draft)
    ensures DecodeUrl([("parking", "TRUE")], current) == DefaultDraft
  {
    var q := [("parking", "TRUE")];
    assert Get(q, "parking") == Some("TRUE");
  }

  /** Absent or empty text parameters take their defaults; any other `type` is taken as is. */
  lemma TextDefaults(q: Pairs, current: Draft)
    requires AnyFilterParam(q)
    ensures !NonEmpty(Get(q, "searchTerm")) ==> DecodeUrl(q, current).searchTerm == ""
    ensures !NonEmpty(Get(q, "type")) ==> DecodeUrl(q, current).listingType == "all"
    ensures NonEmpty(Get(q, "type")) ==> DecodeUrl(q, current).listingType == Get(q, "type").value
    ensures !NonEmpty(Get(q, "sort")) ==> DecodeUrl(q, current).sort == "createdAt"
    ensures !NonEmpty(Get(q, "order")) ==> DecodeUrl(q, current).order == "desc"
  {
  }

  /** With no non-empty filter parameter the draft is left as it was, not reset. */
  lemma EmptyUrlKeepsDraft(q: Pairs, current: Draft)
    requires !AnyFilterParam(q)
    ensures DecodeUrl(q, current) == current
  {
  }

  /** An unvalidated `type` from the URL leaves every type box unchecked. */
  lemma UnknownTypeChecksNoBox(q: Pairs, current: Draft)
    requires NonEmpty(Get(q, "type")) && !IsTypeBox(Get(q, "type").value)
    ensures var d := DecodeUrl(q, current);
      !TypeBoxChecked(d, "all") && !TypeBoxChecked(d, "rent") && !TypeBoxChecked(d, "sale")
  {
  }

  /** A type box change selects that box, whatever its checked flag, and at most one
      type box is ever checked. */
  lemma TypeBoxSelects(d: Draft, ev: ChangeEvent)
    requires IsTypeBox(ev.id)
    ensures var r := ApplyChange(d, ev);
      && r == d.(listingType := ev.id)
      && TypeBoxChecked(r, ev.id)
      && forall other :: IsTypeBox(other) && other != ev.id ==> !TypeBoxChecked(r, other)
  {
  }

  /** Each change touches only its own field(s); unknown ids change nothing. */
  lemma ChangeIsLocal(d: Draft, ev: ChangeEvent)
    ensures ev.id == "searchTerm" ==> ApplyChange(d, ev) == d.(searchTerm := ev.value)
    ensures IsAmenityBox(ev.id) ==>
      ApplyChange(d, ev) == if ev.id == "parking" then d.(parking := ev.checked)
                            else if ev.id == "furnished" then d.(furnished := ev.checked)
                            else d.(offer := ev.checked)
    ensures ev.id == "sort_order" ==>
      ApplyChange(d, ev) == d.(sort := SortOrder(ev.value).0, order := SortOrder(ev.value).1)
    ensures !IsTypeBox(ev.id) && !IsAmenityBox(ev.id) && ev.id != "searchTerm" && ev.id != "sort_order" ==>
      ApplyChange(d, ev) == d
  {
  }

  /** Splitting `"X_Y"` or `"X_Y_Z"` on `'_'` puts X and Y first. */
  lemma {:induction false} UnderscorePieces(x: string, y: string, z: Option<string>)
    requires '_' !in x && '_' !in y
    ensures var value := if z.Some? then x + "_" + y + "_" + z.value else x + "_" + y;
      var parts := Split(value, "_");
      |parts| >= 2 && parts[0] == x && parts[1] == y
  {
    ContainsChar(x, '_');
    ContainsChar(y, '_');
    if z.Some? {
      SplitAfterFirst(x, "_", y + "_" + z.value);
      SplitAfterFirst(y, "_", z.value);
      assert x + "_" + y + "_" + z.value == x + "_" + (y + "_" + z.value);
    } else {
      SplitAfterFirst(x, "_", y);
      SplitWithout(y, "_");
    }
  }

  /** `"X_Y"` gives sort X and order Y (empty parts take their defaults), and any third
      segment is ignored. */
  lemma SortOrderParts(x: string, y: string, z: Option<string>)
    requires '_' !in x && '_' !in y
    ensures var value := if z.Some? then x + "_" + y + "_" + z.value else x + "_" + y;
      SortOrder(value) == (if x != "" then x else "createdAt", if y != "" then y else "desc")
  {
    UnderscorePieces(x, y, z);
  }

  /** A value without `'_'` is all sort, with the default order. */
  lemma SortOrderNoUnderscore(x: string)
    requires '_' !in x
    ensures SortOrder(x) == (if x != "" then x else "createdAt", "desc")
  {
    ContainsChar(x, '_');
    SplitWithout(x, "_");
  }

  /** The four options of the select map to the pairs they name. */
  lemma SortOptionLatest()
    ensures SortOrder("createdAt_desc") == ("createdAt", "desc")
  {
    SortOrderParts("createdAt", "desc", None);
    assert "createdAt" + "_" + "desc" == "createdAt_desc";
  }

  lemma SortOptionOldest()
    ensures SortOrder("createdAt_asc") == ("createdAt", "asc")
  {
    SortOrderParts("createdAt", "asc", None);
    assert "createdAt" + "_" + "asc" == "createdAt_asc";
  }

  lemma SortOptionPriceHighToLow()
    ensures SortOrder("regularPrice_desc") == ("regularPrice", "desc")
  {
    SortOrderParts("regularPrice", "desc", None);
    assert "regularPrice" + "_" + "desc" == "regularPrice_desc";
  }

  lemma SortOptionPriceLowToHigh()
    ensures SortOrder("regularPrice_asc") == ("regularPrice", "asc")
  {
    SortOrderParts("regularPrice", "asc", None);
    assert "regularPrice" + "_" + "asc" == "regularPrice_asc";
  }

  /** Submit writes each of the seven names once, booleans as `"true"`/`"false"`. */
  lemma EncodeWritesAll(d: Draft)
    ensures Get(Encode(d), "searchTerm") == Some(d.searchTerm)
    ensures Get(Encode(d), "type") == Some(d.listingType)
    ensures Get(Encode(d), "parking") == Some(if d.parking then "true" else "false")
    ensures Get(Encode(d), "furnished") == Some(if d.furnished then "true" else "false")
    ensures Get(Encode(d), "offer") == Some(if d.offer then "true" else "false")
    ensures Get(Encode(d), "sort") == Some(d.sort)
    ensures Get(Encode(d), "order") == Some(d.order)
    ensures |Encode(d)| == 7
  {
    EncodeGet(d, 0); EncodeGet(d, 1); EncodeGet(d, 2); EncodeGet(d, 3);
    EncodeGet(d, 4); EncodeGet(d, 5); EncodeGet(d, 6);
  }
}
