/** The header's search box (client/src/components/Header.jsx): its `searchTerm` state,
    the effect that copies the URL's term into it, and the submit that merges the term
    into the current query. */
module HeaderBar {
  import opened Wrappers
  import opened UrlSearchParams

  /** The effect's rule: a non-empty `searchTerm` in the URL replaces the box's text;
      an absent or empty one leaves it alone. */
  function SyncedTerm(current: string, search: Pairs): (term: string)
    ensures term == current || Get(search, "searchTerm") == Some(term)
    ensures term == "" ==> current == ""
  {
    if NonEmpty(Get(search, "searchTerm")) then Get(search, "searchTerm").value else current
  }

  class SearchBox {
    var searchTerm: string

    constructor ()
      ensures searchTerm == ""
    {
      searchTerm := "";
    }

    /** The input's `onChange`. */
    method Type(text: string)
      modifies this
      ensures searchTerm == text
    {
      searchTerm := text;
    }

    /** The effect on `location.search`, passed in. */
    method SyncFromUrl(search: Pairs)
      modifies this
      ensures searchTerm == SyncedTerm(old(searchTerm), search)
    {
      searchTerm := SyncedTerm(searchTerm, search);
    }

    /** `handleSubmit`: `set` the box's text on the current query, then go to `/search`
        whatever page is showing. */
    method HandleSubmit(currentSearch: Pairs) returns (target: Location)
      ensures target.pathname == "/search"
      ensures Get(target.search, "searchTerm") == Some(searchTerm)
      ensures Without(target.search, "searchTerm") == Without(currentSearch, "searchTerm")
      ensures target.search == SetValue(currentSearch, "searchTerm", searchTerm)
    {
      var params := new SearchParams(currentSearch);
      params.Set("searchTerm", searchTerm);
      GetAfterSet(currentSearch, "searchTerm", searchTerm);
      SetKeepsOthers(currentSearch, "searchTerm", searchTerm);
      target := Location("/search", params.pairs);
    }
  }

  /** The effect copies a non-empty URL term and otherwise keeps the box's text. */
  lemma SyncCopiesNonEmpty(current: string, search: Pairs)
    ensures Get(search, "searchTerm").Some? && Get(search, "searchTerm").value != "" ==>
      SyncedTerm(current, search) == Get(search, "searchTerm").value
    ensures Get(search, "searchTerm") == None || Get(search, "searchTerm") == Some("") ==>
      SyncedTerm(current, search) == current
  {
  }

  /** Running the effect twice on the same query leaves the same text as running it once. */
  lemma SyncIdempotent(current: string, search: Pairs)
    ensures SyncedTerm(SyncedTerm(current, search), search) == SyncedTerm(current, search)
  {
  }

  /** After submit the query holds exactly one `searchTerm` pair: the first one keeps its
      place, or a new one is appended when there was none. */
  lemma SubmitSingleTerm(currentSearch: Pairs, term: string)
    ensures Count(SetValue(currentSearch, "searchTerm", term), "searchTerm") == 1
    ensures !HasName(currentSearch, "searchTerm") ==>
      SetValue(currentSearch, "searchTerm", term) == currentSearch + [("searchTerm", term)]
    ensures forall i ::
      (0 <= i < |currentSearch| && currentSearch[i].0 == "searchTerm" && !HasName(currentSearch[..i], "searchTerm")) ==>
      (&& i < |SetValue(currentSearch, "searchTerm", term)|
       && SetValue(currentSearch, "searchTerm", term)[..i] == currentSearch[..i]
       && SetValue(currentSearch, "searchTerm", term)[i] == ("searchTerm", term))
  {
    SetLeavesOne(currentSearch, "searchTerm", term);
    forall i | 0 <= i < |currentSearch| && currentSearch[i].0 == "searchTerm"
      && !HasName(currentSearch[..i], "searchTerm")
      ensures |SetValue(currentSearch, "searchTerm", term)| > i
      ensures SetValue(currentSearch, "searchTerm", term)[..i] == currentSearch[..i]
      ensures SetValue(currentSearch, "searchTerm", term)[i] == ("searchTerm", term)
    {
      SetPosition(currentSearch, "searchTerm", term, i);
    }
  }
}
