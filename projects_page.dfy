/** The projects page: it loads the buildings from the registry, reports a
    failed load in a debug banner, and narrows the list by category and by
    a case-insensitive search term. */
module ProjectsPage {
  import opened Options
  import opened JsText
  import opened JsValues
  import opened Seqs
  import opened BuildingRegistry

  /** The category choice that disables the category filter. */
  const AllCategories := "All Categories"

  /** The choices the category selector offers. */
  const CategoryOptions: seq<string> := ["All Categories", "Residential", "Commercial"]

  /** The text of the debug banner for an error caught while loading:
      `Erro API: ` with the response's message (or the error's own message)
      for an API error, and `String(e)` for anything else. */
  function DebugMessage(e: CallError): (r: string)
    ensures e.ApiError? && Truthy(e.responseMessage) ==> r == "Erro API: " + ToStr(e.responseMessage)
    ensures e.ApiError? && !Truthy(e.responseMessage) ==> r == "Erro API: " + e.message
    ensures e.ScriptError? ==> r == e.text
  {
    match e
    case ApiError(responseMessage, message) =>
      "Erro API: " + (if Truthy(responseMessage) then ToStr(responseMessage) else message)
    case ScriptError(text) => text
  }

  /** An API error whose response carries a message always shows some text
      after the prefix. */
  lemma ApiMessageShown(responseMessage: JsValue, message: string)
    requires Truthy(responseMessage)
    ensures var r := DebugMessage(ApiError(responseMessage, message));
      |r| > |"Erro API: "| && r[..|"Erro API: "|] == "Erro API: "
  {
    TruthyPrintsNonEmpty(responseMessage);
  }

  /** The normalised search term: lower-cased, then trimmed. */
  function SearchTerm(searchTerm: string): (r: string)
    ensures |r| <= |searchTerm|
    ensures ToLower(r) == r
  {
    Trim(ToLower(searchTerm))
  }

  /** The search test on one building. */
  predicate MatchesTerm(term: string, b: Building)
  {
    Includes(ToLower(b.name), term) || Includes(ToLower(b.location), term) || Includes(ToLower(b.category), term)
  }

  /** The category filter's test. */
  function InCategory(selectedCategory: string): Building -> bool
  {
    (b: Building) => b.category == selectedCategory
  }

  /** The search filter's test. */
  function Matching(term: string): Building -> bool
  {
    (b: Building) => MatchesTerm(term, b)
  }

  /** `filteredBuildings`: first the category filter (unless all categories
      are selected), then, if the search box holds more than whitespace, the
      search filter. */
  function FilterBuildings(bs: seq<Building>, selectedCategory: string, searchTerm: string): (r: seq<Building>)
    ensures |r| <= |bs|
    ensures forall b :: b in r ==> b in bs && (selectedCategory == AllCategories || b.category == selectedCategory)
  {
    var byCategory :=
      if selectedCategory != AllCategories then Filter(InCategory(selectedCategory), bs) else bs;
    FilterMembers(InCategory(selectedCategory), bs);
    FilterMembers(Matching(SearchTerm(searchTerm)), byCategory);
    if Trim(searchTerm) != "" then Filter(Matching(SearchTerm(searchTerm)), byCategory) else byCategory
  }

  /** The reference test: a building is listed when its category is the
      selected one (or all are selected) and, when there is a search term,
      it matches that term. */
  predicate Listed(selectedCategory: string, searchTerm: string, b: Building)
  {
    (selectedCategory == AllCategories || b.category == selectedCategory) &&
    (Trim(searchTerm) == "" || MatchesTerm(SearchTerm(searchTerm), b))
  }

  function ListedBy(selectedCategory: string, searchTerm: string): Building -> bool
  {
    (b: Building) => Listed(selectedCategory, searchTerm, b)
  }

  /** The two filters in a row are one filter by `Listed`. */
  lemma FilterBuildingsIsOneFilter(bs: seq<Building>, selectedCategory: string, searchTerm: string)
    ensures FilterBuildings(bs, selectedCategory, searchTerm) == Filter(ListedBy(selectedCategory, searchTerm), bs)
  {
    if selectedCategory != AllCategories && Trim(searchTerm) != "" {
      CategoryThenSearch(bs, selectedCategory, searchTerm);
    } else if selectedCategory != AllCategories {
      FilterCongruent(InCategory(selectedCategory), ListedBy(selectedCategory, searchTerm), bs);
    } else if Trim(searchTerm) != "" {
      FilterCongruent(Matching(SearchTerm(searchTerm)), ListedBy(selectedCategory, searchTerm), bs);
    } else {
      FilterAll(ListedBy(selectedCategory, searchTerm), bs);
    }
  }

  lemma CategoryThenSearch(bs: seq<Building>, selectedCategory: string, searchTerm: string)
    requires selectedCategory != AllCategories && Trim(searchTerm) != ""
    ensures FilterBuildings(bs, selectedCategory, searchTerm) == Filter(ListedBy(selectedCategory, searchTerm), bs)
  {
    var byCategory := InCategory(selectedCategory);
    var bySearch := Matching(SearchTerm(searchTerm));
    FilterFilter(byCategory, bySearch, bs);
    FilterCongruent(Both(byCategory, bySearch), ListedBy(selectedCategory, searchTerm), bs);
  }

  /** The filtered list keeps the input order and holds exactly the listed
      buildings of the input. */
  lemma FilterBuildingsSpec(bs: seq<Building>, selectedCategory: string, searchTerm: string)
    ensures IsSubsequence(FilterBuildings(bs, selectedCategory, searchTerm), bs)
    ensures forall b :: b in FilterBuildings(bs, selectedCategory, searchTerm) <==>
                        b in bs && Listed(selectedCategory, searchTerm, b)
  {
    FilterBuildingsIsOneFilter(bs, selectedCategory, searchTerm);
    var listed := ListedBy(selectedCategory, searchTerm);
    FilterIsSubsequence(listed, bs);
    FilterMembers(listed, bs);
  }

  /** All categories and a blank or whitespace-only search box list every
      building, in order. */
  lemma UnfilteredIsIdentity(bs: seq<Building>, searchTerm: string)
    requires forall i :: 0 <= i < |searchTerm| ==> IsWhitespace(searchTerm[i])
    ensures FilterBuildings(bs, AllCategories, searchTerm) == bs
  {
    TrimEmptyIff(searchTerm);
  }

  /** With all categories and a search term that is not blank, a building
      is listed exactly when the normalised term occurs in its lower-cased
      name, location or category. */
  lemma SearchIff(bs: seq<Building>, searchTerm: string, b: Building)
    requires Trim(searchTerm) != ""
    ensures var term := SearchTerm(searchTerm);
      b in FilterBuildings(bs, AllCategories, searchTerm) <==>
      b in bs &&
      ((exists i: nat :: OccursAt(ToLower(b.name), term, i)) ||
       (exists i: nat :: OccursAt(ToLower(b.location), term, i)) ||
       (exists i: nat :: OccursAt(ToLower(b.category), term, i)))
  {
    var term := SearchTerm(searchTerm);
    FilterBuildingsSpec(bs, AllCategories, searchTerm);
    IncludesIff(ToLower(b.name), term);
    IncludesIff(ToLower(b.location), term);
    IncludesIff(ToLower(b.category), term);
  }

  /** Every loaded building carries the category `Comercial`, which no
      option but `All Categories` names: the other two options list
      nothing. */
  lemma OtherCategoriesEmpty(outputs: seq<Output>, selectedCategory: string, searchTerm: string)
    requires selectedCategory in CategoryOptions && selectedCategory != AllCategories
    ensures FilterBuildings(DecodeAll(outputs), selectedCategory, searchTerm) == []
  {
    var bs := DecodeAll(outputs);
    FilterNone(InCategory(selectedCategory), bs);
  }

  /** The page's state: the `useState` variables. */
  class BuildingsPage {
    var searchTerm: string
    var selectedCategory: string
    var buildings: seq<Building>
    var isLoading: bool
    var debugError: Option<string>

    constructor()
      ensures searchTerm == "" && selectedCategory == AllCategories
      ensures buildings == [] && isLoading && debugError == None
    {
      searchTerm := "";
      selectedCategory := AllCategories;
      buildings := [];
      isLoading := true;
      debugError := None;
    }

    /** The list the page renders. */
    function FilteredBuildings(): seq<Building>
      reads this
    {
      FilterBuildings(buildings, selectedCategory, searchTerm)
    }

    /** Typing in the search box. */
    method SetSearchTerm(value: string)
      modifies this
      ensures searchTerm == value
      ensures selectedCategory == old(selectedCategory) && buildings == old(buildings)
      ensures isLoading == old(isLoading) && debugError == old(debugError)
    {
      searchTerm := value;
    }

    /** Choosing a category. */
    method SetSelectedCategory(value: string)
      modifies this
      ensures selectedCategory == value
      ensures searchTerm == old(searchTerm) && buildings == old(buildings)
      ensures isLoading == old(isLoading) && debugError == old(debugError)
    {
      selectedCategory := value;
    }

    /** `fetchBlockchainData`: `total` and `getBuilding` stand for the two
        contract reads. On success the list is replaced (emptied by the
        count guard); on failure the list is kept and the banner shows the
        error; either way loading ends. Returns the ids requested. */
    method FetchBlockchainData(total: Call<JsValue>, getBuilding: string -> Call<Output>)
      returns (requested: seq<string>)
      modifies this
      ensures requested == RequestedIds(total)
      ensures !isLoading
      ensures FetchBuildings(total, getBuilding).Loaded? ==>
                buildings == FetchBuildings(total, getBuilding).buildings && debugError == None
      ensures FetchBuildings(total, getBuilding).Failed? ==>
                buildings == old(buildings) &&
                debugError == Some(DebugMessage(FetchBuildings(total, getBuilding).error))
      ensures searchTerm == old(searchTerm) && selectedCategory == old(selectedCategory)
    {
      isLoading := true;
      debugError := None;
      var fetched;
      fetched, requested := Fetch(total, getBuilding);
      match fetched {
        case Loaded(bs) =>
          buildings := bs;
        case Failed(e) =>
          debugError := Some(DebugMessage(e));
      }
      isLoading := false;
    }
  }
}
