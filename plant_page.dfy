/**
 * The admin's plant table: the fetched list, the search by name and date,
 * the page of two rows on screen, the spreadsheet export and the delete
 * confirmation dialog.
 */
module PlantPage {

  import opened Wrappers
  import Text
  import ListView

  datatype Plant = Plant(
    id: string,
    name: string,
    description: string,
    climate: string,
    soilPh: string,
    landPreparation: string,
    fertilizers: seq<string>,
    imageUrl: string,
    date: string)

  /** One row of the spreadsheet export, in its column order. */
  datatype PlantRow = PlantRow(
    Plant_Name: string,
    Date: string,
    Description: string,
    Climate: string,
    Soil_pH: string,
    Land_Preparation: string,
    Fertilizers: seq<string>)

  /** Rows per page. */
  const PlantsPerPage: nat := 2

  /** The text a plant is searched by: its name, a space, its date. */
  function SearchKey(p: Plant): (key: string)
    ensures |key| == |p.name| + 1 + |p.date|
    ensures key[..|p.name|] == p.name && key[|p.name|] == ' ' && key[|p.name| + 1..] == p.date
  {
    p.name + " " + p.date
  }

  predicate PlantMatches(query: string, p: Plant)
  {
    Text.MatchesIgnoringCase(SearchKey(p), query)
  }

  /** `handleSearch`: the plants whose key matches, in list order. */
  function Search(dataList: seq<Plant>, query: string): (r: seq<Plant>)
    ensures |r| <= |dataList|
    ensures forall p :: p in r ==> p in dataList && PlantMatches(query, p)
  {
    ListView.Filter(dataList, p => PlantMatches(query, p))
  }

  /** The search keeps exactly the matching plants, with their multiplicities, in their original order. */
  lemma SearchIsMatchingSublist(dataList: seq<Plant>, query: string)
    ensures ListView.IsSubsequence(Search(dataList, query), dataList)
    ensures forall p :: p in Search(dataList, query) ==> PlantMatches(query, p)
    ensures forall p :: p in dataList ==>
              multiset(Search(dataList, query))[p] == if PlantMatches(query, p) then multiset(dataList)[p] else 0
  {
    ListView.FilterIsSubsequence(dataList, p => PlantMatches(query, p));
    forall p | p in dataList
      ensures multiset(Search(dataList, query))[p] == if PlantMatches(query, p) then multiset(dataList)[p] else 0
    {
      ListView.FilterCounts(dataList, p => PlantMatches(query, p), p);
    }
  }

  /** An empty query keeps every plant. */
  lemma EmptySearchKeepsAll(dataList: seq<Plant>)
    ensures Search(dataList, "") == dataList
  {
    forall i | 0 <= i < |dataList| ensures PlantMatches("", dataList[i]) {
      Text.IncludesEmpty(Text.Lower(SearchKey(dataList[i])));
    }
    ListView.FilterKeepsAll(dataList, p => PlantMatches("", p));
  }

  /** A query made of a plant's own name is found (a name is a prefix of the key). */
  lemma NameQueryFindsPlant(dataList: seq<Plant>, i: nat)
    requires i < |dataList|
    ensures dataList[i] in Search(dataList, dataList[i].name)
  {
    var p := dataList[i];
    var key := Text.Lower(SearchKey(p));
    var q := Text.Lower(p.name);
    assert key[..|q|] == q;
    Text.IncludesIffOccurs(key, q);
    assert Text.OccursAt(key, q, 0);
    ListView.FilterKeeps(dataList, p => PlantMatches(dataList[i].name, p), i);
  }

  function ToRow(p: Plant): PlantRow
  {
    PlantRow(p.name, p.date, p.description, p.climate, p.soilPh, p.landPreparation, p.fertilizers)
  }

  /** `generateExcelFile`'s projection: one row per plant, in order, fertilizers as they are. */
  function ExportRows(dataList: seq<Plant>): (rows: seq<PlantRow>)
    ensures |rows| == |dataList|
    ensures forall i :: 0 <= i < |dataList| ==>
              && rows[i].Plant_Name == dataList[i].name
              && rows[i].Fertilizers == dataList[i].fertilizers
              && rows[i] == ToRow(dataList[i])
  {
    if dataList == [] then [] else [ToRow(dataList[0])] + ExportRows(dataList[1..])
  }

  class PlantView {
    var dataList: seq<Plant>
    var filteredDataList: seq<Plant>
    var currentPage: int
    var deleteId: Option<string>
    var showDeleteModal: bool

    constructor ()
      ensures dataList == [] && filteredDataList == [] && currentPage == 1
      ensures deleteId == None && !showDeleteModal
    {
      dataList := [];
      filteredDataList := [];
      currentPage := 1;
      deleteId := None;
      showDeleteModal := false;
    }

    /**
     * `fetchPlants` once the response arrives: an array replaces both
     * lists; anything else, or a failed request, leaves them as they were.
     */
    method Fetched(response: Option<seq<Plant>>)
      modifies this`dataList, this`filteredDataList
      ensures response.Some? ==> dataList == response.value && filteredDataList == response.value
      ensures response.None? ==> dataList == old(dataList) && filteredDataList == old(filteredDataList)
    {
      if response.Some? {
        dataList := response.value;
        filteredDataList := response.value;
      }
    }

    /** `handleSearch`: filter the fetched list; the page number is left alone. */
    method HandleSearch(query: string)
      modifies this`filteredDataList
      ensures filteredDataList == Search(dataList, query)
      ensures ListView.IsSubsequence(filteredDataList, dataList)
    {
      filteredDataList := Search(dataList, query);
      SearchIsMatchingSublist(dataList, query);
    }

    /** The pagination's `onPageChange`. */
    method SetCurrentPage(page: int)
      modifies this`currentPage
      ensures currentPage == page
    {
      currentPage := page;
    }

    /** The rows on screen: page `currentPage` of the filtered list. */
    function CurrentPlants(): (rows: seq<Plant>)
      reads this
      ensures currentPage >= 1 ==> |rows| <= PlantsPerPage
      ensures currentPage > TotalPages() ==> rows == []
    {
      ListView.PageBounds(filteredDataList, currentPage, PlantsPerPage);
      ListView.PageOf(filteredDataList, currentPage, PlantsPerPage)
    }

    function TotalPages(): (n: nat)
      reads this
      ensures n * PlantsPerPage >= |filteredDataList|
      ensures n > 0 ==> (n - 1) * PlantsPerPage < |filteredDataList|
    {
      ListView.TotalPages(|filteredDataList|, PlantsPerPage)
    }

    /** The spreadsheet rows: every fetched plant, not only the filtered ones. */
    function ExcelRows(): (rows: seq<PlantRow>)
      reads this
      ensures |rows| == |dataList|
    {
      ExportRows(dataList)
    }

    method HandleShowDeleteModal(id: string)
      modifies this`deleteId, this`showDeleteModal
      ensures deleteId == Some(id) && showDeleteModal
    {
      deleteId := Some(id);
      showDeleteModal := true;
    }

    method HandleCloseDeleteModal()
      modifies this`deleteId, this`showDeleteModal
      ensures deleteId == None && !showDeleteModal
    {
      showDeleteModal := false;
      deleteId := None;
    }

    /**
     * `handleDelete` once the request settles: on success the dialog
     * closes and forgets the id; on failure both stay as they were.
     */
    method HandleDelete(succeeded: bool)
      modifies this`deleteId, this`showDeleteModal
      ensures succeeded ==> deleteId == None && !showDeleteModal
      ensures !succeeded ==> deleteId == old(deleteId) && showDeleteModal == old(showDeleteModal)
    {
      if succeeded {
        HandleCloseDeleteModal();
      }
    }
  }
}
