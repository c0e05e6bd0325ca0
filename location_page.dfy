/**
 * The farmer's location table: the fetched list, the search over it, the
 * page of five rows on screen, the spreadsheet export and the delete
 * confirmation dialog.
 */
module LocationPage {

  import opened Wrappers
  import Text
  import ListView
  import AreaSize

  datatype Location = Location(
    id: string,
    province: string,
    district: string,
    city: string,
    latitude: string,
    longitude: string,
    areaSize: string,
    soilType: string,
    irrigationType: string)

  /** One row of the spreadsheet export, in its column order. */
  datatype LocationRow = LocationRow(
    Province: string,
    District: string,
    City: string,
    Latitude: string,
    Longitude: string,
    Area_Size: string,
    Soil_Type: string,
    Irrigation_Type: string)

  /** Rows per page. */
  const LocationsPerPage: nat := 5

  /** A location matches a query when its city, lower-cased, contains the lower-cased query. */
  predicate CityMatches(query: string, l: Location)
  {
    Text.MatchesIgnoringCase(l.city, query)
  }

  /** `handleSearch`: the locations whose city matches, in list order. */
  function Search(dataList: seq<Location>, query: string): (r: seq<Location>)
    ensures |r| <= |dataList|
    ensures forall l :: l in r ==> l in dataList && CityMatches(query, l)
  {
    ListView.Filter(dataList, l => CityMatches(query, l))
  }

  /** The search keeps exactly the matching locations, with their multiplicities, in their original order. */
  lemma SearchIsMatchingSublist(dataList: seq<Location>, query: string)
    ensures ListView.IsSubsequence(Search(dataList, query), dataList)
    ensures forall l :: l in Search(dataList, query) ==> CityMatches(query, l)
    ensures forall l :: l in dataList ==>
              multiset(Search(dataList, query))[l] == if CityMatches(query, l) then multiset(dataList)[l] else 0
  {
    ListView.FilterIsSubsequence(dataList, l => CityMatches(query, l));
    forall l | l in dataList
      ensures multiset(Search(dataList, query))[l] == if CityMatches(query, l) then multiset(dataList)[l] else 0
    {
      ListView.FilterCounts(dataList, l => CityMatches(query, l), l);
    }
  }

  /** An empty query keeps every location. */
  lemma EmptySearchKeepsAll(dataList: seq<Location>)
    ensures Search(dataList, "") == dataList
  {
    forall i | 0 <= i < |dataList| ensures CityMatches("", dataList[i]) {
      Text.IncludesEmpty(Text.Lower(dataList[i].city));
    }
    ListView.FilterKeepsAll(dataList, l => CityMatches("", l));
  }

  /** The search ignores the letter case of the query. */
  lemma SearchIgnoresQueryCase(dataList: seq<Location>, query: string)
    ensures Search(dataList, Text.Lower(query)) == Search(dataList, query)
  {
    forall i | 0 <= i < |dataList|
      ensures CityMatches(Text.Lower(query), dataList[i]) == CityMatches(query, dataList[i])
    {
      Text.MatchIgnoresQueryCase(dataList[i].city, query);
    }
    ListView.FilterCongruent(dataList, l => CityMatches(Text.Lower(query), l), l => CityMatches(query, l));
  }

  function ToRow(l: Location): LocationRow
  {
    LocationRow(l.province, l.district, l.city, l.latitude, l.longitude, l.areaSize, l.soilType, l.irrigationType)
  }

  /** `generateExcelFile`'s projection: one row per location, in order. */
  function ExportRows(dataList: seq<Location>): (rows: seq<LocationRow>)
    ensures |rows| == |dataList|
    ensures forall i :: 0 <= i < |dataList| ==>
              && rows[i].City == dataList[i].city
              && rows[i].Area_Size == dataList[i].areaSize
              && rows[i] == ToRow(dataList[i])
  {
    if dataList == [] then [] else [ToRow(dataList[0])] + ExportRows(dataList[1..])
  }

  class LocationView {
    var dataList: seq<Location>
    var filteredDataList: seq<Location>
    var currentPage: int
    var deleteId: Option<string>
    var showDeleteModal: bool
    /** The location whose edit form (and crop view) is open. */
    var selectedLocation: Option<Location>

    constructor ()
      ensures dataList == [] && filteredDataList == [] && currentPage == 1
      ensures deleteId == None && !showDeleteModal && selectedLocation == None
    {
      dataList := [];
      filteredDataList := [];
      currentPage := 1;
      deleteId := None;
      showDeleteModal := false;
      selectedLocation := None;
    }

    /**
     * `fetchLocations` once the response arrives: an array replaces both
     * lists (dropping any search); anything else, or a failed request,
     * leaves them as they were.
     */
    method Fetched(response: Option<seq<Location>>)
      modifies this`dataList, this`filteredDataList
      ensures response.Some? ==> dataList == response.value && filteredDataList == response.value
      ensures response.None? ==> dataList == old(dataList) && filteredDataList == old(filteredDataList)
    {
      if response.Some? {
        dataList := response.value;
        filteredDataList := response.value;
      }
    }

    /** `handleSearch`: filter the fetched list; the page number is left alone. */
    method HandleSearch(query: string)
      modifies this`filteredDataList
      ensures filteredDataList == Search(dataList, query)
      ensures ListView.IsSubsequence(filteredDataList, dataList)
    {
      filteredDataList := Search(dataList, query);
      SearchIsMatchingSublist(dataList, query);
    }

    /** The pagination's `onPageChange`. */
    method SetCurrentPage(page: int)
      modifies this`currentPage
      ensures currentPage == page
    {
      currentPage := page;
    }

    /** The rows on screen: page `currentPage` of the filtered list. */
    function CurrentLocations(): (rows: seq<Location>)
      reads this
      ensures currentPage >= 1 ==> |rows| <= LocationsPerPage
      ensures currentPage > TotalPages() ==> rows == []
    {
      ListView.PageBounds(filteredDataList, currentPage, LocationsPerPage);
      ListView.PageOf(filteredDataList, currentPage, LocationsPerPage)
    }

    function TotalPages(): (n: nat)
      reads this
      ensures n * LocationsPerPage >= |filteredDataList|
      ensures n > 0 ==> (n - 1) * LocationsPerPage < |filteredDataList|
    {
      ListView.TotalPages(|filteredDataList|, LocationsPerPage)
    }

    /** The spreadsheet rows: every fetched location, not only the filtered ones. */
    function ExcelRows(): (rows: seq<LocationRow>)
      reads this
      ensures |rows| == |dataList|
    {
      ExportRows(dataList)
    }

    method HandleEditModalOpen(l: Location)
      modifies this`selectedLocation
      ensures selectedLocation == Some(l)
    {
      selectedLocation := Some(l);
    }

    /** The land size passed to the crop view: the first number in the selected location's area size. */
    function TotalLandSize(): (size: Option<real>)
      reads this
      requires selectedLocation.Some?
      ensures size.None? <==> !AreaSize.HasDigit(selectedLocation.value.areaSize)
    {
      AreaSize.LandSize(selectedLocation.value.areaSize)
    }

    method HandleShowDeleteModal(id: string)
      modifies this`deleteId, this`showDeleteModal
      ensures deleteId == Some(id) && showDeleteModal
    {
      deleteId := Some(id);
      showDeleteModal := true;
    }

    method HandleCloseDeleteModal()
      modifies this`deleteId, this`showDeleteModal
      ensures deleteId == None && !showDeleteModal
    {
      showDeleteModal := false;
      deleteId := None;
    }

    /**
     * `handleDelete` once the request settles: on success the dialog
     * closes and forgets the id; on failure both stay as they were.
     */
    method HandleDelete(succeeded: bool)
      modifies this`deleteId, this`showDeleteModal
      ensures succeeded ==> deleteId == None && !showDeleteModal
      ensures !succeeded ==> deleteId == old(deleteId) && showDeleteModal == old(showDeleteModal)
    {
      if succeeded {
        HandleCloseDeleteModal();
      }
    }
  }
}
