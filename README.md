# Crop and disease management — verified model

This project models the data-handling core of a crop and disease
management web application:

- **The disease REST handlers** (`backend/controllers/PlantManagement/diseaseController.js`).
  Create, list by plant, get, update and delete work over the disease
  collection, and each answers with an HTTP status and a JSON payload.
  - `DiseaseController.DiseaseStore` is a class whose `records` field is
    a map from document id to document.
  - The `fertilizers` member of a request is normalized to an array:
    an array is kept as it is, and anything else becomes a one-element
    array.
  - A store failure caught by a handler is the `fault` parameter. It
    produces the 500 answer carrying the error's message.
- **The admin's plant list and the farmer's location list**
  (`Plant.jsx`, `Location.jsx`). Each has its own view-state class
  (`PlantPage.PlantView`, `LocationPage.LocationView`) with:
  - a case-insensitive substring search (plants by "name date",
    locations by city);
  - a fixed-size pagination window computed with JavaScript's `slice`
    semantics;
  - the projection of the full list into spreadsheet rows;
  - the delete-confirmation modal state.
- **The land-size parsing for the crop panel**
  (`extractNumber` in `Location.jsx`), in module `AreaSize`.
  - The global match of `\d+(\.\d+)?` is a left-to-right scanner,
    `Tokens`.
  - Each token's numeric value is an exact `real`.
- **The plant slider** (`PlantSlider.jsx`): a cursor over the fetched
  plants that wraps around in both directions (`PlantSlider.Slider`).
- **The plant form** (`PlantForm.jsx`): the form state as a class
  (`PlantForm.FormState`), covering:
  - per-field edits;
  - the fertilizer list's edit and append;
  - the two submission gates: the upload flag that disables the button, and
    the browser's check that every `required` input is non-empty;
  - the image URL written when an upload completes.

Shared modules:

- `ListView` holds the generic filter and pagination functions, with the
  lemmas about them.
- `Text` holds ASCII lower-casing and substring search.
- `Arith` holds a few arithmetic facts that the modular and pagination
  proofs use.
- `Wrappers` holds `Option`.

The disease handlers validate nothing themselves. They pass the body to
the model and report any thrown error, schema rejections included, as a
500. Any failure is therefore one `fault` value.

## Model

| member | source | states |
|---|---|---|
| DiseaseController.Normalize | backend/controllers/PlantManagement/diseaseController.js:17-20 | an array `fertilizers` is kept as it is; anything else becomes the one-element array holding it |
| DiseaseController.NormalizeIdempotent | backend/controllers/PlantManagement/diseaseController.js:76-79 | normalizing an already normalized list leaves it unchanged |
| DiseaseController.NormalizeMissing | backend/controllers/PlantManagement/diseaseController.js:17-20 | a missing `fertilizers` member is normalized to `[undefined]`, not to an empty list |
| DiseaseController.NewDisease | backend/controllers/PlantManagement/diseaseController.js:17-31 | a new document holds the request's seven fields, with the fertilizers normalized, under the given id and plant |
| DiseaseController.Revised | backend/controllers/PlantManagement/diseaseController.js:77-93 | after an update the document holds exactly the request's seven fields, with the fertilizers normalized, and keeps its id and its plant |
| DiseaseController.RevisedIdempotent | backend/controllers/PlantManagement/diseaseController.js:81-93 | repeating the same update request leaves the document as after the first |
| DiseaseController.DiseaseStore.constructor | backend/controllers/PlantManagement/diseaseController.js:1 | the collection starts empty and consistent |
| DiseaseController.DiseaseStore.Create | backend/controllers/PlantManagement/diseaseController.js:4-37 | on success: 201 with a new document under a fresh id, carrying the body's fields with normalized fertilizers and the plant id, and nothing else changes; on failure: 500 with the error message and no change |
| DiseaseController.DiseaseStore.FindByPlant | backend/controllers/PlantManagement/diseaseController.js:43 | the result holds exactly the stored documents of that plant, each as stored, in increasing id order |
| DiseaseController.DiseaseStore.GetByPlantId | backend/controllers/PlantManagement/diseaseController.js:40-48 | 200 with a list holding a document if and only if it is stored under its id and belongs to the plant (an empty list is still 200); 500 on failure |
| DiseaseController.DiseaseStore.GetById | backend/controllers/PlantManagement/diseaseController.js:51-60 | 200 with the stored document when the id is present, 404 "Disease not found" when it is not, 500 on failure |
| DiseaseController.DiseaseStore.Update | backend/controllers/PlantManagement/diseaseController.js:63-99 | a present id: the document is revised from the body, its plant kept, and answered with 200 as it is after the update; an absent id: 404 and no change; every other document is untouched |
| DiseaseController.DiseaseStore.Delete | backend/controllers/PlantManagement/diseaseController.js:102-111 | a present id: removed and answered with 200 "Disease deleted"; an absent id: 404; either way the id is not stored afterwards unless the store failed, and other documents are untouched |
| DiseaseController.CreateThenGet | backend/controllers/PlantManagement/diseaseController.js:22-33 | reading a document right after creating it answers 200 with the created document, which carries the request's fields |
| DiseaseController.DeleteThenGet | backend/controllers/PlantManagement/diseaseController.js:102-111 | after a delete, reading the same id answers 404 |
| DiseaseController.CreateThenList | backend/controllers/PlantManagement/diseaseController.js:40-48 | a plant's listing contains the document just created for it, and only documents of that plant |
| Text.Lower | frontend/src/pages/Dashboard/Farmer/LocationManagement/Location.jsx:62 | lower-casing keeps the length and lower-cases every character on its own |
| Text.LowerIdempotent | frontend/src/pages/Dashboard/Farmer/LocationManagement/Location.jsx:62 | lower-casing twice is the same as lower-casing once |
| Text.Includes | frontend/src/pages/Dashboard/Farmer/LocationManagement/Location.jsx:62 | a haystack can include only a needle no longer than itself, and always includes the empty string |
| Text.IncludesIffOccurs | frontend/src/pages/Dashboard/Farmer/LocationManagement/Location.jsx:62 | `includes` holds if and only if the needle occurs at some position of the haystack |
| Text.IncludesEmpty | frontend/src/pages/Dashboard/Farmer/LocationManagement/Location.jsx:62 | every string includes the empty string |
| Text.MatchIgnoresQueryCase | frontend/src/pages/Dashboard/Farmer/LocationManagement/Location.jsx:62 | a query and its lower-cased form match the same keys |
| ListView.Filter | frontend/src/pages/Dashboard/Farmer/LocationManagement/Location.jsx:60-63 | the filtered list is no longer than the input, and each element of it is in the input and passes the test |
| ListView.FilterCounts | frontend/src/pages/Dashboard/Farmer/LocationManagement/Location.jsx:60-63 | an element passing the test occurs as often in the result as in the input; any other element does not occur |
| ListView.FilterKeeps | frontend/src/pages/Dashboard/Admin/PlantManagement/Plant.jsx:57-60 | an element of the input that passes the test is in the result |
| ListView.FilterIsSubsequence | frontend/src/pages/Dashboard/Farmer/LocationManagement/Location.jsx:60-63 | the filtered list is an order-preserving sublist of the input |
| ListView.FilterKeepsAll | frontend/src/pages/Dashboard/Farmer/LocationManagement/Location.jsx:60-63 | a test every element passes leaves the list unchanged |
| ListView.FilterCongruent | frontend/src/pages/Dashboard/Farmer/LocationManagement/Location.jsx:60-63 | two tests that agree on every element filter a list identically |
| ListView.ResolveIndex | frontend/src/pages/Dashboard/Farmer/LocationManagement/Location.jsx:162-165 | a `slice` bound resolves into `0..length`: a negative bound counts from the end and an overshooting one is clamped |
| ListView.JsSlice | frontend/src/pages/Dashboard/Farmer/LocationManagement/Location.jsx:162-165 | `slice` returns a contiguous run of the list, starting at the resolved start index, never longer than the list |
| ListView.PageOf | frontend/src/pages/Dashboard/Farmer/LocationManagement/Location.jsx:160-165 | a page, whatever its number (zero and negative numbers included), holds at most `size` items |
| ListView.TotalPages | frontend/src/pages/Dashboard/Farmer/LocationManagement/Location.jsx:166 | the page count is the least number of pages that hold every item |
| ListView.NoPagesWhenEmpty | frontend/src/pages/Dashboard/Farmer/LocationManagement/Location.jsx:166 | an empty list has zero pages |
| ListView.PageWindow | frontend/src/pages/Dashboard/Farmer/LocationManagement/Location.jsx:160-165 | page p (from 1) is the window of the list from (p-1)·size to p·size, clamped to the list, so it holds at most `size` items |
| ListView.PageBeyondLastIsEmpty | frontend/src/pages/Dashboard/Farmer/LocationManagement/Location.jsx:160-166 | a page number beyond the page count shows nothing |
| ListView.PageBounds | frontend/src/pages/Dashboard/Farmer/LocationManagement/Location.jsx:160-166 | a page from 1 on holds at most `size` items, and one past the last page is empty |
| ListView.PagesUpToIsPrefix | frontend/src/pages/Dashboard/Farmer/LocationManagement/Location.jsx:160-165 | pages 1 to k joined in order are the list's prefix up to k·size (clamped) |
| ListView.PagesPartition | frontend/src/pages/Dashboard/Farmer/LocationManagement/Location.jsx:160-166 | pages 1 to the page count, joined in order, are exactly the list: nothing is skipped or shown twice |
| AreaSize.DigitRun | frontend/src/pages/Dashboard/Farmer/LocationManagement/Location.jsx:153 | the length of the leading run of digits never exceeds the string |
| AreaSize.DigitRunIsMaximal | frontend/src/pages/Dashboard/Farmer/LocationManagement/Location.jsx:153 | the leading run is all digits and is followed by a non-digit or the end |
| AreaSize.TokenEnd | frontend/src/pages/Dashboard/Farmer/LocationManagement/Location.jsx:153 | a match starting at a digit has positive length and stays inside the string |
| AreaSize.DigitRunOfPrefix | frontend/src/pages/Dashboard/Farmer/LocationManagement/Location.jsx:153 | the digit run of a prefix is the whole run cut to the prefix's length |
| AreaSize.TokenIsLongest | frontend/src/pages/Dashboard/Farmer/LocationManagement/Location.jsx:153 | no longer prefix than the match is a numeral: the match is greedy, and a `.` that no digit follows is not part of it |
| AreaSize.TokenIsNumeral | frontend/src/pages/Dashboard/Farmer/LocationManagement/Location.jsx:153 | each match has the shape digits, optionally followed by a point and digits |
| AreaSize.Tokens | frontend/src/pages/Dashboard/Farmer/LocationManagement/Location.jsx:153 | every match of the global scan has that numeral shape |
| AreaSize.NoTokensIffNoDigit | frontend/src/pages/Dashboard/Farmer/LocationManagement/Location.jsx:153-154 | the scan finds nothing if and only if the string has no digit |
| AreaSize.DigitsOfAppend | frontend/src/pages/Dashboard/Farmer/LocationManagement/Location.jsx:153 | the digits of a concatenation are the digits of each part, in order |
| AreaSize.TokensKeepEveryDigit | frontend/src/pages/Dashboard/Farmer/LocationManagement/Location.jsx:153 | the matches together contain every digit of the string, in order: no digit is skipped |
| AreaSize.DigitRunStopsAtNonDigit | frontend/src/pages/Dashboard/Farmer/LocationManagement/Location.jsx:153 | a digit run followed by a non-digit ends there |
| AreaSize.DigitRunOfDigits | frontend/src/pages/Dashboard/Farmer/LocationManagement/Location.jsx:153 | the leading run of an all-digit string is the whole string |
| AreaSize.NumeralOfParts | frontend/src/pages/Dashboard/Farmer/LocationManagement/Location.jsx:153 | a non-empty run of digits, optionally followed by a point and a non-empty run of digits, is a numeral |
| AreaSize.NumeralSplit | frontend/src/pages/Dashboard/Farmer/LocationManagement/Location.jsx:153 | a numeral is a non-empty digit run, then the end or a point followed only by digits |
| AreaSize.TokenEndOfNumeral | frontend/src/pages/Dashboard/Farmer/LocationManagement/Location.jsx:153 | the scan takes a whole numeral as one match when a space follows it |
| AreaSize.TokensAfterNumeral | frontend/src/pages/Dashboard/Farmer/LocationManagement/Location.jsx:153 | a numeral followed by a space is the first match, and the scan resumes after the space |
| AreaSize.TokensOfSpaced | frontend/src/pages/Dashboard/Farmer/LocationManagement/Location.jsx:153 | scanning numerals joined by spaces gives back exactly those numerals |
| AreaSize.NumeralValue | frontend/src/pages/Dashboard/Farmer/LocationManagement/Location.jsx:154 | `Number` of a numeral is a non-negative exact value |
| AreaSize.DigitsValueAppend | frontend/src/pages/Dashboard/Farmer/LocationManagement/Location.jsx:154 | appending digits to a run shifts its value one decimal place per appended digit: value(w f) = value(w)·10^|f| + value(f) |
| AreaSize.NumeralValueOfWhole | frontend/src/pages/Dashboard/Farmer/LocationManagement/Location.jsx:154 | a numeral without a point is worth the integer its digits spell, leading zeros ignored |
| AreaSize.NumeralValueAtPoint | frontend/src/pages/Dashboard/Farmer/LocationManagement/Location.jsx:154 | a numeral whose digit run stops at a point is worth the digits before it plus the digits after it over ten to their count |
| AreaSize.PointSplit | frontend/src/pages/Dashboard/Farmer/LocationManagement/Location.jsx:153 | `w.f` with digit runs `w` and `f` is a numeral whose greedy digit run is exactly `w`, followed by the point and `f` |
| AreaSize.FractionOfSum | frontend/src/pages/Dashboard/Farmer/LocationManagement/Location.jsx:154 | a whole part plus a fraction over `p` is the single fraction (whole·p + numerator) over `p` |
| AreaSize.NumeralValueParts | frontend/src/pages/Dashboard/Farmer/LocationManagement/Location.jsx:154 | `w.f` is worth the value of `w` plus the value of `f` over ten to the length of `f` |
| AreaSize.NumeralValueOfFraction | frontend/src/pages/Dashboard/Farmer/LocationManagement/Location.jsx:154 | `Number` reads a decimal positionally: `w.f` is worth the integer spelled by the digits of `w` and `f` together, over ten to the length of `f` |
| AreaSize.NumeralValueTwelveAndAHalf | frontend/src/pages/Dashboard/Farmer/LocationManagement/Location.jsx:154 | "12.5" is worth 12.5 |
| AreaSize.NumeralValueTrailingZero | frontend/src/pages/Dashboard/Farmer/LocationManagement/Location.jsx:154 | "1.50" is worth 1.5: a trailing zero in the fraction changes nothing |
| AreaSize.NumeralValueLeadingZeros | frontend/src/pages/Dashboard/Farmer/LocationManagement/Location.jsx:154 | "007" is worth 7 |
| AreaSize.ExtractNumber | frontend/src/pages/Dashboard/Farmer/LocationManagement/Location.jsx:152-155 | one number per match, each the value of its match in order; the result is empty if and only if the text has no digit |
| AreaSize.LandSize | frontend/src/pages/Dashboard/Farmer/LocationManagement/Location.jsx:349-350 | the land size is absent if and only if the area text has no digit; otherwise it is the first match's value |
| AreaSize.LandSizeExample | frontend/src/pages/Dashboard/Farmer/LocationManagement/Location.jsx:349-350 | the land size of "12.5 acres" is 12.5: the first number, read in full |
| LocationPage.Search | frontend/src/pages/Dashboard/Farmer/LocationManagement/Location.jsx:59-65 | the search result is no longer than the list, and each location in it is in the list and its lower-cased city contains the lower-cased query |
| LocationPage.SearchIsMatchingSublist | frontend/src/pages/Dashboard/Farmer/LocationManagement/Location.jsx:59-65 | the search result is an order-preserving sublist of the list; it keeps every location whose lower-cased city contains the lower-cased query, as often as it occurs, and no other location |
| LocationPage.EmptySearchKeepsAll | frontend/src/pages/Dashboard/Farmer/LocationManagement/Location.jsx:62 | an empty query keeps every location |
| LocationPage.SearchIgnoresQueryCase | frontend/src/pages/Dashboard/Farmer/LocationManagement/Location.jsx:62 | a query and its lower-cased form select the same locations |
| LocationPage.ExportRows | frontend/src/pages/Dashboard/Farmer/LocationManagement/Location.jsx:67-77 | one row per location in list order, each holding that location's eight exported columns |
| LocationPage.LocationView.constructor | frontend/src/pages/Dashboard/Farmer/LocationManagement/Location.jsx:25-36 | both lists empty, page 1, no delete pending, modal closed, no location selected |
| LocationPage.LocationView.Fetched | frontend/src/pages/Dashboard/Farmer/LocationManagement/Location.jsx:42-57 | an array response replaces both the full and the filtered list; any other response leaves both unchanged |
| LocationPage.LocationView.HandleSearch | frontend/src/pages/Dashboard/Farmer/LocationManagement/Location.jsx:59-65 | the filtered list becomes the search of the full list, an order-preserving sublist of it; the full list is unchanged |
| LocationPage.LocationView.SetCurrentPage | frontend/src/pages/Dashboard/Farmer/LocationManagement/Location.jsx:339 | the page becomes the one chosen |
| LocationPage.LocationView.CurrentLocations | frontend/src/pages/Dashboard/Farmer/LocationManagement/Location.jsx:159-165 | the shown rows are at most five, and none past the last page |
| LocationPage.LocationView.TotalPages | frontend/src/pages/Dashboard/Farmer/LocationManagement/Location.jsx:166 | the least page count at five per page that holds the filtered list |
| LocationPage.LocationView.ExcelRows | frontend/src/pages/Dashboard/Farmer/LocationManagement/Location.jsx:67-77 | the export covers the full list, not the filtered one: one row per location |
| LocationPage.LocationView.HandleEditModalOpen | frontend/src/pages/Dashboard/Farmer/LocationManagement/Location.jsx:96-99 | the chosen location becomes the selected one |
| LocationPage.LocationView.TotalLandSize | frontend/src/pages/Dashboard/Farmer/LocationManagement/Location.jsx:349-350 | the land size given to the crop panel is absent if and only if the selected area text has no digit |
| LocationPage.LocationView.HandleShowDeleteModal | frontend/src/pages/Dashboard/Farmer/LocationManagement/Location.jsx:138-141 | the location to delete is remembered and the modal opens |
| LocationPage.LocationView.HandleCloseDeleteModal | frontend/src/pages/Dashboard/Farmer/LocationManagement/Location.jsx:142-145 | the pending deletion is cleared and the modal closes |
| LocationPage.LocationView.HandleDelete | frontend/src/pages/Dashboard/Farmer/LocationManagement/Location.jsx:102-112 | a successful delete closes the modal and clears the pending id; a failed one leaves both as they were |
| PlantPage.SearchKey | frontend/src/pages/Dashboard/Admin/PlantManagement/Plant.jsx:58 | the key is the name, one space, then the date |
| PlantPage.Search | frontend/src/pages/Dashboard/Admin/PlantManagement/Plant.jsx:56-62 | the search result is no longer than the list, and each plant in it is in the list and its lower-cased "name date" key contains the lower-cased query |
| PlantPage.SearchIsMatchingSublist | frontend/src/pages/Dashboard/Admin/PlantManagement/Plant.jsx:56-62 | the search result is an order-preserving sublist; it keeps every plant whose lower-cased "name date" key contains the lower-cased query, as often as it occurs, and no other plant |
| PlantPage.EmptySearchKeepsAll | frontend/src/pages/Dashboard/Admin/PlantManagement/Plant.jsx:59 | an empty query keeps every plant |
| PlantPage.NameQueryFindsPlant | frontend/src/pages/Dashboard/Admin/PlantManagement/Plant.jsx:58-59 | searching for a plant's own name always finds that plant |
| PlantPage.ExportRows | frontend/src/pages/Dashboard/Admin/PlantManagement/Plant.jsx:64-73 | one row per plant in list order, with its seven exported columns; the fertilizer list is passed on as it is |
| PlantPage.PlantView.constructor | frontend/src/pages/Dashboard/Admin/PlantManagement/Plant.jsx:22-33 | both lists empty, page 1, no delete pending, modal closed |
| PlantPage.PlantView.Fetched | frontend/src/pages/Dashboard/Admin/PlantManagement/Plant.jsx:39-54 | an array response replaces both lists; any other response leaves both unchanged |
| PlantPage.PlantView.HandleSearch | frontend/src/pages/Dashboard/Admin/PlantManagement/Plant.jsx:56-62 | the filtered list becomes the search of the full list, an order-preserving sublist of it |
| PlantPage.PlantView.SetCurrentPage | frontend/src/pages/Dashboard/Admin/PlantManagement/Plant.jsx:342 | the page becomes the one chosen |
| PlantPage.PlantView.CurrentPlants | frontend/src/pages/Dashboard/Admin/PlantManagement/Plant.jsx:146-152 | the shown rows are at most two, and none past the last page |
| PlantPage.PlantView.TotalPages | frontend/src/pages/Dashboard/Admin/PlantManagement/Plant.jsx:153 | the least page count at two per page that holds the filtered list |
| PlantPage.PlantView.ExcelRows | frontend/src/pages/Dashboard/Admin/PlantManagement/Plant.jsx:64-73 | the export covers the full list, one row per plant |
| PlantPage.PlantView.HandleShowDeleteModal | frontend/src/pages/Dashboard/Admin/PlantManagement/Plant.jsx:133-136 | the plant to delete is remembered and the modal opens |
| PlantPage.PlantView.HandleCloseDeleteModal | frontend/src/pages/Dashboard/Admin/PlantManagement/Plant.jsx:137-140 | the pending deletion is cleared and the modal closes |
| PlantPage.PlantView.HandleDelete | frontend/src/pages/Dashboard/Admin/PlantManagement/Plant.jsx:97-107 | a successful delete closes the modal and clears the pending id; a failed one leaves both as they were |
| PlantSlider.NextIndex | frontend/src/components/Sliders/PlantSlider.jsx:30 | the next index stays within the list |
| PlantSlider.PrevIndex | frontend/src/components/Sliders/PlantSlider.jsx:34-36 | the previous index stays within the list |
| PlantSlider.WrapAround | frontend/src/components/Sliders/PlantSlider.jsx:29-37 | going back from the first plant shows the last; going on from the last shows the first |
| PlantSlider.NextPrevInverse | frontend/src/components/Sliders/PlantSlider.jsx:29-37 | next then previous, or previous then next, returns to the same plant |
| PlantSlider.Advance | frontend/src/components/Sliders/PlantSlider.jsx:30 | any number of "next" clicks keeps the index within the list |
| PlantSlider.AdvanceLaps | frontend/src/components/Sliders/PlantSlider.jsx:30 | k clicks from i land at i+k less a whole number of laps |
| PlantSlider.AdvanceIsOffset | frontend/src/components/Sliders/PlantSlider.jsx:30 | k clicks from i land at (i+k) mod n |
| PlantSlider.FullCircle | frontend/src/components/Sliders/PlantSlider.jsx:30 | as many clicks as there are plants return to the starting plant |
| PlantSlider.Slider.constructor | frontend/src/components/Sliders/PlantSlider.jsx:6-7 | no plants, index 0 |
| PlantSlider.Slider.Fetched | frontend/src/components/Sliders/PlantSlider.jsx:10-21 | the fetched plants replace the empty list and the index stays 0 |
| PlantSlider.Slider.CurrentPlant | frontend/src/components/Sliders/PlantSlider.jsx:23-27 | with plants loaded, the shown plant is one of them |
| PlantSlider.Slider.HandleNext | frontend/src/components/Sliders/PlantSlider.jsx:29-31 | the index moves to the next one, wrapping around, and stays within the list |
| PlantSlider.Slider.HandlePrev | frontend/src/components/Sliders/PlantSlider.jsx:33-37 | the index moves to the previous one, wrapping around, and stays within the list |
| PlantForm.Set | frontend/src/pages/Dashboard/Admin/PlantManagement/PlantForm.jsx:59-65 | the named field takes the value; every other field, the fertilizer list and the id are unchanged |
| PlantForm.SetToSameIsIdentity | frontend/src/pages/Dashboard/Admin/PlantManagement/PlantForm.jsx:59-65 | writing a field's own value back leaves the form unchanged |
| PlantForm.Blank | frontend/src/pages/Dashboard/Admin/PlantManagement/PlantForm.jsx:8-17 | an empty form: every text field empty, no fertilizers, no id |
| PlantForm.BlankIsNotSubmittable | frontend/src/pages/Dashboard/Admin/PlantManagement/PlantForm.jsx:118 | a blank form fails the browser's required-field check, so it cannot be submitted |
| PlantForm.RequiredFilledAfterSet | frontend/src/pages/Dashboard/Admin/PlantManagement/PlantForm.jsx:59-65 | editing a required field leaves the form submittable if and only if the new value is non-empty and the other required fields are filled; writing the image URL does not change whether it is submittable |
| PlantForm.FormState.constructor | frontend/src/pages/Dashboard/Admin/PlantManagement/PlantForm.jsx:8-22 | the form starts from the given plant, or blank when there is none, and not uploading |
| PlantForm.FormState.LoadInitialData | frontend/src/pages/Dashboard/Admin/PlantManagement/PlantForm.jsx:53-57 | a plant given to the form replaces its contents |
| PlantForm.FormState.HandleChange | frontend/src/pages/Dashboard/Admin/PlantManagement/PlantForm.jsx:59-65 | the edited field takes the value; the other fields and the fertilizers are unchanged |
| PlantForm.FormState.HandleFertilizersChange | frontend/src/pages/Dashboard/Admin/PlantManagement/PlantForm.jsx:67-74 | the fertilizer at the index takes the value; the others, the length and all other fields are unchanged |
| PlantForm.FormState.HandleAddFertilizer | frontend/src/pages/Dashboard/Admin/PlantManagement/PlantForm.jsx:76-81 | an empty fertilizer is appended after the existing ones, which stay as they were |
| PlantForm.FormState.StartUpload | frontend/src/pages/Dashboard/Admin/PlantManagement/PlantForm.jsx:24-28 | an upload is in progress, so submission is disabled |
| PlantForm.FormState.UploadFailed | frontend/src/pages/Dashboard/Admin/PlantManagement/PlantForm.jsx:37-40 | a failed upload ends the upload and leaves the form unchanged |
| PlantForm.FormState.UploadComplete | frontend/src/pages/Dashboard/Admin/PlantManagement/PlantForm.jsx:41-49 | a finished upload stores its download URL as the image URL, changes no other field and ends the upload |
| PlantForm.FormState.Submit | frontend/src/pages/Dashboard/Admin/PlantManagement/PlantForm.jsx:83-86 | submission is possible only when no upload is in progress (line 232) and every required input is non-empty (lines 118-202); it hands over the form's current contents, every required field filled |

## Left out

- Transport and rendering are out: the HTTP routing, axios requests, toasts, modals, the spinner and all JSX layout. Request outcomes are parameters (`Fetched`'s response, `HandleDelete`'s `succeeded`, the store's `fault`).
- Id generation and casting are not modelled. The model uses ids handed out in increasing order. A malformed id that makes the store throw a cast error reaches the 500 path; that is one `fault` value, not a separate case.
- Request fields that arrive as non-strings or as `undefined` are not modelled: the text fields of a disease body are strings. Only `fertilizers` distinguishes `undefined`, because the normalization turns it into `[undefined]`.
- Schema validation done by the persistence library is not part of this model. Its rejections are `fault` values.
- DiseaseController.DiseaseStore.FindByPlant: the store's `find` promises no order; the model returns ascending id order, which is one order it may return.
- Text.Lower: lower-cases ASCII letters only; the full Unicode case mapping of `toLowerCase` is not modelled.
- AreaSize.NumeralValue: the exact rational value of the numeral. `Number` returns the nearest IEEE double instead, which differs for most fractions (0.1, 2.3), for integers above 2^53, and is Infinity for numerals beyond the double range. Every value lemma in `AreaSize` (`NumeralValueOfFraction` and the examples among them) is about the exact value.
- Template-string conversion of non-string values (a missing city or date rendering as "undefined") is not modelled; every field is a string.
- The spreadsheet file writing is out, including how the spreadsheet library renders a fertilizer list in one cell; only the row projection is modelled.
- The `Crop` component that receives the land size is not part of this model. Neither are the cost calculator page, the disease pages, user management, the router and the home page.
- PlantSlider.Slider.Fetched: models only the fetch on mount (the list is still empty). A second fetch replacing a non-empty list without resetting the index is not modelled. A failed fetch, which only logs, leaves the state unchanged and is left out.
- PlantPage.PlantView.HandleDelete and LocationPage.LocationView.HandleDelete: the list reload after a successful delete is a separate `Fetched` call.
- PlantForm.FormState.Submit: the required-field gate is only "non-empty". The browser also clears a date input whose text is not a valid date, and that sanitization is not modelled.
- PlantForm.FormState.StartUpload: the upload itself, its progress percentage and the storage service are out; only the uploading flag and the completion's URL are modelled.
- React's asynchronous state batching is not modelled. Each handler runs to completion on the state it reads.
