# Vehicle and license records: a verified model

The application keeps two collections for a transport office: vehicles
(registration number, owner, and three expiry groups: brake insurance,
permit and tax, plus fitness and PUC dates) and driving licenses (holder,
phone, date of birth, license number). An Express backend stores them
through Mongoose. A React dashboard lists, filters, adds, edits and deletes
records.

This project models the logic of both halves in Dafny:

- **Vehicle store** (`VehicleModel`, `VehicleRoutes`).
  - A `VehicleStore` class holds a map from id to record. Its invariant is
    a unique `vehicleNo`. The number is required on create only: an update
    may store an empty one (`UpdateStoresGivenNumber`).
  - Create writes only when the number is free, fills in default groups,
    and always replies 201.
  - Update rebuilds every group and date from the body.
  - Delete always reports success.
  - The list is sorted by `updatedAt`, newest first.
- **License store** (`LicenseModel`, `LicenseRoutes`).
  - A `LicenseStore` class with a unique `licenseNumber`. Its four fields
    are required on create only: an update may empty them
    (`UpdateSkipsRequired`).
  - Create replies 201 with the record, or 500 with nothing stored.
  - Update merges only the fields the body carries.
  - Delete never reports a missing license.
  - The list is rendered through the fail-soft `formatSafeDate`.
- **Date strings** (`Dates`, on top of `Text`).
  - `YYYY-MM-DD` is turned into `DD/MM/YYYY`.
  - The fixed-width `DD/MM/YYYY` branch of `parseDateForInput` is modelled.
  - Empty and missing values are handled fail-soft.
  - Dates are `(year, month, day)` triples with a Gregorian validity
    predicate. Strings are `seq<char>`, and JavaScript's `split`, `join`,
    `toLowerCase` and `includes` are written out.
- **Client views** (`VehicleList`, `LicenseDetails`, `VehicleForm`,
  `LicenseForm`, `Dashboard`).
  - The search filters.
  - The edit states and update payloads.
  - The add-form payloads.
  - The dashboard's replace-by-id and remove-by-id list transitions.

Requests are sequential. Every operation that changes a collection is a
store method, and its `ensures` ties the new map to a specification
function of the old map (`CreateVehicle`, `UpdateVehicle`,
`DeleteVehicle`, `CreateLicense`, `UpdateLicense`, `DeleteLicense`). The
lemmas prove the properties of those functions.

### Inputs that become parameters

Several things the model cannot compute are taken as parameters:

- **`parse: DateParser`** is the host's `new Date(string)`: an optional
  calendar day. The model does not fix it. Only the date-only read-back of
  `YYYY-MM-DD` inside `parseDateForInput` is concrete (`ParseIsoDate`).
- **`now: Instant`** is the clock the store reads for its timestamps.
- **`calendar`** maps a timestamp to its calendar day, the part of
  `toLocaleDateString('en-GB')` that depends on the host's time zone. The
  `DD/MM/YYYY` rendering of that day is concrete (`FormatDisplay`).
- **Ids** come from a counter in each store.

### Replies the code gives

- `POST /vehicles` replies only `{message}`, not the created record.
- `PUT /vehicles/:id` replies with the bare updated record.
- License delete is idempotent: it never replies 404.

### Mongoose behaviour assumed

- `save` runs the required, cast and unique checks. An empty string does
  not satisfy `required`.
- `findByIdAndUpdate` casts the update first, so a bad date is a 500 even
  for an unknown id. It then looks up the id (404), then applies the unique
  index (500).
- `findByIdAndUpdate` does not run the required checks, and it drops keys
  whose value is `undefined`.
- The Date cast turns `""` into `null`. The Number cast turns `""` and
  `null` into `null` and rejects a non-numeral.

## Model

| member | source | states |
|---|---|---|
| Dates.ParseIsoDate | frontend/src/components/VehicleList.jsx:20 | reading `YYYY-MM-DD` succeeds only on that exact shape, and the day read prints back as the same string |
| Dates.IsoRoundTrip | frontend/src/components/VehicleList.jsx:20 | every valid day's `YYYY-MM-DD` reads back as that day |
| Dates.ParseDateForInput | frontend/src/components/VehicleList.jsx:13-27 | an empty or missing value gives `""`; every result is `""` or `YYYY-MM-DD`-shaped |
| Dates.ParseOfDisplay | frontend/src/components/VehicleList.jsx:18-20 | `ParseDate`, the value `parseDateForInput` converts, reads a valid day's `DD/MM/YYYY` as that day (the pieces taken apart with `split` and `Part`), so the input gets its `YYYY-MM-DD`, whatever the host parser does |
| Dates.DisplayShapeIgnoresHost | frontend/src/components/VehicleList.jsx:18-24 | on a string matching the `DD/MM/YYYY` pattern, `ParseDate` does not depend on the host parser |
| Dates.FormatIso | frontend/src/components/VehicleList.jsx:26 | `toISOString().split("T")[0]` of a day has the `dddd-dd-dd` shape; `IsoRoundTrip` reads it back as the day |
| Dates.FormatDisplay | backend/routes/licenses.js:29 | the `en-GB` rendering of a day matches `^\d{2}\/\d{2}\/\d{4}$`; `ParseOfDisplay` reads it back as the day |
| Dates.FormatDateForBackend | frontend/src/components/VehicleList.jsx:29-33 | the result is null exactly when the input is empty or missing |
| Dates.ForBackendOfIso | frontend/src/components/LicenseForm.jsx:13-17 | a day's `YYYY-MM-DD` is turned into the same day's `DD/MM/YYYY` |
| Dates.InputBackendRoundTrip | frontend/src/components/VehicleList.jsx:13-33 | for a valid `YYYY-MM-DD` string `s`, `parseDateForInput(formatDateForBackend(s)) == s` |
| Dates.BackendFormatReversible | frontend/src/components/LicenseForm.jsx:15-16 | for any input of three `-` pieces free of `/`: split the output on `/`, reverse it and join with `-`, and the input comes back |
| Dates.BackendOfParsed | frontend/src/components/VehicleList.jsx:122-129 | converting what `parseDateForInput` produced gives the parsed day's `DD/MM/YYYY`, or null when nothing was parsed |
| Dates.FormatSafeDate | backend/routes/licenses.js:25-30 | null exactly for a missing or invalid date; otherwise a `DD/MM/YYYY`-shaped string; defined on every input |
| Dates.SafeDateReadBack | backend/routes/licenses.js:25-30 | what the license list shows for a day is read back as the same day by the edit-form parser |
| Dates.CoerceDate | backend/routes/vehicles.js:32-33 | a falsy date becomes null; a non-empty one becomes the host's reading of it, and the cast fails, at that field's path, exactly when the host cannot read it |
| Text.Split | frontend/src/components/VehicleList.jsx:19 | `split` yields at least one piece and no piece contains the separator |
| Text.JoinSplit | frontend/src/components/VehicleList.jsx:19 | joining (`Join`, JavaScript's `join`) the pieces of a split with the same separator restores the string |
| Text.SplitJoin | frontend/src/components/LicenseForm.jsx:15-16 | splitting a join of separator-free pieces restores the pieces |
| Text.FirstPieceIsPrefix | frontend/src/components/LicenseDetails.jsx:71 | `split(sep)[0]` is the longest prefix before the first separator, or the whole string when there is none |
| Text.ParseDecimal | frontend/src/components/VehicleForm.jsx:47 | succeeds exactly on a non-empty string of digits; its value is below `10^width` and, zero-padded to the numeral's width, reproduces the numeral, so it is the numeral's value |
| Text.DigitsOfPad | frontend/src/components/VehicleList.jsx:20 | a number below `10^w`, zero-padded to width `w`, reads back as itself |
| Text.PadOfDigits | frontend/src/components/VehicleList.jsx:18 | a digit string is the zero-padded rendering of its value |
| Text.ToLower | frontend/src/components/VehicleList.jsx:37-39 | the length is kept, each letter `A`-`Z` becomes its lower-case partner, and every other character is unchanged |
| Text.ToLowerIdempotent | frontend/src/components/VehicleList.jsx:37-39 | lowering twice is lowering once |
| Text.ContainsIffOccurs | frontend/src/components/VehicleList.jsx:37-39 | `includes` holds exactly when the text occurs at some index |
| Text.ContainsEmpty | frontend/src/components/LicenseDetails.jsx:15-21 | every string includes the empty search text |
| Seqs.Filter | frontend/src/components/VehicleList.jsx:36 | the result is an order-preserving subsequence holding every passing element as often as the input does, and no other |
| Seqs.FilterKeepsAll | frontend/src/components/VehicleList.jsx:36 | when every element passes, the filter returns its input |
| Seqs.FilterIdempotent | frontend/src/pages/Dashboard.jsx:57 | filtering twice by one test is filtering once |
| Listing.InsertDescSorted | backend/routes/vehicles.js:10 | inserting into a listing sorted newest first keeps it sorted |
| Listing.InsertDescNew | backend/routes/vehicles.js:10 | inserting a document not yet listed keeps every document exactly once |
| Listing.SortByKeyDesc | backend/routes/vehicles.js:10 | the listing holds each document of the collection exactly once, sorted by the key in descending order |
| VehicleModel.NewVehicleDoc | backend/routes/vehicles.js:27-34 | the body is accepted exactly when `vehicleNo` is present and non-empty and every date and the amount cast; absent groups become `{insuranceNo:'',expiryDate:null}`, `{permitNo:'',expiryDate:null}`, `{amount:null,expiryDate:null}`; given groups keep their numbers; each date and the amount is its cast value (falsy dates null); other fields pass through |
| VehicleModel.CastAmount | backend/models/Vehicle.js:18 | the Number cast: null and `""` give null, a number itself, a numeral its value; it fails exactly for a non-empty string that is no numeral |
| VehicleModel.CastInsurance | backend/models/Vehicle.js:9-12 | the group keeps its number, its date is cast, and it fails exactly when the date does |
| VehicleModel.CastPermit | backend/models/Vehicle.js:13-16 | the group keeps its number, its date is cast, and it fails exactly when the date does |
| VehicleModel.CastTax | backend/models/Vehicle.js:17-20 | the amount and the date are cast, and the group fails exactly when one of them does |
| VehicleModel.UpdateAmount | backend/routes/vehicles.js:82 | a falsy amount (`0`, `""`, null) becomes null; a non-zero number is kept; a non-empty string is accepted exactly when it is a numeral, and then as its value |
| VehicleModel.ZeroAmounts | backend/routes/vehicles.js:82 | the number `0` and `""` are cleared, while the text `"0"` is kept as 0 |
| VehicleModel.OrEmpty | backend/routes/vehicles.js:74 | `x \|\| ''` gives a present string (`''` included) as it is and turns a missing one into `''` |
| VehicleModel.VehicleUpdateData | backend/routes/vehicles.js:68-88 | fails exactly when one of the five dates or the amount does not cast; every group is rebuilt from the body alone; absent numbers become `''`; each date is its cast value (absent or falsy ones null); the amount is `UpdateAmount` of the body's; top-level strings pass through |
| VehicleModel.ApplyVehicleUpdate | backend/routes/vehicles.js:90-94 | groups and dates are overwritten whatever was stored; each top-level string (`vehicleNo`, `ownerName`, `address`, `phone`, `fitnessNumber`) takes the update's value when given and keeps its stored value when the update leaves it out |
| VehicleModel.UpdateForgetsGroups | backend/routes/vehicles.js:73-84 | two documents updated with one body end with identical groups and dates: nothing stored before survives |
| VehicleRoutes.VehicleStore.FindByVehicleNo | backend/routes/vehicles.js:25 | finds a stored vehicle with the number exactly when one exists |
| VehicleRoutes.VehicleStore.List | backend/routes/vehicles.js:8-16 | one entry per stored vehicle, none repeated, ordered by `updatedAt` descending |
| VehicleRoutes.VehicleStore.Create | backend/routes/vehicles.js:20-46 | replies 201 "Vehicle added successfully!" on every path; the new state is `CreateVehicle` of the old one (the route's effect: nothing when the number is taken or the body is rejected, else the new record under the next id); the invariant is kept |
| VehicleRoutes.VehicleStore.Update | backend/routes/vehicles.js:53-105 | the reply and new state are `UpdateVehicle` of the old state (casts first, then the id lookup, then the unique index, then the applied update); the invariant is kept |
| VehicleRoutes.VehicleStore.Delete | backend/routes/vehicles.js:108-116 | replies 200 "Vehicle deleted"; the new state is `DeleteVehicle` of the old one, the old map without the id |
| VehicleRoutes.CreatePreservesInvariant | backend/models/Vehicle.js:4 | create keeps records under their ids, numbers unique, and ids below the next one |
| VehicleRoutes.CreateOnFreeNumber | backend/routes/vehicles.js:25-37 | a free number and an accepted body add exactly one record, under a fresh id, with `createdAt == updatedAt == now`; other records are untouched |
| VehicleRoutes.CreateOnTakenNumber | backend/routes/vehicles.js:25-26 | a number already stored leaves the store unchanged |
| VehicleRoutes.CreateRejected | backend/routes/vehicles.js:41-44 | a body the store rejects leaves it unchanged |
| VehicleRoutes.CreateTwiceIsOnce | backend/routes/vehicles.js:25-37 | sending the same create twice stores what sending it once stores |
| VehicleRoutes.CreateLeavesOneHolder | backend/models/Vehicle.js:4 | after a create of a stored or accepted number, exactly one stored vehicle holds it |
| VehicleRoutes.UpdatePreservesInvariant | backend/models/Vehicle.js:4 | update keeps the store's invariant, including unique numbers |
| VehicleRoutes.UpdateStoresGivenNumber | backend/routes/vehicles.js:68-94 | an update stores the body's number, even an empty one, when no other vehicle holds it: `required` is not checked on update |
| VehicleRoutes.UpdateUnknownId | backend/routes/vehicles.js:96-98 | an unknown id changes nothing and gets 404, or 500 when the body's casts fail |
| VehicleRoutes.UpdateStamps | backend/models/Vehicle.js:26 | a successful update keeps the id and `createdAt`, sets `updatedAt` to now, and changes no other record |
| VehicleRoutes.DeleteProperties | backend/routes/vehicles.js:110-111 | afterwards no record has the id and the others are unchanged; a missing id is a no-op; deleting twice is deleting once; the invariant is kept |
| LicenseModel.RequiredString | backend/models/License.js:4-7 | a required string passes exactly when present and non-empty, as given, and otherwise fails at its path |
| LicenseModel.NewLicenseDoc | backend/routes/licenses.js:51-60 | a document is built exactly when all four fields are present and non-empty and `dob` reads as a date, and it holds exactly those four values |
| LicenseModel.LicenseUpdateData | backend/routes/licenses.js:71-77 | only a `dob` that is no date fails; the other fields pass through as given; an absent `dob` is left alone |
| LicenseModel.MergeLicense | backend/routes/licenses.js:73-77 | each field present in the update replaces the stored one; absent fields keep their stored value |
| LicenseModel.MergeProperties | backend/routes/licenses.js:71-77 | an empty update changes nothing, and applying an update twice is applying it once |
| LicenseModel.PhoneOnlyUpdate | backend/routes/licenses.js:71-77 | a body with only `phone` changes only the phone |
| LicenseModel.ViewLicense | backend/routes/licenses.js:32-37 | the id, holder, phone and number are copied; `dob` is null exactly when none is stored, and otherwise `DD/MM/YYYY`; the timestamps are shown as the `DD/MM/YYYY` of their calendar day |
| LicenseModel.ViewDobReadBack | backend/routes/licenses.js:34 | the listed `dob` reads back as the stored day in the edit form's parser |
| LicenseRoutes.LicenseStore.FindOtherByNumber | backend/models/License.js:7 | finds another license with the number exactly when one exists |
| LicenseRoutes.ViewAll | backend/routes/licenses.js:32-37 | the `map` over the sorted records: one view per record, in the same order, each `ViewLicense` of it |
| LicenseRoutes.LicenseStore.List | backend/routes/licenses.js:20-44 | one view per stored license, each the formatted view of its record, ids distinct, ordered by `updatedAt` descending |
| LicenseRoutes.LicenseStore.Create | backend/routes/licenses.js:49-66 | the reply and new state are `CreateLicense` of the old state (the built document, unless it fails or its number is taken, stored under the next id and replied with 201); the invariant is kept |
| LicenseRoutes.LicenseStore.Update | backend/routes/licenses.js:69-88 | the reply and new state are `UpdateLicense` of the old state (casts, id lookup, unique index, merge); the invariant is kept |
| LicenseRoutes.LicenseStore.Delete | backend/routes/licenses.js:91-99 | replies 200 "License deleted" whether or not the id was stored; the new state is `DeleteLicense` of the old one, the old map without the id |
| LicenseRoutes.CreatePreservesInvariant | backend/models/License.js:7 | create keeps records under their ids, license numbers unique, and ids below the next one |
| LicenseRoutes.CreateOutcomes | backend/routes/licenses.js:60-65 | 500 exactly when nothing is stored; 201 adds exactly one record, built from the four body fields, with both timestamps equal to now |
| LicenseRoutes.CreateNeedsAllFields | backend/models/License.js:4-7 | a license is stored only when all four fields are present and non-empty and `dob` is a date |
| LicenseRoutes.DuplicateNumberRejected | backend/models/License.js:7 | a `licenseNumber` already stored makes the create fail with the store unchanged |
| LicenseRoutes.UpdatePreservesInvariant | backend/models/License.js:7 | update keeps the invariant, including unique license numbers |
| LicenseRoutes.UpdateOnlyGivenFields | backend/routes/licenses.js:71-83 | only the fields present in the body change; `createdAt` stays, `updatedAt` becomes now; no other record changes |
| LicenseRoutes.UpdateSkipsRequired | backend/routes/licenses.js:71-83 | an update with an empty holder name and an empty `dob` stores both: the required checks do not run on update |
| LicenseRoutes.UpdateUnknownId | backend/routes/licenses.js:79-81 | an unknown id changes nothing and gets 404 when the body casts |
| LicenseRoutes.DeleteProperties | backend/routes/licenses.js:93-94 | afterwards the id is absent and the others are unchanged; a missing id is a no-op; deleting twice is deleting once; the invariant is kept |
| VehicleList.CategoryNamed | frontend/src/components/VehicleList.jsx:60-68 | each of the five category names selects its own date, and no other name is recognised |
| VehicleList.FilterVehicles | frontend/src/components/VehicleList.jsx:36-69 | an order-preserving subsequence of the rows, holding every passing row as often as the input does, and no other |
| VehicleList.PassesNeedsNumber | frontend/src/components/VehicleList.jsx:37-40 | `Passes`, the filter's predicate (built from `NumberMatches`, `CategoryMatches` and `CategoryDate`), holds only for a row whose number contains the lower-cased search text |
| VehicleList.SearchIgnoresCase | frontend/src/components/VehicleList.jsx:37-39 | lower-casing the search text first changes nothing |
| VehicleList.SearchCaseInsensitive | frontend/src/components/VehicleList.jsx:37-39 | two search texts that lower-case alike match the same rows |
| VehicleList.UpperNumberFoundByLowerSearch | frontend/src/components/VehicleList.jsx:37-39 | an upper-case number such as `MH12AB` is found by the lower-case search `mh12` |
| VehicleList.EmptyDateTestsNumberOnly | frontend/src/components/VehicleList.jsx:41 | with an empty date only the number test applies |
| VehicleList.EmptySearchShowsNumbered | frontend/src/components/VehicleList.jsx:36-41 | with both searches empty, exactly the rows that have a number are shown |
| VehicleList.AllIsAnyCategory | frontend/src/components/VehicleList.jsx:60-61 | category `"all"` passes a row exactly when the number matches and some category's date matches |
| VehicleList.UnknownCategoryHidesAll | frontend/src/components/VehicleList.jsx:68 | an unrecognised category excludes every row once a date is searched |
| VehicleList.MissingDateNeverMatches | frontend/src/components/VehicleList.jsx:45-58 | a row without the category's date never matches that category |
| VehicleList.SearchFindsDisplayedDay | frontend/src/components/VehicleList.jsx:45-47 | a date held as `DD/MM/YYYY` matches a search for its day |
| VehicleList.StartEdit | frontend/src/components/VehicleList.jsx:114-131 | the top-level texts are copied; the three numbers are `x \|\| ''`; every date goes through `parseDateForInput`; a truthy amount is copied and a falsy one becomes `''` |
| VehicleList.UpdatePayload | frontend/src/components/VehicleList.jsx:72-93 | all three groups are sent with their numbers and amount from the edit state; each of the five dates is `formatDateForBackend` of its input, so null exactly when the input is empty and otherwise its pieces reversed around `/` |
| VehicleList.UntouchedEditDates | frontend/src/components/VehicleList.jsx:72-131 | saving an untouched edit sends each date as the `DD/MM/YYYY` of the day read from the row, or null |
| VehicleList.UntouchedEditAmount | frontend/src/components/VehicleList.jsx:125 | saving an untouched edit keeps a non-zero amount and clears a zero one |
| VehicleList.EditedDayReachesStore | frontend/src/components/VehicleList.jsx:80 | a day chosen in a date input is sent as its `DD/MM/YYYY`, and the store keeps the host's reading of that string, or fails when the host cannot read it |
| LicenseDetails.RowOfView | frontend/src/pages/Dashboard.jsx:33-36 | the row the client holds for a listed license keeps its id, number, name and `dob` |
| LicenseDetails.FilterLicenses | frontend/src/components/LicenseDetails.jsx:14-24 | an order-preserving subsequence holding every passing row as often as the input does, and no other |
| LicenseDetails.LicensePassesIff | frontend/src/components/LicenseDetails.jsx:14-24 | `LicensePasses`, the filter's predicate (two `FieldMatches` tests), keeps a row exactly when both lower-cased texts occur in its lower-cased number and name; a row missing either is never kept |
| LicenseDetails.EmptySearchKeepsComplete | frontend/src/components/LicenseDetails.jsx:15-23 | with empty searches, exactly the rows having both fields are kept |
| LicenseDetails.ListedLicensesShown | frontend/src/components/LicenseDetails.jsx:14-24 | every license the list endpoint delivers is shown before any search |
| LicenseDetails.EditDob | frontend/src/components/LicenseDetails.jsx:71 | the edit dob is missing exactly when the stored one is |
| LicenseDetails.EditDobIsPrefix | frontend/src/components/LicenseDetails.jsx:71 | the edit dob is the prefix before the first `T`, or the whole text when there is none |
| LicenseDetails.EditDobOfTimestamp | frontend/src/components/LicenseDetails.jsx:69-71 | an ISO timestamp gives its day's `YYYY-MM-DD` |
| LicenseDetails.EditDobOfListed | frontend/src/components/LicenseDetails.jsx:71 | the `DD/MM/YYYY` the list delivers reaches the edit form unchanged, not as `YYYY-MM-DD` |
| LicenseDetails.StartEdit | frontend/src/components/LicenseDetails.jsx:63-73 | number, name and phone are copied; the dob is cut at `T` |
| LicenseDetails.UpdatePayload | frontend/src/components/LicenseDetails.jsx:28-35 | exactly the four license fields, taken from the edit state |
| LicenseDetails.UntouchedEditOfListed | frontend/src/components/LicenseDetails.jsx:28-73 | saving an untouched edit of a listed license sends its texts back unchanged; the update succeeds exactly when the host reads its `DD/MM/YYYY` dob |
| LicenseForm.LicensePayload | frontend/src/components/LicenseForm.jsx:22-27 | holder, phone and number pass through; `dob` is formatted, and is null exactly when empty |
| LicenseForm.PayloadDobOfDay | frontend/src/components/LicenseForm.jsx:13-17 | a picked day is sent as its `DD/MM/YYYY`, which splits back into the input |
| LicenseForm.EmptyDobRejected | frontend/src/components/LicenseForm.jsx:14 | an empty date input sends null, and the store rejects the license |
| LicenseForm.FilledFormStored | frontend/src/components/LicenseForm.jsx:22-27 | a filled-in form is stored exactly when the host reads the `DD/MM/YYYY` it is sent, and then with the texts as typed |
| VehicleForm.FormDate | frontend/src/components/VehicleForm.jsx:9-13 | null exactly for an empty or unreadable input, otherwise the ISO timestamp of the day read; defined on every input |
| VehicleForm.FormAmount | frontend/src/components/VehicleForm.jsx:47 | an empty amount is null; a numeral becomes its number; anything else is sent as null |
| VehicleForm.VehiclePayload | frontend/src/components/VehicleForm.jsx:33-53 | the text fields are sent as typed; all three groups are always present, each with its number and `expiryDate` |
| VehicleForm.FormDateStored | frontend/src/components/VehicleForm.jsx:9-13 | when the host reads back its own timestamps, the store keeps the day read from the input, or null for an empty one |
| VehicleForm.FormPayloadAccepted | frontend/src/components/VehicleForm.jsx:33-53 | a form with a number is accepted by the store, keeping the texts, the days read and the numeral amount |
| Dashboard.ReplaceById | frontend/src/pages/Dashboard.jsx:46 | the length and order are kept; every element with the id becomes the returned record; all others are unchanged |
| Dashboard.RemoveById | frontend/src/pages/Dashboard.jsx:57 | an order-preserving subsequence with no element of that id, keeping every other element as often as the input has it |
| Dashboard.HandleUpdate | frontend/src/pages/Dashboard.jsx:43-52 | on success the list is replaced by id and nothing is thrown; on failure the list is unchanged and the error is re-thrown (same for licenses, lines 66-75) |
| Dashboard.HandleDelete | frontend/src/pages/Dashboard.jsx:54-63 | on success the id is removed; on failure the list is unchanged and the error is re-thrown (same for licenses, lines 77-86) |
| Dashboard.HandleFetch | frontend/src/pages/Dashboard.jsx:24-40 | a failed fetch leaves the list unchanged; a successful one sets it to the data |
| Dashboard.ReplaceAbsent | frontend/src/pages/Dashboard.jsx:46 | replacing an id no row has changes nothing |
| Dashboard.ReplaceKeepsIds | frontend/src/pages/Dashboard.jsx:69 | a replacement carrying its id keeps the sequence of ids, and replacing twice is replacing once |
| Dashboard.RemoveAbsent | frontend/src/pages/Dashboard.jsx:57 | removing an id no row has changes nothing |
| Dashboard.RemoveIdempotent | frontend/src/pages/Dashboard.jsx:80 | removing twice is removing once |
| Dashboard.RemoveAfterReplace | frontend/src/pages/Dashboard.jsx:46-57 | a delete after an update of the same row leaves what the delete alone leaves |

## Left out

- Transport glue is left out: Express routing, the `auth` middleware, CORS, the database connection, and the login and JWT code. The handlers are modelled as operations on in-memory maps. Statuses are modelled only as the outcome kinds shown.
- Requests are sequential. The race between the `findOne` check and the `save` in `POST /vehicles` is not modelled.
- Attachments and PDFs are not modelled, because no code shown implements them.
- How axios encodes the add-vehicle body under its multipart header is not modelled. The body is taken as the JSON object the form builds.
- The host's generic `new Date(...)` parse, time zones, time of day, `toISOString` and `toLocaleDateString` are parameters (`parse`, `calendar`), not definitions. Years outside 0-9999 are not dates here.
- Dates.ParseIsoDate: reads an ISO date-only string strictly: a day the month does not have is an Invalid Date. Hosts differ on this.
- VehicleForm.FormDate: a host reading of a non-ISO string keeps only its calendar day, so a time of day is lost.
- Text.ParseDecimal: `Number(...)` is modelled for plain decimal digit strings only. Signs, decimals, exponents, hexadecimal and surrounding whitespace count as `NaN` here, and amounts are integers.
- Text.ToLower: lower-cases ASCII letters only, not the rest of Unicode.
- Dates.FormatDisplay: pads the year to four digits. The `en-GB` pattern prints a year below 1000 with fewer digits, so listed dates of such years are not rendered as the host renders them.
- A license body carries only the four schema fields. Other keys, which Mongoose's strict mode drops, are not modelled. Reply bodies are modelled only as outcome kinds and the fixed success messages; error messages are not.
- JSON `null` and an absent field are one value (`None`). A body field set to `null` in an update is treated as absent.
- Ids are numbers from a per-store counter. A malformed id string, which Mongoose rejects with a cast error (500), is not modelled.
- `findOne({ vehicleNo: undefined })` when the create body has no number is not modelled. The model skips the lookup, and the save then fails on the required field. The reply is 201 either way.
- The order of records with equal `updatedAt` is whatever the sort produces. Neither the source nor the model fixes it.
- `isExpiredToday` is left out: it reads the current clock. React state, `handleChange`, toasts and rendering are left out as UI.
- The licenses router is not mounted in the server file. Its logic is modelled anyway.
- Several edit paths send `DD/MM/YYYY` to a backend that reads it with the host's `new Date`. Both stores then keep whatever the host makes of that string, and `EditedDayReachesStore`, `UntouchedEditOfListed` and `FilledFormStored` state this exactly. Whether that is the picked day depends on the host, so it is not claimed.
