# Bena trip list and place seeding, modelled in Dafny

Bena is a trip-planning mobile app over a hosted Postgres backend. Two pieces
of it compute something of their own, and this project models both.

- **The trip list** (`fetchAllTrips` in `hooks/useAllTrips.ts`, module
  `AllTrips` in `all_trips.dfy`). It reads the signed-in user's trips, which
  the backend returns by ascending start date. A forEach pushes each trip onto
  one of three arrays: `in_progress`, `planned` or `completed`. Trips with any
  other status are dropped. The three arrays are concatenated in that order.
  Each trip then gets its steps, ordered by step number, and each step gets
  its place. Any failed query rejects the whole fetch, and so does a place
  that does not exist. With no signed-in user the fetch rejects before any
  query is made.
- **Place seeding** (`insert_data_from_csv` in
  `backend/bena-main-backend/main.py`, and its copy in
  `backend/data_completion/main.py`; module `PlaceSeeding` in
  `place_seeding.dfy`). It keeps the first CSV row of each `landmark_id`,
  tracked in a seen-set. Each kept row becomes one `places` record:
  - the name has `_` replaced by a space;
  - the record starts from fixed defaults;
  - a Google Maps text search overwrites the address, coordinates, category
    and link, but only when its status is `OK` and it has results;
  - an existing Wikipedia page gives the description (`Description: ` plus at
    most 500 characters of the summary) and, through its `ar` language link,
    the Arabic name.

  The two copies of `insert_data_from_csv` differ only in logging (the
  data-completion copy also prints each record), so one module models both.
  The table below cites whichever copy the member's lines are quoted from.

The backend, Google Maps and Wikipedia are not called. The answers of the
three trip queries are an input value (`AllTrips.Backend`). Maps and
Wikipedia are function parameters from the query string (the place name) to
the response. Inserting a record means appending it to the seeding method's
output.

Each imperative part of the source is a method proved against a specification
function:
- the status forEach is `GroupByStatus`, specified by `WithStatus`;
- the seen-set loop is `DedupByLandmark`, specified by `FirstOccurrences`;
- the per-row defaults-then-overwrite body is `BuildRecord`, specified by
  `Describes`;
- the insert loop is `InsertDataFromCsv`.

The lemmas prove what the source promises about those functions.

## Model

| member | source | states |
|---|---|---|
| `AllTrips.GroupByStatus` | hooks/useAllTrips.ts:22-38 | each of the three arrays holds exactly the input trips of its status, in input order |
| `AllTrips.GroupedStatuses` | hooks/useAllTrips.ts:30-38 | every trip in the grouped list has status `in_progress`, `planned` or `completed` |
| `AllTrips.GroupedIsPermutationOfListed` | hooks/useAllTrips.ts:30-42 | the grouped list is a permutation of the input trips with a listed status: each appears exactly as often as in the input, and its length is their number |
| `AllTrips.GroupedMembership` | hooks/useAllTrips.ts:29-42 | a trip is in the grouped list iff it is in the input with a listed status; trips with any other status are dropped |
| `AllTrips.GroupedOrder` | hooks/useAllTrips.ts:23-42 | all in-progress trips come before all planned trips, which come before all completed trips |
| `AllTrips.GroupedIsStable` | hooks/useAllTrips.ts:29-42 | the trips of each listed status keep their input relative order; an unlisted status has no trips in the result |
| `AllTrips.GroupKeepsStartDateOrder` | hooks/useAllTrips.ts:13-38 | if the fetched trips are ordered by start date, so is each status group |
| `AllTrips.AttachPlaces` | hooks/useAllTrips.ts:52-68 | succeeds iff every step's place exists; the result is then the steps in the same order and number, each paired with its place; otherwise the error names a missing place |
| `AllTrips.AttachTripSteps` | hooks/useAllTrips.ts:42-74 | succeeds iff the trip's steps query succeeds and all their places exist; the result is then the unchanged trip with its joined steps added |
| `AllTrips.AttachSteps` | hooks/useAllTrips.ts:40-75 | succeeds iff every trip can be attached; the result is then one entry per trip, in order, each the trip with only its joined steps added |
| `AllTrips.JoinKeepsStepOrder` | hooks/useAllTrips.ts:43-48 | joined steps keep the ascending step-number order the steps query returns |
| `AllTrips.FetchAllTrips` | hooks/useAllTrips.ts:10-78 | no user: rejects as not authenticated; failed trips query: rejects with its error; otherwise succeeds iff every grouped trip can be attached, and returns the grouped trips in order, each with its joined steps |
| `PlaceSeeding.DedupByLandmark` | backend/bena-main-backend/main.py:38-43 | the seen-set loop returns exactly the first occurrences of each landmark id, in input order |
| `PlaceSeeding.FirstOccurrences` | backend/bena-main-backend/main.py:39-45 | never more kept rows than input rows |
| `PlaceSeeding.KeptIdsDistinct` | backend/bena-main-backend/main.py:40-43 | no two kept rows share a landmark id |
| `PlaceSeeding.KeptIdsCover` | backend/data_completion/main.py:37-42 | the kept rows have exactly the landmark ids of the input, so every input landmark id is kept |
| `PlaceSeeding.KeptAreFirstOccurrences` | backend/data_completion/main.py:38-42 | the kept rows are the input rows at strictly increasing positions (a subsequence in input order), and each is the first row of its landmark id |
| `PlaceSeeding.EveryFirstOccurrenceKept` | backend/bena-main-backend/main.py:39-43 | every row that is the first of its landmark id is kept |
| `PlaceSeeding.SpacedName` | backend/bena-main-backend/main.py:49 | same length as the name, every `_` becomes a space, every other character is unchanged, no `_` remains |
| `PlaceSeeding.Truncate` | backend/bena-main-backend/main.py:78 | the slice `[:500]`: a prefix of the summary of length min(length, 500) |
| `PlaceSeeding.BuildRecord` | backend/bena-main-backend/main.py:48-99 | fails iff Maps hits with a first result that has no type. Otherwise the record: name underscore-free; image from the row's url; location and rating fixed; the five Maps fields at their defaults unless status is `OK` with results, in which case they come from the first result and the link is the fixed prefix plus its place id; description `No description yet` unless the page exists, then `Description: ` plus at most 500 summary characters; Arabic name the `ar` link title if the page exists and has one, else `Not available yet` |
| `PlaceSeeding.DescribesIsFunctional` | backend/data_completion/main.py:48-98 | these rules fix every field: two records that both satisfy them for the same row and responses are equal |
| `PlaceSeeding.InsertDataFromCsv` | backend/bena-main-backend/main.py:27-103 | one record per kept row, in kept order, each built by the rules above, until a row whose record cannot be built; the whole list is inserted iff no row fails; never more records than kept rows, nor kept rows than input rows |

## Left out

- Every backend query, the Maps and Wikipedia calls, and reading the CSV file. Their results are inputs to the model.
- The trips query's user filter and start-date order, and the steps query's trip filter and step-number order, are done by the backend. The model takes their answers as given.
- `markAsInProgress`, `markAsCompleted`, `markAsPlanned` and `deleteTrip` (hooks/useAllTrips.ts:82-126): one-line backend update or delete calls with no logic of their own.
- The `useQuery` wrapper: caching, the `enabled` flag, loading and error flags, and `refetch`. These are library behaviour.
- `Promise.all` concurrency: the fan-out is modelled as a sequential map.
- AllTrips.AttachSteps: when several trips or steps fail, it reports the first failure in list order. The source reports whichever promise rejects first in time, which depends on timing.
- AllTrips.AttachPlaces: the place lookup (`.single()`) fails only for a place id with no row. A network failure of that query is not modelled.
- PlaceSeeding.InsertDataFromCsv: models only one exception, the IndexError from a Maps result whose `types` list is empty. As in the source, the blanket handler stops the loop at that row and keeps the earlier inserts. Network errors, failed inserts and a CSV row missing a column are not modelled.
- The `unique_places` dictionary only ever maps keys to 1, so it is modelled as a set of landmark ids.
- Coordinates and ratings are Python floats, modelled as `real`. Start dates are modelled as integers ordered like the stored dates.
- All `print` output, including the per-record print in the data-completion copy.
