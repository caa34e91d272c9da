/**
  The trip list of the `useAllTrips` hook: `fetchAllTrips` reads the signed-in
  user's trips (ordered by start date), groups them by status into the fixed
  order in-progress, planned, completed (dropping every other status), and
  extends each kept trip with its steps, ordered by step number, each step
  joined with its place.

  The backend is not called: the answers its three queries give are an input
  value (`Backend`).
 */
module AllTrips {
  import opened Wrappers

  type UserId = string
  type TripId = string
  type PlaceId = string

  const InProgress := "in_progress"
  const Planned := "planned"
  const Completed := "completed"

  /** A row of the `trips` table. `status` is free text as stored. */
  datatype Trip = Trip(
    tripId: TripId,
    userId: UserId,
    title: string,
    description: string,
    startDate: int,
    endDate: int,
    status: string)

  /** A row of the `tripstep` table. */
  datatype Step = Step(
    tripStepId: string,
    tripId: TripId,
    stepNum: int,
    placeId: PlaceId,
    startTime: string,
    endTime: string,
    status: string)

  /** A row of the `places` table. */
  datatype Place = Place(
    placesId: PlaceId,
    name: string,
    description: string,
    address: string,
    location: string,
    category: string,
    rating: real,
    image: string,
    latitude: real,
    longitude: real,
    externalLink: Option<string>,
    arabicName: Option<string>)

  /** `{ ...step, place }`: a step and the place it visits. */
  datatype StepWithPlace = StepWithPlace(step: Step, place: Place)

  /** `{ ...trip, steps }`: a trip and its joined steps. */
  datatype TripWithSteps = TripWithSteps(trip: Trip, steps: seq<StepWithPlace>)

  /** Why `fetchAllTrips` rejects. */
  datatype FetchError =
    | NotAuthenticated
    | QueryFailed(message: string)
    | PlaceNotFound(placeId: PlaceId)

  /**
    What the backend answers.
    `trips[u]`: the trips query for user u (rows with that user_id, by
    ascending start_date), or its error; a user without an entry has no trips.
    `steps[t]`: the steps query for trip t (by ascending step_num), or its
    error; a trip without an entry has no steps.
    `places`: the places table by places_id; `.single()` fails on an id
    that matches no row.
   */
  datatype Backend = Backend(
    trips: map<UserId, Result<seq<Trip>, string>>,
    steps: map<TripId, Result<seq<Step>, string>>,
    places: map<PlaceId, Place>)

  function TripsQuery(db: Backend, user: UserId): Result<seq<Trip>, string>
  {
    if user in db.trips then db.trips[user] else Success([])
  }

  function StepsQuery(db: Backend, trip: TripId): Result<seq<Step>, string>
  {
    if trip in db.steps then db.steps[trip] else Success([])
  }

  // ---------------------------------------------------------------------
  // Grouping by status
  // ---------------------------------------------------------------------

  /** The statuses that have a group; every other status is dropped. */
  predicate IsListed(status: string)
  {
    status == InProgress || status == Planned || status == Completed
  }

  /** Position of a listed status's group in the result. */
  function Rank(status: string): nat
  {
    if status == InProgress then 0 else if status == Planned then 1 else 2
  }

  /** The trips with the given status, in input order. */
  function WithStatus(trips: seq<Trip>, status: string): seq<Trip>
  {
    if trips == [] then []
    else (if trips[0].status == status then [trips[0]] else []) + WithStatus(trips[1..], status)
  }

  /** Reference definition: the trips with a listed status, in input order. */
  function Listed(trips: seq<Trip>): seq<Trip>
  {
    if trips == [] then []
    else (if IsListed(trips[0].status) then [trips[0]] else []) + Listed(trips[1..])
  }

  /** The three groups, concatenated in their fixed order. */
  function Grouped(trips: seq<Trip>): seq<Trip>
  {
    WithStatus(trips, InProgress) + WithStatus(trips, Planned) + WithStatus(trips, Completed)
  }

  /** The three mutable arrays of `groupedTrips`. */
  datatype Groups = Groups(inProgress: seq<Trip>, planned: seq<Trip>, completed: seq<Trip>)

  /** The forEach that pushes each trip onto the array of its status. */
  method GroupByStatus(trips: seq<Trip>) returns (g: Groups)
    ensures g.inProgress == WithStatus(trips, InProgress)
    ensures g.planned == WithStatus(trips, Planned)
    ensures g.completed == WithStatus(trips, Completed)
  {
    var inProgress: seq<Trip> := [];
    var planned: seq<Trip> := [];
    var completed: seq<Trip> := [];
    for i := 0 to |trips|
      invariant inProgress == WithStatus(trips[..i], InProgress)
      invariant planned == WithStatus(trips[..i], Planned)
      invariant completed == WithStatus(trips[..i], Completed)
    {
      var trip := trips[i];
      if trip.status == InProgress {
        inProgress := inProgress + [trip];
      } else if trip.status == Planned {
        planned := planned + [trip];
      } else if trip.status == Completed {
        completed := completed + [trip];
      }
      assert trips[..i + 1] == trips[..i] + [trip];
      WithStatusAppend(trips[..i], [trip], InProgress);
      WithStatusAppend(trips[..i], [trip], Planned);
      WithStatusAppend(trips[..i], [trip], Completed);
    }
    assert trips[..|trips|] == trips;
    g := Groups(inProgress, planned, completed);
  }

  lemma {:induction false} WithStatusAppend(a: seq<Trip>, b: seq<Trip>, status: string)
    ensures WithStatus(a + b, status) == WithStatus(a, status) + WithStatus(b, status)
  {
    if a == [] {
      assert a + b == b;
    } else {
      var head := if a[0].status == status then [a[0]] else [];
      assert (a + b)[0] == a[0];
      assert (a + b)[1..] == a[1..] + b;
      WithStatusAppend(a[1..], b, status);
      assert WithStatus(a + b, status) == head + (WithStatus(a[1..], status) + WithStatus(b, status));
    }
  }

  /** A group holds only trips of its status. */
  lemma {:induction false} WithStatusOnly(trips: seq<Trip>, status: string)
    ensures forall i :: 0 <= i < |WithStatus(trips, status)| ==> WithStatus(trips, status)[i].status == status
  {
    if trips != [] {
      WithStatusOnly(trips[1..], status);
    }
  }

  /** A group holds each trip of its status as often as the input does, and no other trip. */
  lemma {:induction false} WithStatusCounts(trips: seq<Trip>, status: string)
    ensures forall t :: multiset(WithStatus(trips, status))[t] ==
                        if t.status == status then multiset(trips)[t] else 0
  {
    if trips != [] {
      WithStatusCounts(trips[1..], status);
      assert trips == [trips[0]] + trips[1..];
    }
  }

  /** `Listed` holds each listed trip as often as the input does, and no other trip. */
  lemma {:induction false} ListedCounts(trips: seq<Trip>)
    ensures forall t :: multiset(Listed(trips))[t] ==
                        if IsListed(t.status) then multiset(trips)[t] else 0
  {
    if trips != [] {
      ListedCounts(trips[1..]);
      assert trips == [trips[0]] + trips[1..];
    }
  }

  /** Filtering an already filtered group again keeps it or empties it. */
  lemma {:induction false} WithStatusTwice(trips: seq<Trip>, s: string, t: string)
    ensures WithStatus(WithStatus(trips, s), t) == if s == t then WithStatus(trips, s) else []
  {
    if trips != [] {
      var head := if trips[0].status == s then [trips[0]] else [];
      WithStatusTwice(trips[1..], s, t);
      WithStatusAppend(head, WithStatus(trips[1..], s), t);
    }
  }

  /** The status of the i-th grouped trip: the group that position i falls in. */
  lemma GroupedStatusAt(trips: seq<Trip>, i: nat)
    requires i < |Grouped(trips)|
    ensures var a, b := WithStatus(trips, InProgress), WithStatus(trips, Planned);
            Grouped(trips)[i].status ==
              if i < |a| then InProgress else if i < |a| + |b| then Planned else Completed
  {
    var a, b, c := WithStatus(trips, InProgress), WithStatus(trips, Planned), WithStatus(trips, Completed);
    if i < |a| {
      WithStatusOnly(trips, InProgress);
    } else if i < |a| + |b| {
      WithStatusOnly(trips, Planned);
      assert Grouped(trips)[i] == b[i - |a|];
    } else {
      WithStatusOnly(trips, Completed);
      assert Grouped(trips)[i] == c[i - |a| - |b|];
    }
  }

  /** Every trip of the result has one of the three listed statuses. */
  lemma GroupedStatuses(trips: seq<Trip>)
    ensures forall i :: 0 <= i < |Grouped(trips)| ==> IsListed(Grouped(trips)[i].status)
  {
    forall i | 0 <= i < |Grouped(trips)| ensures IsListed(Grouped(trips)[i].status) {
      GroupedStatusAt(trips, i);
    }
  }

  /**
    Every listed trip appears in the result exactly as often as in the input,
    and nothing else does: the result is a permutation of `Listed(trips)`.
   */
  lemma GroupedIsPermutationOfListed(trips: seq<Trip>)
    ensures multiset(Grouped(trips)) == multiset(Listed(trips))
    ensures |Grouped(trips)| == |Listed(trips)|
  {
    WithStatusCounts(trips, InProgress);
    WithStatusCounts(trips, Planned);
    WithStatusCounts(trips, Completed);
    ListedCounts(trips);
    var a, b, c := WithStatus(trips, InProgress), WithStatus(trips, Planned), WithStatus(trips, Completed);
    forall t ensures multiset(Grouped(trips))[t] == multiset(Listed(trips))[t] {
      assert multiset(Grouped(trips))[t] == multiset(a)[t] + multiset(b)[t] + multiset(c)[t];
    }
    assert multiset(Grouped(trips)) == multiset(Listed(trips));
    assert |multiset(Grouped(trips))| == |Grouped(trips)|;
    assert |multiset(Listed(trips))| == |Listed(trips)|;
  }

  /** The result contains a trip iff the input has it with a listed status. */
  lemma GroupedMembership(trips: seq<Trip>, t: Trip)
    ensures t in Grouped(trips) <==> t in trips && IsListed(t.status)
  {
    GroupedIsPermutationOfListed(trips);
    ListedCounts(trips);
    assert t in Grouped(trips) <==> multiset(Grouped(trips))[t] > 0;
    assert t in trips <==> multiset(trips)[t] > 0;
  }

  /** All in-progress trips precede all planned ones, which precede all completed ones. */
  lemma GroupedOrder(trips: seq<Trip>)
    ensures forall i, j :: 0 <= i < j < |Grouped(trips)| ==>
              Rank(Grouped(trips)[i].status) <= Rank(Grouped(trips)[j].status)
  {
    forall i, j | 0 <= i < j < |Grouped(trips)|
      ensures Rank(Grouped(trips)[i].status) <= Rank(Grouped(trips)[j].status)
    {
      GroupedStatusAt(trips, i);
      GroupedStatusAt(trips, j);
    }
  }

  /**
    The grouping is stable: the trips of one listed status appear in the
    result in their input order, and an unlisted status has none.
   */
  lemma GroupedIsStable(trips: seq<Trip>, status: string)
    ensures WithStatus(Grouped(trips), status) ==
            if IsListed(status) then WithStatus(trips, status) else []
  {
    var a, b, c := WithStatus(trips, InProgress), WithStatus(trips, Planned), WithStatus(trips, Completed);
    WithStatusAppend(a + b, c, status);
    WithStatusAppend(a, b, status);
    WithStatusTwice(trips, InProgress, status);
    WithStatusTwice(trips, Planned, status);
    WithStatusTwice(trips, Completed, status);
  }

  /** Trips ordered by ascending start date (the order the trips query returns). */
  predicate ByStartDate(trips: seq<Trip>)
  {
    forall i, j :: 0 <= i < j < |trips| ==> trips[i].startDate <= trips[j].startDate
  }

  /** Each group of a start-date-ordered input is itself ordered by start date. */
  lemma {:induction false} GroupKeepsStartDateOrder(trips: seq<Trip>, status: string)
    requires ByStartDate(trips)
    ensures ByStartDate(WithStatus(trips, status))
  {
    if trips != [] {
      GroupKeepsStartDateOrder(trips[1..], status);
      WithStatusCounts(trips[1..], status);
      var rest := WithStatus(trips[1..], status);
      forall k | 0 <= k < |rest| ensures trips[0].startDate <= rest[k].startDate {
        assert multiset(rest)[rest[k]] > 0;
        assert rest[k] in trips[1..];
      }
    }
  }

  // ---------------------------------------------------------------------
  // Attaching steps and places
  // ---------------------------------------------------------------------

  /** Every step's place exists in the places table. */
  predicate PlacesKnown(steps: seq<Step>, places: map<PlaceId, Place>)
  {
    forall k :: 0 <= k < |steps| ==> steps[k].placeId in places
  }

  /** `joined` is `steps`, in the same order, each paired with its place. */
  predicate IsJoin(joined: seq<StepWithPlace>, steps: seq<Step>, places: map<PlaceId, Place>)
  {
    && |joined| == |steps|
    && forall k :: 0 <= k < |steps| ==>
         steps[k].placeId in places && joined[k] == StepWithPlace(steps[k], places[steps[k].placeId])
  }

  /** The inner `steps.map`: look up each step's place; the first unknown place rejects. */
  function AttachPlaces(steps: seq<Step>, places: map<PlaceId, Place>): (r: Result<seq<StepWithPlace>, FetchError>)
    ensures r.Success? <==> PlacesKnown(steps, places)
    ensures r.Success? ==> IsJoin(r.value, steps, places)
    ensures r.Failure? ==> r.error.PlaceNotFound? && r.error.placeId !in places
  {
    if steps == [] then Success([])
    else if steps[0].placeId !in places then Failure(PlaceNotFound(steps[0].placeId))
    else match AttachPlaces(steps[1..], places)
      case Failure(e) => Failure(e)
      case Success(rest) => Success([StepWithPlace(steps[0], places[steps[0].placeId])] + rest)
  }

  /** The steps query for the trip succeeds and every step's place exists. */
  predicate Attachable(trip: Trip, db: Backend)
  {
    StepsQuery(db, trip.tripId).Success? && PlacesKnown(StepsQuery(db, trip.tripId).value, db.places)
  }

  /** `x` is `trip` with only its fetched steps, joined with their places, added. */
  predicate IsAttached(x: TripWithSteps, trip: Trip, db: Backend)
  {
    && x.trip == trip
    && StepsQuery(db, trip.tripId).Success?
    && IsJoin(x.steps, StepsQuery(db, trip.tripId).value, db.places)
  }

  /** The outer map callback: fetch one trip's steps and join their places. */
  function AttachTripSteps(trip: Trip, db: Backend): (r: Result<TripWithSteps, FetchError>)
    ensures r.Success? <==> Attachable(trip, db)
    ensures r.Success? ==> IsAttached(r.value, trip, db)
  {
    match StepsQuery(db, trip.tripId)
    case Failure(message) => Failure(QueryFailed(message))
    case Success(steps) =>
      match AttachPlaces(steps, db.places)
      case Failure(e) => Failure(e)
      case Success(joined) => Success(TripWithSteps(trip, joined))
  }

  /** `Promise.all` over the grouped trips: all attach, or the whole fetch rejects. */
  function AttachSteps(trips: seq<Trip>, db: Backend): (r: Result<seq<TripWithSteps>, FetchError>)
    ensures r.Success? <==> forall i :: 0 <= i < |trips| ==> Attachable(trips[i], db)
    ensures r.Success? ==> |r.value| == |trips|
    ensures r.Success? ==> forall i :: 0 <= i < |trips| ==> IsAttached(r.value[i], trips[i], db)
  {
    if trips == [] then Success([])
    else match AttachTripSteps(trips[0], db)
      case Failure(e) => Failure(e)
      case Success(first) =>
        match AttachSteps(trips[1..], db)
        case Failure(e) => Failure(e)
        case Success(rest) => Success([first] + rest)
  }

  /** Joined steps keep the ascending step-number order of the steps query. */
  predicate ByStepNum(steps: seq<Step>)
  {
    forall i, j :: 0 <= i < j < |steps| ==> steps[i].stepNum <= steps[j].stepNum
  }

  lemma JoinKeepsStepOrder(joined: seq<StepWithPlace>, steps: seq<Step>, places: map<PlaceId, Place>)
    requires IsJoin(joined, steps, places)
    requires ByStepNum(steps)
    ensures forall i, j :: 0 <= i < j < |joined| ==> joined[i].step.stepNum <= joined[j].step.stepNum
  {
  }

  // ---------------------------------------------------------------------
  // fetchAllTrips
  // ---------------------------------------------------------------------

  /**
    Fetch the user's trips grouped by status, each with its steps and places.
    No user: rejects before any query. A failed trips query: rejects with its
    error. Otherwise succeeds exactly when every grouped trip's steps query
    succeeds and all their places exist, and then returns the grouped trips in
    order, each extended with its joined steps.
   */
  method FetchAllTrips(user: Option<UserId>, db: Backend) returns (r: Result<seq<TripWithSteps>, FetchError>)
    ensures user.None? ==> r == Failure(NotAuthenticated)
    ensures user.Some? && TripsQuery(db, user.value).Failure? ==>
              r == Failure(QueryFailed(TripsQuery(db, user.value).error))
    ensures user.Some? && TripsQuery(db, user.value).Success? ==>
              var grouped := Grouped(TripsQuery(db, user.value).value);
              (r.Success? <==> forall i :: 0 <= i < |grouped| ==> Attachable(grouped[i], db))
    ensures r.Success? ==>
              && user.Some? && TripsQuery(db, user.value).Success?
              && var grouped := Grouped(TripsQuery(db, user.value).value);
              && |r.value| == |grouped|
              && forall i :: 0 <= i < |grouped| ==> IsAttached(r.value[i], grouped[i], db)
  {
    if user.None? {
      return Failure(NotAuthenticated);
    }
    var query := TripsQuery(db, user.value);
    if query.Failure? {
      return Failure(QueryFailed(query.error));
    }
    var groups := GroupByStatus(query.value);
    var ordered := groups.inProgress + groups.planned + groups.completed;
    assert ordered == Grouped(query.value);
    r := AttachSteps(ordered, db);
  }
}
