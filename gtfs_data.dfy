/** The rows of the static GTFS timetable as the backend keeps them after
    loading (`routes.txt`, `trips.txt`, `stops.txt`, `stop_times.txt`), and
    the three transport-category classifiers the backend applies to a route. */
module GtfsData {
  import opened Common

  /** A row of `routes.txt`. An absent CSV cell is the empty string. */
  datatype Route = Route(routeId: string, shortName: string, routeType: string)

  /** A row of `trips.txt`. */
  datatype Trip = Trip(tripId: string, routeId: string, serviceId: string, headsign: string, shapeId: string)

  /** A row of `stops.txt`; coordinates are not kept, since distances are
      inputs of the estimation engine. */
  datatype Stop = Stop(stopId: string, stopCode: string)

  /** A row of `stop_times.txt`. The sequence number is the result of
      `int()` on the `stop_sequence` text (`Common.ParseInt`), `None` where
      `int()` raises; the arrival time stays text. */
  datatype StopTimeRow = StopTimeRow(tripId: string, stopId: string, stopSequence: Option<int>, arrivalTime: string)

  /** The ids of the stops that carry the code. */
  function StopIdsWithCode(stops: map<string, Stop>, code: string): set<string>
  {
    set id | id in stops && stops[id].stopCode == code
  }

  /** The trips through any of the stops. */
  function TripsThrough(ids: set<string>, stopToTrips: map<string, seq<string>>): set<string>
  {
    set s, t | s in ids && s in stopToTrips && t in stopToTrips[s] :: t
  }

  /** GTFS `route_type` codes used by the network. */
  const TramType: string := "0"
  const BusType: string := "3"
  const TrolleybusType: string := "11"

  /** The rider-facing transport categories. */
  datatype Category = Tram | Bus | Trolley | Night | Metro

  predicate StartsWith(s: string, prefix: string)
  {
    |prefix| <= |s| && s[..|prefix|] == prefix
  }

  predicate IsNightLine(r: Route)
  {
    StartsWith(r.shortName, "N")
  }

  /** The category a stop gets from a route serving it: tram, bus or
      trolley by route type, overridden by night for an `N` line; nothing
      for any other route type. */
  function StopCategory(r: Route): (c: Option<Category>)
    ensures IsNightLine(r) ==> c == Some(Night)
    ensures !IsNightLine(r) ==> (c.Some? <==> r.routeType in {TramType, BusType, TrolleybusType})
    ensures c == Some(Tram) <==> !IsNightLine(r) && r.routeType == TramType
    ensures c == Some(Bus) <==> !IsNightLine(r) && r.routeType == BusType
    ensures c == Some(Trolley) <==> !IsNightLine(r) && r.routeType == TrolleybusType
  {
    if IsNightLine(r) then Some(Night)
    else if r.routeType == TramType then Some(Tram)
    else if r.routeType == BusType then Some(Bus)
    else if r.routeType == TrolleybusType then Some(Trolley)
    else None
  }

  /** The category the bulk-arrivals view reports for a route: bus unless
      it is a night line, a tram or a trolley. */
  function ArrivalCategory(r: Route): (c: Category)
    ensures c != Metro
    ensures c == Bus <==> !IsNightLine(r) && r.routeType != TramType && r.routeType != TrolleybusType
  {
    if IsNightLine(r) then Night
    else if r.routeType == TramType then Tram
    else if r.routeType == TrolleybusType then Trolley
    else Bus
  }

  /** The category of the structured line list, which also knows metro
      (route types 1 and 2). */
  function LineCategory(r: Route): (c: Category)
    ensures c == Metro <==> !IsNightLine(r) && r.routeType in {"1", "2"}
  {
    if IsNightLine(r) then Night
    else if r.routeType == TramType then Tram
    else if r.routeType == TrolleybusType then Trolley
    else if r.routeType in {"1", "2"} then Metro
    else Bus
  }

  /** The three classifiers agree on every tram, bus and trolleybus route
      and on every night line; they differ only for other route types. */
  lemma CategoriesAgree(r: Route)
    requires IsNightLine(r) || r.routeType in {TramType, BusType, TrolleybusType}
    ensures StopCategory(r) == Some(ArrivalCategory(r))
    ensures ArrivalCategory(r) == LineCategory(r)
  {
  }
}
