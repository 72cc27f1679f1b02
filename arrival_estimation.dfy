/** The stop view's arrival estimation (`get_vehicles_for_stop`): for every
    trip through a stop, or through the stops that share its code, one
    estimate in minutes, taken from the operator's prediction, else from the
    vehicle's position with a geofence around the stop, else from the
    timetable; live estimates come first, each group by ascending minutes.
    The two geofence caches are the state of an `ArrivalEngine`. */
module ArrivalEstimation {
  import opened Common
  import opened GtfsData
  import opened GtfsTime
  import opened Sorting

  /** A recent-official flag lives 90 s, an arrival-zone flag 300 s. */
  const RecentOfficialTtl: int := 90
  const GpsCacheTtl: int := 300

  /** Geofence radii in metres: entering the arrival zone sets the flag,
      leaving the departure zone clears it, and extrapolation starts only
      within the trigger zone of the vehicle's next stop. */
  const ArrivalZone: real := 50.0
  const DepartureZone: real := 70.0
  const HybridTriggerZone: real := 20.0

  /** A prediction up to a minute in the past still counts. */
  const PredictionGrace: int := 60

  /** The timetable fallback looks two hours ahead. */
  const ScheduleHorizon: int := 7200

  // ---------------------------------------------------------------------
  // Python's round() and max(0, …)

  /** `r` is an integer nearest to `x`, the even one on a tie. */
  predicate IsRounding(x: real, r: int)
  {
    && 2.0 * (x - r as real) <= 1.0
    && 2.0 * (r as real - x) <= 1.0
    && (2.0 * (x - r as real) == 1.0 || 2.0 * (r as real - x) == 1.0 ==> r % 2 == 0)
  }

  /** Python 3's `round(x)`: to the nearest integer, ties to even. */
  function Round(x: real): (r: int)
    ensures IsRounding(x, r)
  {
    var f := x.Floor;
    var frac := x - f as real;
    if 2.0 * frac < 1.0 then f
    else if 2.0 * frac > 1.0 then f + 1
    else if f % 2 == 0 then f else f + 1
  }

  /** There is only one such integer. */
  lemma RoundingIsUnique(x: real, r: int, r': int)
    requires IsRounding(x, r) && IsRounding(x, r')
    ensures r == r'
  {
  }

  function Max0(n: int): (m: int)
    ensures m >= 0 && m >= n
    ensures m == n || m == 0
  {
    if n < 0 then 0 else n
  }

  /** Minutes from `from` to `at`, as the view rounds them. */
  function MinutesBetween(at: real, from: real): int
  {
    Max0(Round((at - from) / 60.0))
  }

  /** Minutes from the whole second `now` to `instant`. */
  function MinutesUntil(instant: int, now: int): int
  {
    MinutesBetween(instant as real, now as real)
  }

  /** A prediction 185 s ahead is 3 minutes away; 30 s ahead rounds to 0
      and 90 s ahead to 2, the even neighbours. */
  lemma MinutesExamples(now: int)
    ensures MinutesUntil(now + 185, now) == 3
    ensures MinutesUntil(now + 30, now) == 0
    ensures MinutesUntil(now + 90, now) == 2
    ensures MinutesUntil(now - 59, now) == 0
  {
    assert IsRounding(185 as real / 60.0, 3);
    RoundingIsUnique(185 as real / 60.0, 3, Round(185 as real / 60.0));
    assert (now + 185 - now) as real / 60.0 == 185 as real / 60.0;
    assert IsRounding(30 as real / 60.0, 0);
    RoundingIsUnique(30 as real / 60.0, 0, Round(30 as real / 60.0));
    assert (now + 30 - now) as real / 60.0 == 30 as real / 60.0;
    assert IsRounding(90 as real / 60.0, 2);
    RoundingIsUnique(90 as real / 60.0, 2, Round(90 as real / 60.0));
    assert (now + 90 - now) as real / 60.0 == 90 as real / 60.0;
    assert IsRounding(-59 as real / 60.0, -1);
    RoundingIsUnique(-59 as real / 60.0, -1, Round(-59 as real / 60.0));
    assert (now - 59 - now) as real / 60.0 == -59 as real / 60.0;
  }

  /** Half a second past the whole second, a time 90 s after it is 89.5 s
      ahead and rounds to 1 minute, not to 2. */
  lemma SubSecondExample(now: int)
    ensures MinutesBetween((now + 90) as real, now as real + 0.5) == 1
  {
    var x := ((now + 90) as real - (now as real + 0.5)) / 60.0;
    assert x == 89.5 / 60.0;
    assert IsRounding(x, 1);
    RoundingIsUnique(x, 1, Round(x));
  }

  // ---------------------------------------------------------------------
  // the realtime snapshot

  /** One `stop_time_update`: its stop and, when the field is set, the
      predicted arrival as a Unix time. */
  datatype StopTimeUpdate = StopTimeUpdate(stopId: string, arrival: Option<int>)

  datatype TripUpdate = TripUpdate(tripId: string, stopTimeUpdates: seq<StopTimeUpdate>)

  /** A `vehicle` entity: its trip, the stop it reports as next and the
      reported speed in m/s, each when set. Its position enters only through
      the distances of the snapshot. */
  datatype VehiclePosition = VehiclePosition(tripId: string, nextStop: Option<string>, speed: Option<real>)

  /** A dictionary built from `pairs` in order: a later pair replaces an
      earlier one with the same key. */
  function LastWins<K(!new), V>(pairs: seq<(K, V)>): (m: map<K, V>)
    ensures forall k :: k in m <==> exists i :: 0 <= i < |pairs| && pairs[i].0 == k
    ensures forall k :: k in m ==> exists i :: 0 <= i < |pairs| && pairs[i] == (k, m[k])
  {
    if pairs == [] then map[]
    else
      var init := pairs[..|pairs| - 1];
      assert forall i :: 0 <= i < |init| ==> init[i] == pairs[i];
      LastWins(init)[pairs[|pairs| - 1].0 := pairs[|pairs| - 1].1]
  }

  /** The value kept for a key is the one of its last pair. */
  lemma {:induction false} LastWinsKeepsLast<K(!new), V>(pairs: seq<(K, V)>, i: int)
    requires 0 <= i < |pairs|
    requires forall j :: i < j < |pairs| ==> pairs[j].0 != pairs[i].0
    ensures LastWins(pairs)[pairs[i].0] == pairs[i].1
  {
    if i < |pairs| - 1 {
      var init := pairs[..|pairs| - 1];
      LastWinsKeepsLast(init, i);
    }
  }

  /** The predicted arrivals of one trip update: updates with an arrival
      time above zero. */
  function ArrivalPairs(us: seq<StopTimeUpdate>): (ps: seq<(string, int)>)
    ensures forall i :: 0 <= i < |ps| ==> ps[i].1 > 0
    ensures forall p :: p in ps <==> exists i :: 0 <= i < |us| && us[i].arrival == Some(p.1) && p.1 > 0 && us[i].stopId == p.0
  {
    if us == [] then []
    else
      var init := ArrivalPairs(us[..|us| - 1]);
      var u := us[|us| - 1];
      assert forall i :: 0 <= i < |us| - 1 ==> us[..|us| - 1][i] == us[i];
      if u.arrival.Some? && u.arrival.value > 0 then init + [(u.stopId, u.arrival.value)] else init
  }

  /** The trip updates of the feed's entities, in order. */
  function Updates(es: seq<Option<TripUpdate>>): (us: seq<TripUpdate>)
    ensures forall u :: u in us <==> Some(u) in es
  {
    if es == [] then []
    else
      var init := Updates(es[..|es| - 1]);
      assert forall e :: e in es <==> e in es[..|es| - 1] || e == es[|es| - 1];
      if es[|es| - 1].Some? then init + [es[|es| - 1].value] else init
  }

  /** One trip's predictions: stop to arrival time, a later update for the
      same stop replacing an earlier one. */
  function StopPredictions(u: TripUpdate): map<string, int>
  {
    LastWins(ArrivalPairs(u.stopTimeUpdates))
  }

  /** `arrival_predictions`: trip, then stop, to predicted arrival, a later
      update for the same trip replacing an earlier one; empty without a
      trip-updates feed. */
  function Predictions(feed: Option<seq<Option<TripUpdate>>>): (p: map<string, map<string, int>>)
  {
    if feed.None? then map[]
    else
      var us := Updates(feed.value);
      LastWins(seq(|us|, i requires 0 <= i < |us| => (us[i].tripId, StopPredictions(us[i]))))
  }

  /** Every kept prediction is above zero; a trip has predictions iff the
      feed has an update for it. */
  lemma PredictionsSpec(feed: Option<seq<Option<TripUpdate>>>, t: string)
    ensures t in Predictions(feed) <==> feed.Some? && exists u :: Some(u) in feed.value && u.tripId == t
    ensures t in Predictions(feed) ==> forall s :: s in Predictions(feed)[t] ==> Predictions(feed)[t][s] > 0
  {
    if feed.Some? {
      var us := Updates(feed.value);
      var ps := seq(|us|, i requires 0 <= i < |us| => (us[i].tripId, StopPredictions(us[i])));
      if t in Predictions(feed) {
        var i :| 0 <= i < |ps| && ps[i] == (t, Predictions(feed)[t]);
        assert us[i] in us;
        forall s | s in Predictions(feed)[t] ensures Predictions(feed)[t][s] > 0 {
          var qs := ArrivalPairs(us[i].stopTimeUpdates);
          var k :| 0 <= k < |qs| && qs[k] == (s, Predictions(feed)[t][s]);
        }
      }
      if u :| Some(u) in feed.value && u.tripId == t {
        var i :| 0 <= i < |us| && us[i] == u;
        assert ps[i].0 == t;
      }
    }
  }

  /** `vehicle_positions`: trip to its last vehicle entity; empty without a
      vehicle-positions feed. */
  function Vehicles(feed: Option<seq<Option<VehiclePosition>>>): (v: map<string, VehiclePosition>)
    ensures forall t :: t in v ==> v[t].tripId == t
  {
    if feed.None? then map[] else LastWins(VehiclePairs(feed.value))
  }

  /** The (trip, vehicle) pairs of the feed's vehicle entities, in order. */
  function VehiclePairs(es: seq<Option<VehiclePosition>>): (ps: seq<(string, VehiclePosition)>)
    ensures forall i :: 0 <= i < |ps| ==> ps[i].1.tripId == ps[i].0
    ensures forall v: VehiclePosition :: (v.tripId, v) in ps <==> Some(v) in es
  {
    if es == [] then []
    else
      var init := VehiclePairs(es[..|es| - 1]);
      var e := es[|es| - 1];
      assert forall x :: x in es <==> x in es[..|es| - 1] || x == e;
      if e.Some? then init + [(e.value.tripId, e.value)] else init
  }

  /** A trip has a vehicle iff the feed has a vehicle entity of that trip,
      and the vehicle it has is one of the feed's entities. */
  lemma VehiclesSpec(feed: Option<seq<Option<VehiclePosition>>>, t: string)
    ensures t in Vehicles(feed) <==> feed.Some? && exists v :: Some(v) in feed.value && v.tripId == t
    ensures t in Vehicles(feed) ==> feed.Some? && Some(Vehicles(feed)[t]) in feed.value
  {
    if feed.Some? {
      var ps := VehiclePairs(feed.value);
      if t in Vehicles(feed) {
        var i :| 0 <= i < |ps| && ps[i] == (t, Vehicles(feed)[t]);
        assert (Vehicles(feed)[t].tripId, Vehicles(feed)[t]) in ps;
      }
      if v :| Some(v) in feed.value && v.tripId == t {
        assert (v.tripId, v) in ps;
        var i :| 0 <= i < |ps| && ps[i] == (v.tripId, v);
        assert ps[i].0 == t;
      }
    }
  }

  /** The vehicle kept for a trip is the feed's last entity of that trip. */
  lemma VehiclesKeepLast(feed: Option<seq<Option<VehiclePosition>>>, i: int)
    requires feed.Some? && 0 <= i < |feed.value| && feed.value[i].Some?
    requires forall j :: i < j < |feed.value| && feed.value[j].Some? ==>
      feed.value[j].value.tripId != feed.value[i].value.tripId
    ensures feed.value[i].value.tripId in Vehicles(feed)
    ensures Vehicles(feed)[feed.value[i].value.tripId] == feed.value[i].value
  {
    LastVehicleKept(feed.value, i);
  }

  lemma {:induction false} LastVehicleKept(es: seq<Option<VehiclePosition>>, i: int)
    requires 0 <= i < |es| && es[i].Some?
    requires forall j :: i < j < |es| && es[j].Some? ==> es[j].value.tripId != es[i].value.tripId
    ensures es[i].value.tripId in LastWins(VehiclePairs(es))
    ensures LastWins(VehiclePairs(es))[es[i].value.tripId] == es[i].value
  {
    var init, e := es[..|es| - 1], es[|es| - 1];
    var ps := VehiclePairs(init);
    if e.Some? {
      var qs := ps + [(e.value.tripId, e.value)];
      assert VehiclePairs(es) == qs;
      assert qs[..|qs| - 1] == ps;
      assert LastWins(qs) == LastWins(ps)[e.value.tripId := e.value];
    } else {
      assert VehiclePairs(es) == ps;
    }
    if i < |es| - 1 {
      assert init[i] == es[i];
      LastVehicleKept(init, i);
    }
  }

  /** The realtime inputs of one request. `distance[(t, s)]` is the distance
      in metres from the vehicle of trip `t` to stop `s`, present when that
      vehicle reports a position and the stop has coordinates. */
  datatype Snapshot = Snapshot(
    predictions: map<string, map<string, int>>,
    vehicles: map<string, VehiclePosition>,
    distance: map<(string, string), real>)

  /** The snapshot a request sees: the predictions and vehicles the two
      feeds give, and the distances. */
  function SnapshotOf(tuFeed: Option<seq<Option<TripUpdate>>>, vpFeed: Option<seq<Option<VehiclePosition>>>,
                      distance: map<(string, string), real>): Snapshot
  {
    Snapshot(Predictions(tuFeed), Vehicles(vpFeed), distance)
  }

  /** In the snapshot of two feeds, a trip has predictions iff the
      trip-updates feed has an update for it, every prediction is above
      zero, a trip has a vehicle iff the vehicle-positions feed has an
      entity of it, and that vehicle is such an entity. */
  lemma SnapshotOfFeeds(tuFeed: Option<seq<Option<TripUpdate>>>, vpFeed: Option<seq<Option<VehiclePosition>>>,
                        distance: map<(string, string), real>, t: string)
    ensures var snap := SnapshotOf(tuFeed, vpFeed, distance);
      && (t in snap.predictions <==> tuFeed.Some? && exists u :: Some(u) in tuFeed.value && u.tripId == t)
      && (t in snap.predictions ==> forall s :: s in snap.predictions[t] ==> snap.predictions[t][s] > 0)
      && (t in snap.vehicles <==> vpFeed.Some? && exists v :: Some(v) in vpFeed.value && v.tripId == t)
      && (t in snap.vehicles ==> snap.vehicles[t].tripId == t && vpFeed.Some? && Some(snap.vehicles[t]) in vpFeed.value)
      && (vpFeed.None? ==> snap.vehicles == map[])
  {
    PredictionsSpec(tuFeed, t);
    VehiclesSpec(vpFeed, t);
  }

  // ---------------------------------------------------------------------
  // the static inputs

  datatype Network = Network(
    stops: map<string, Stop>,
    trips: map<string, Trip>,
    routes: map<string, Route>,
    scheduleByTrip: map<string, map<string, string>>,
    stopToTrips: map<string, seq<string>>,
    sequences: map<string, map<string, int>>,
    activeServices: set<string>)

  /** The request's two clock readings and the Unix time of the local
      midnight that starts its service day. `now` is `int(time.time())`, the
      whole second the live estimates and the caches use; `sub` is how far
      the instant of `datetime.now()`, which the timetable fallback uses,
      lies after `now` (the fraction of a second the truncation drops, or a
      little less than zero when the second ticks between the two
      readings). */
  datatype Clock = Clock(now: int, dayStart: int, sub: real)

  /** The instant of `datetime.now()`, in Unix seconds. */
  function Instant(clock: Clock): real
  {
    clock.now as real + clock.sub
  }

  /** The stop and, when it has a code, every stop carrying the same code. */
  function PhysicalStops(stopId: string, code: string, stops: map<string, Stop>): (ids: set<string>)
    ensures forall s :: s in ids <==> s == stopId || (code != "" && s in stops && stops[s].stopCode == code)
  {
    (if code != "" then StopIdsWithCode(stops, code) else {}) + {stopId}
  }

  /** The first stop of `order` that the trip's schedule lists. */
  function FirstScheduled(order: seq<string>, schedule: map<string, string>): (r: Option<string>)
    ensures r.None? <==> forall i :: 0 <= i < |order| ==> order[i] !in schedule
    ensures r.Some? ==> exists i :: (0 <= i < |order| && order[i] == r.value && r.value in schedule
      && forall j :: 0 <= j < i ==> order[j] !in schedule)
  {
    if order == [] then None
    else if order[0] in schedule then Some(order[0])
    else
      var r := FirstScheduled(order[1..], schedule);
      assert forall i :: 0 < i < |order| ==> order[i] == order[1..][i - 1];
      r
  }

  /** A trip the view estimates: its row, its route and the stop it is
      estimated at. */
  datatype Target = Target(trip: Trip, route: Route, stopId: string)

  function ScheduleOf(t: string, net: Network): map<string, string>
  {
    Get(net.scheduleByTrip, t).GetOr(map[])
  }

  /** Nothing is estimated for an unknown trip, for a trip that stops at
      none of the stops (or only at one whose id is empty) or for a trip
      whose route is unknown. */
  function TargetOf(t: string, net: Network, stopOrder: seq<string>): (g: Option<Target>)
    ensures g.Some? <==> (t in net.trips && net.trips[t].routeId in net.routes &&
      FirstScheduled(stopOrder, ScheduleOf(t, net)).Some? && FirstScheduled(stopOrder, ScheduleOf(t, net)).value != "")
    ensures g.Some? ==> (g.value.trip == net.trips[t] && g.value.route == net.routes[g.value.trip.routeId] &&
      g.value.stopId == FirstScheduled(stopOrder, ScheduleOf(t, net)).value)
  {
    if t !in net.trips then None
    else
      var trip := net.trips[t];
      var relevant := FirstScheduled(stopOrder, ScheduleOf(t, net));
      if relevant.None? || relevant.value == "" then None
      else if trip.routeId !in net.routes then None
      else Some(Target(trip, net.routes[trip.routeId], relevant.value))
  }

  // ---------------------------------------------------------------------
  // one trip

  /** The two geofence caches, keyed by (trip, stop), holding Unix times. */
  datatype Caches = Caches(recent: map<(string, string), int>, gps: map<(string, string), int>)

  datatype Source = Official | Hybrid | Scheduled

  /** The result of the live sources for one trip: omit the trip, fall back
      to the timetable, or an estimate. */
  datatype Outcome = Omit | NoEstimate | Estimate(eta: int, source: Source)

  /** An operator prediction for the trip at the stop, when one exists, is
      not zero and is at most a minute old. */
  function FreshPrediction(t: string, s: string, rt: Snapshot, now: int): (p: Option<int>)
    ensures p.Some? <==> (t in rt.predictions && s in rt.predictions[t] &&
      rt.predictions[t][s] != 0 && rt.predictions[t][s] > now - PredictionGrace)
    ensures p.Some? ==> p.value == rt.predictions[t][s]
  {
    var p := Get(Get(rt.predictions, t).GetOr(map[]), s);
    if p.Some? && p.value != 0 && p.value > now - PredictionGrace then p else None
  }

  /** `AVG_SPEED_MPS` by route type. */
  function AverageSpeed(routeType: string): (v: real)
    ensures v >= 5.5
  {
    if routeType == TramType then 6.9
    else if routeType == BusType then 5.5
    else if routeType == TrolleybusType then 6.0
    else 5.5
  }

  /** The reported speed when it is above 1 m/s, else the route type's
      average; so never below 1 m/s. */
  function Speed(v: VehiclePosition, routeType: string): (s: real)
    ensures s > 1.0
    ensures s == (if v.speed.Some? && v.speed.value > 1.0 then v.speed.value else AverageSpeed(routeType))
  {
    if v.speed.Some? && v.speed.value > 1.0 then v.speed.value else AverageSpeed(routeType)
  }

  /** Extrapolation applies when the vehicle reports a next stop that comes
      strictly before the target on the trip and is within the trigger zone
      of it. */
  predicate UseHybrid(t: string, s: string, v: VehiclePosition, rt: Snapshot, net: Network)
  {
    && v.nextStop.Some? && v.nextStop.value != ""
    && var sequences := Get(net.sequences, t).GetOr(map[]);
    && s in sequences && v.nextStop.value in sequences
    && sequences[v.nextStop.value] < sequences[s]
    && (t, v.nextStop.value) in rt.distance
    && rt.distance[(t, v.nextStop.value)] < HybridTriggerZone
  }

  /** The geofence for a live vehicle without a fresh prediction or a
      recent-official flag. */
  function GpsOutcome(t: string, g: Target, c: Caches, net: Network, rt: Snapshot, now: int): (Outcome, Caches)
    requires t in rt.vehicles
  {
    var key := (t, g.stopId);
    var d := Get(rt.distance, key);
    var was := key in c.gps;
    if was && d.Some? && d.value > DepartureZone then (Omit, c.(gps := c.gps - {key}))
    else if d.Some? && d.value < ArrivalZone then
      (Estimate(0, Hybrid), if was then c else c.(gps := c.gps[key := now]))
    else if was then (Estimate(0, Hybrid), c)
    else
      var v := rt.vehicles[t];
      if UseHybrid(t, g.stopId, v, rt, net) && d.Some? && Speed(v, g.route.routeType) > 0.0
      then (Estimate(Max0(Round(d.value / Speed(v, g.route.routeType) / 60.0)), Hybrid), c)
      else (NoEstimate, c)
  }

  /** The live sources in their order: the operator's prediction, else the
      vehicle, unless an official arrival was flagged recently. */
  function LiveOutcome(t: string, g: Target, c: Caches, net: Network, rt: Snapshot, now: int): (Outcome, Caches)
  {
    var key := (t, g.stopId);
    var p := FreshPrediction(t, g.stopId, rt, now);
    if p.Some? then
      var eta := MinutesUntil(p.value, now);
      (Estimate(eta, Official), if eta == 0 then c.(recent := c.recent[key := now]) else c)
    else if t in rt.vehicles then
      if key in c.recent then (Omit, c) else GpsOutcome(t, g, c, net, rt, now)
    else (NoEstimate, c)
  }

  /** The timetable fallback: an active service whose scheduled time at the
      stop lies strictly within the next two hours. */
  function ScheduleOutcome(t: string, g: Target, net: Network, clock: Clock): Outcome
  {
    if g.trip.serviceId !in net.activeServices then NoEstimate
    else
      match ParseGtfsTime(Get(ScheduleOf(t, net), g.stopId).GetOr(""))
      case None => NoEstimate
      case Some(offset) =>
        var at := (clock.dayStart + offset) as real;
        if Instant(clock) < at < Instant(clock) + ScheduleHorizon as real then
          Estimate(MinutesBetween(at, Instant(clock)), Scheduled)
        else NoEstimate
  }

  /** One entry of the view; `alerts` is the alert map's entry for the
      route, if any. */
  datatype Arrival = Arrival(
    tripId: string, routeName: string, routeType: string, destination: string,
    eta: int, source: Source, isLive: bool, alerts: Option<seq<string>>)

  /** The alert map's key of a route. */
  function AlertKey(r: Route): string
  {
    r.shortName + "-" + r.routeType
  }

  function ArrivalOf(t: string, g: Target, eta: int, source: Source, alerts: map<string, seq<string>>): Arrival
  {
    Arrival(t, g.route.shortName, g.route.routeType, g.trip.headsign, eta, source, source != Scheduled,
            Get(alerts, AlertKey(g.route)))
  }

  /** What one trip contributes, and the caches after it. */
  function TripStep(t: string, c: Caches, net: Network, rt: Snapshot, alerts: map<string, seq<string>>,
                    stopOrder: seq<string>, clock: Clock): (Option<Arrival>, Caches)
  {
    match TargetOf(t, net, stopOrder)
    case None => (None, c)
    case Some(g) =>
      var (o, c') := LiveOutcome(t, g, c, net, rt, clock.now);
      var o' := if o.NoEstimate? then ScheduleOutcome(t, g, net, clock) else o;
      (if o'.Estimate? then Some(ArrivalOf(t, g, o'.eta, o'.source, alerts)) else None, c')
  }

  // ---------------------------------------------------------------------
  // properties of one trip

  /** A fresh prediction wins: an official, live estimate of the rounded
      minutes to it, flagged in the recent-official cache when it rounds to
      zero; the arrival zone cache is untouched. */
  lemma OfficialEstimate(t: string, c: Caches, net: Network, rt: Snapshot, alerts: map<string, seq<string>>,
                         stopOrder: seq<string>, clock: Clock)
    requires TargetOf(t, net, stopOrder).Some?
    requires FreshPrediction(t, TargetOf(t, net, stopOrder).value.stopId, rt, clock.now).Some?
    ensures var g := TargetOf(t, net, stopOrder).value;
      var p := rt.predictions[t][g.stopId];
      var (a, c') := TripStep(t, c, net, rt, alerts, stopOrder, clock);
      && a.Some? && a.value.source == Official && a.value.isLive
      && a.value.eta == MinutesUntil(p, clock.now) && a.value.eta >= 0
      && c'.gps == c.gps
      && c'.recent == (if a.value.eta == 0 then c.recent[(t, g.stopId) := clock.now] else c.recent)
  {
  }

  /** A live vehicle without a fresh prediction whose official arrival was
      flagged recently gives nothing at all, not even a timetable entry. */
  lemma RecentOfficialSuppresses(t: string, c: Caches, net: Network, rt: Snapshot, alerts: map<string, seq<string>>,
                                 stopOrder: seq<string>, clock: Clock)
    requires TargetOf(t, net, stopOrder).Some?
    requires FreshPrediction(t, TargetOf(t, net, stopOrder).value.stopId, rt, clock.now).None?
    requires t in rt.vehicles && (t, TargetOf(t, net, stopOrder).value.stopId) in c.recent
    ensures TripStep(t, c, net, rt, alerts, stopOrder, clock) == (None, c)
  {
  }

  /** The precondition the geofence lemmas share: a served trip, no fresh
      prediction, a live vehicle and no recent-official flag. */
  predicate ReachesGeofence(t: string, c: Caches, net: Network, rt: Snapshot, stopOrder: seq<string>, now: int)
  {
    && TargetOf(t, net, stopOrder).Some?
    && FreshPrediction(t, TargetOf(t, net, stopOrder).value.stopId, rt, now).None?
    && t in rt.vehicles
    && (t, TargetOf(t, net, stopOrder).value.stopId) !in c.recent
  }

  /** Leaving the departure zone with the flag set clears the flag and
      omits the trip. */
  lemma LeavingClearsFlag(t: string, c: Caches, net: Network, rt: Snapshot, alerts: map<string, seq<string>>,
                          stopOrder: seq<string>, clock: Clock)
    requires ReachesGeofence(t, c, net, rt, stopOrder, clock.now)
    requires var key := (t, TargetOf(t, net, stopOrder).value.stopId);
      key in c.gps && key in rt.distance && rt.distance[key] > DepartureZone
    ensures TripStep(t, c, net, rt, alerts, stopOrder, clock) ==
      (None, c.(gps := c.gps - {(t, TargetOf(t, net, stopOrder).value.stopId)}))
  {
  }

  /** Within the arrival zone: a hybrid estimate of 0 minutes, and the flag
      is set (keeping its time when already set). */
  lemma InArrivalZone(t: string, c: Caches, net: Network, rt: Snapshot, alerts: map<string, seq<string>>,
                      stopOrder: seq<string>, clock: Clock)
    requires ReachesGeofence(t, c, net, rt, stopOrder, clock.now)
    requires var key := (t, TargetOf(t, net, stopOrder).value.stopId);
      key in rt.distance && rt.distance[key] < ArrivalZone
    ensures var key := (t, TargetOf(t, net, stopOrder).value.stopId);
      var (a, c') := TripStep(t, c, net, rt, alerts, stopOrder, clock);
      && a.Some? && a.value.source == Hybrid && a.value.eta == 0 && a.value.isLive
      && c'.recent == c.recent
      && c'.gps == (if key in c.gps then c.gps else c.gps[key := clock.now])
  {
  }

  /** Flagged and not beyond the departure zone (or no distance known): the
      estimate stays a hybrid 0 minutes and nothing changes. */
  lemma FlagHolds(t: string, c: Caches, net: Network, rt: Snapshot, alerts: map<string, seq<string>>,
                  stopOrder: seq<string>, clock: Clock)
    requires ReachesGeofence(t, c, net, rt, stopOrder, clock.now)
    requires var key := (t, TargetOf(t, net, stopOrder).value.stopId);
      key in c.gps && (key in rt.distance ==> rt.distance[key] <= DepartureZone)
    ensures var (a, c') := TripStep(t, c, net, rt, alerts, stopOrder, clock);
      a.Some? && a.value.source == Hybrid && a.value.eta == 0 && a.value.isLive && c' == c
  {
  }

  /** Outside both zones and unflagged: an extrapolated hybrid estimate
      from the distance and the speed exactly when the extrapolation
      conditions hold; otherwise the timetable decides and the caches stay. */
  lemma Extrapolation(t: string, c: Caches, net: Network, rt: Snapshot, alerts: map<string, seq<string>>,
                      stopOrder: seq<string>, clock: Clock)
    requires ReachesGeofence(t, c, net, rt, stopOrder, clock.now)
    requires var key := (t, TargetOf(t, net, stopOrder).value.stopId);
      key !in c.gps && (key in rt.distance ==> rt.distance[key] >= ArrivalZone)
    ensures var g := TargetOf(t, net, stopOrder).value;
      var key := (t, g.stopId);
      var v := rt.vehicles[t];
      var (a, c') := TripStep(t, c, net, rt, alerts, stopOrder, clock);
      && c' == c
      && (UseHybrid(t, g.stopId, v, rt, net) && key in rt.distance ==>
            a == Some(ArrivalOf(t, g, Max0(Round(rt.distance[key] / Speed(v, g.route.routeType) / 60.0)), Hybrid, alerts)))
      && (!(UseHybrid(t, g.stopId, v, rt, net) && key in rt.distance) ==>
            a == (match ScheduleOutcome(t, g, net, clock)
                  case Estimate(eta, source) => Some(ArrivalOf(t, g, eta, source, alerts))
                  case _ => None))
  {
  }

  /** A hybrid estimate above zero minutes is always an extrapolation: no
      fresh prediction, a live unflagged vehicle outside the arrival zone and
      the extrapolation conditions met. */
  lemma HybridAboveZeroIsExtrapolated(t: string, c: Caches, net: Network, rt: Snapshot, alerts: map<string, seq<string>>,
                                      stopOrder: seq<string>, clock: Clock)
    requires var a := TripStep(t, c, net, rt, alerts, stopOrder, clock).0;
      a.Some? && a.value.source == Hybrid && a.value.eta > 0
    ensures ReachesGeofence(t, c, net, rt, stopOrder, clock.now)
    ensures var key := (t, TargetOf(t, net, stopOrder).value.stopId);
      && key !in c.gps && key in rt.distance && rt.distance[key] >= ArrivalZone
      && UseHybrid(t, key.1, rt.vehicles[t], rt, net)
  {
  }

  /** A timetable estimate means no live source answered: no fresh
      prediction, and for a live vehicle neither a recent-official flag, nor
      the geofence, nor extrapolation. It lies strictly within two hours and
      is not live. */
  lemma ScheduledOnlyAsFallback(t: string, c: Caches, net: Network, rt: Snapshot, alerts: map<string, seq<string>>,
                                stopOrder: seq<string>, clock: Clock)
    requires var a := TripStep(t, c, net, rt, alerts, stopOrder, clock).0;
      a.Some? && a.value.source == Scheduled
    ensures TargetOf(t, net, stopOrder).Some?
    ensures var g := TargetOf(t, net, stopOrder).value;
      var key := (t, g.stopId);
      var a := TripStep(t, c, net, rt, alerts, stopOrder, clock).0.value;
      && FreshPrediction(t, g.stopId, rt, clock.now).None?
      && (t in rt.vehicles ==>
            && key !in c.recent && key !in c.gps
            && (key in rt.distance ==> rt.distance[key] >= ArrivalZone)
            && !(UseHybrid(t, g.stopId, rt.vehicles[t], rt, net) && key in rt.distance))
      && g.trip.serviceId in net.activeServices
      && !a.isLive && 0 <= a.eta <= 120
      && ParseGtfsTime(ScheduleOf(t, net)[g.stopId]).Some?
      && var at := (clock.dayStart + ParseGtfsTime(ScheduleOf(t, net)[g.stopId]).value) as real;
         Instant(clock) < at < Instant(clock) + ScheduleHorizon as real && a.eta == MinutesBetween(at, Instant(clock))
    ensures TripStep(t, c, net, rt, alerts, stopOrder, clock).1 == c
  {
    var g := TargetOf(t, net, stopOrder).value;
    LiveSilent(t, g, c, net, rt, clock.now);
    ScheduleEstimate(t, g, net, clock);
  }

  /** No live source answers exactly when there is no fresh prediction and,
      for a live vehicle, no recent-official flag, no geofence and no
      extrapolation; the caches then stay. */
  lemma LiveSilent(t: string, g: Target, c: Caches, net: Network, rt: Snapshot, now: int)
    ensures var key := (t, g.stopId);
      LiveOutcome(t, g, c, net, rt, now).0.NoEstimate? <==>
        && FreshPrediction(t, g.stopId, rt, now).None?
        && (t in rt.vehicles ==>
              && key !in c.recent && key !in c.gps
              && (key in rt.distance ==> rt.distance[key] >= ArrivalZone)
              && !(UseHybrid(t, g.stopId, rt.vehicles[t], rt, net) && key in rt.distance))
    ensures LiveOutcome(t, g, c, net, rt, now).0.NoEstimate? ==> LiveOutcome(t, g, c, net, rt, now).1 == c
  {
  }

  /** A timetable estimate comes from an active service whose time at the
      stop lies strictly within the next two hours, at most 120 minutes. */
  lemma ScheduleEstimate(t: string, g: Target, net: Network, clock: Clock)
    requires ScheduleOutcome(t, g, net, clock).Estimate?
    ensures var o := ScheduleOutcome(t, g, net, clock);
      && o.source == Scheduled && 0 <= o.eta <= 120
      && g.trip.serviceId in net.activeServices
      && g.stopId in ScheduleOf(t, net) && ParseGtfsTime(ScheduleOf(t, net)[g.stopId]).Some?
      && var at := (clock.dayStart + ParseGtfsTime(ScheduleOf(t, net)[g.stopId]).value) as real;
         Instant(clock) < at < Instant(clock) + ScheduleHorizon as real && o.eta == MinutesBetween(at, Instant(clock))
  {
    var offset := ParseGtfsTime(Get(ScheduleOf(t, net), g.stopId).GetOr("")).value;
    MinutesBounded((clock.dayStart + offset) as real, Instant(clock));
  }

  /** Fewer than two hours ahead are at most 120 minutes. */
  lemma MinutesBounded(at: real, from: real)
    requires from < at < from + ScheduleHorizon as real
    ensures 0 <= MinutesBetween(at, from) <= 120
  {
    var x := (at - from) / 60.0;
    assert x < 120.0;
    var r := Round(x);
    assert r as real - x <= 0.5;
  }

  /** Every entry is for the trip itself and its route, never negative,
      live exactly when not from the timetable, and carries the route's
      alerts; only the trip's own cache keys change, the recent-official
      one only to `now`, and an estimate never clears a flag. */
  lemma TripStepShape(t: string, c: Caches, net: Network, rt: Snapshot, alerts: map<string, seq<string>>,
                      stopOrder: seq<string>, clock: Clock)
    ensures var (a, c') := TripStep(t, c, net, rt, alerts, stopOrder, clock);
      && (a.Some? ==>
            && TargetOf(t, net, stopOrder).Some?
            && var g := TargetOf(t, net, stopOrder).value;
            && a.value.tripId == t && a.value.routeName == g.route.shortName && a.value.routeType == g.route.routeType
            && a.value.destination == g.trip.headsign
            && a.value.eta >= 0
            && (a.value.isLive <==> a.value.source != Scheduled)
            && a.value.alerts == Get(alerts, AlertKey(g.route))
            && c'.gps.Keys >= c.gps.Keys)
      && c'.recent.Keys >= c.recent.Keys
      && (forall k :: k in c'.recent && k !in c.recent ==> TargetOf(t, net, stopOrder).Some? && k == (t, TargetOf(t, net, stopOrder).value.stopId))
      && (forall k :: k in c'.recent ==> (k in c.recent && c'.recent[k] == c.recent[k]) || c'.recent[k] == clock.now)
      && (forall k :: k in c.gps && k in c'.gps ==> c'.gps[k] == c.gps[k])
      && (forall k :: k in c'.gps && k !in c.gps ==> c'.gps[k] == clock.now && k == (t, TargetOf(t, net, stopOrder).value.stopId))
      && (forall k :: k in c.gps && k !in c'.gps ==> k == (t, TargetOf(t, net, stopOrder).value.stopId))
  {
    var (a, c') := TripStep(t, c, net, rt, alerts, stopOrder, clock);
    if a.Some? {
      var g := TargetOf(t, net, stopOrder).value;
      if a.value.source == Scheduled {
        ScheduledOnlyAsFallback(t, c, net, rt, alerts, stopOrder, clock);
      }
    }
  }

  /** The geofence over two passes: a vehicle 30 m from the stop gets a
      0-minute hybrid estimate and the flag; a later pass, within the flag's
      lifetime, that finds it 90 m away omits the trip and clears the flag. */
  lemma ArriveThenLeave(t: string, c: Caches, net: Network, rt1: Snapshot, rt2: Snapshot,
                        alerts: map<string, seq<string>>, stopOrder: seq<string>, clock1: Clock, clock2: Clock)
    requires ReachesGeofence(t, c, net, rt1, stopOrder, clock1.now)
    requires var key := (t, TargetOf(t, net, stopOrder).value.stopId);
      key !in c.gps && key in rt1.distance && rt1.distance[key] == 30.0
    requires var c1 := Sweep(TripStep(t, c, net, rt1, alerts, stopOrder, clock1).1, clock2.now);
      ReachesGeofence(t, c1, net, rt2, stopOrder, clock2.now)
    requires var key := (t, TargetOf(t, net, stopOrder).value.stopId);
      key in rt2.distance && rt2.distance[key] == 90.0
    requires clock1.now <= clock2.now <= clock1.now + GpsCacheTtl
    ensures var (a1, c1) := TripStep(t, c, net, rt1, alerts, stopOrder, clock1);
      a1.Some? && a1.value.source == Hybrid && a1.value.eta == 0
    ensures var c1 := Sweep(TripStep(t, c, net, rt1, alerts, stopOrder, clock1).1, clock2.now);
      var (a2, c2) := TripStep(t, c1, net, rt2, alerts, stopOrder, clock2);
      a2.None? && (t, TargetOf(t, net, stopOrder).value.stopId) !in c2.gps
  {
    var key := (t, TargetOf(t, net, stopOrder).value.stopId);
    InArrivalZone(t, c, net, rt1, alerts, stopOrder, clock1);
    var c1 := Sweep(TripStep(t, c, net, rt1, alerts, stopOrder, clock1).1, clock2.now);
    assert key in c1.gps;
    LeavingClearsFlag(t, c1, net, rt2, alerts, stopOrder, clock2);
  }

  // ---------------------------------------------------------------------
  // the cache sweep and a whole pass

  /** The entries of `m` no older than `ttl` at `now`. */
  function Fresh(m: map<(string, string), int>, now: int, ttl: int): (r: map<(string, string), int>)
    ensures forall k :: k in r <==> k in m && now - m[k] <= ttl
    ensures forall k :: k in r ==> r[k] == m[k]
  {
    map k | k in m && now - m[k] <= ttl :: m[k]
  }

  /** The sweep at the start of a pass. */
  function Sweep(c: Caches, now: int): Caches
  {
    Caches(Fresh(c.recent, now, RecentOfficialTtl), Fresh(c.gps, now, GpsCacheTtl))
  }

  /** The entries and cache state after the trips of `ts`, in order. */
  function Pass(ts: seq<string>, c: Caches, net: Network, rt: Snapshot, alerts: map<string, seq<string>>,
                stopOrder: seq<string>, clock: Clock): (seq<Arrival>, Caches)
  {
    if ts == [] then ([], c)
    else
      var (out, c1) := Pass(ts[..|ts| - 1], c, net, rt, alerts, stopOrder, clock);
      var (a, c2) := TripStep(ts[|ts| - 1], c1, net, rt, alerts, stopOrder, clock);
      (out + (if a.Some? then [a.value] else []), c2)
  }

  lemma PassStep(ts: seq<string>, i: int, c: Caches, net: Network, rt: Snapshot, alerts: map<string, seq<string>>,
                 stopOrder: seq<string>, clock: Clock)
    requires 0 <= i < |ts|
    ensures var p := Pass(ts[..i], c, net, rt, alerts, stopOrder, clock);
      var step := TripStep(ts[i], p.1, net, rt, alerts, stopOrder, clock);
      Pass(ts[..i + 1], c, net, rt, alerts, stopOrder, clock) == (p.0 + (if step.0.Some? then [step.0.value] else []), step.1)
  {
    assert ts[..i + 1][..i] == ts[..i];
  }

  /** Entries for the trips `ts`: never negative, live exactly when not from
      the timetable, and, over distinct trips, no trip twice. */
  ghost predicate EntriesOf(out: seq<Arrival>, ts: seq<string>)
  {
    && (forall i :: 0 <= i < |out| ==> out[i].tripId in ts && out[i].eta >= 0 && (out[i].isLive <==> out[i].source != Scheduled))
    && (NoDuplicates(ts) ==> forall i, j :: 0 <= i < j < |out| ==> out[i].tripId != out[j].tripId)
  }

  /** Each entry of a pass is for one of its trips; over distinct trips no
      trip appears twice; every entry is never negative and live exactly
      when not from the timetable. */
  lemma {:induction false} PassEntries(ts: seq<string>, c: Caches, net: Network, rt: Snapshot,
                                       alerts: map<string, seq<string>>, stopOrder: seq<string>, clock: Clock)
    ensures EntriesOf(Pass(ts, c, net, rt, alerts, stopOrder, clock).0, ts)
  {
    if ts != [] {
      var init := ts[..|ts| - 1];
      var t := ts[|ts| - 1];
      PassEntries(init, c, net, rt, alerts, stopOrder, clock);
      var (out, c1) := Pass(init, c, net, rt, alerts, stopOrder, clock);
      var (a, c2) := TripStep(t, c1, net, rt, alerts, stopOrder, clock);
      TripStepShape(t, c1, net, rt, alerts, stopOrder, clock);
      var out' := out + (if a.Some? then [a.value] else []);
      assert Pass(ts, c, net, rt, alerts, stopOrder, clock).0 == out';
      assert t in ts;
      assert forall x :: x in init ==> x in ts;
      forall i | 0 <= i < |out'|
        ensures out'[i].tripId in ts && out'[i].eta >= 0 && (out'[i].isLive <==> out'[i].source != Scheduled)
      {
        if i < |out| {
          assert out'[i] == out[i];
          assert out[i].tripId in init;
        } else {
          assert out'[i] == a.value;
        }
      }
      if NoDuplicates(ts) {
        assert NoDuplicates(init);
        forall i, j | 0 <= i < j < |out'| ensures out'[i].tripId != out'[j].tripId {
          if j < |out| {
            assert out'[i] == out[i] && out'[j] == out[j];
          } else {
            assert out'[i] == out[i] && out'[j] == a.value;
            var p :| 0 <= p < |init| && init[p] == out[i].tripId;
            assert ts[p] == init[p];
          }
        }
      }
    }
  }

  /** The view's order: live entries first, then by minutes. */
  predicate LiveFirst(a: Arrival, b: Arrival)
  {
    (a.isLive && !b.isLive) || (a.isLive == b.isLive && a.eta <= b.eta)
  }

  lemma LiveFirstIsTotalPreorder()
    ensures TotalPreorder(LiveFirst)
  {
  }

  datatype StopResult = StopNotFound | Arrivals(list: seq<Arrival>)

  /** The trips through the stop or a stop sharing its code. */
  function CandidateTrips(stopId: string, net: Network): set<string>
    requires stopId in net.stops
  {
    TripsThrough(PhysicalStops(stopId, net.stops[stopId].stopCode, net.stops), net.stopToTrips)
  }

  /** The view for `stopId`, given the iteration orders of the physical stops
      and of the candidate trips: 404 for an unknown stop, otherwise the
      sweep, a pass over the trips and the entries sorted live first. */
  function VehiclesAt(stopId: string, c: Caches, net: Network, rt: Snapshot, alerts: map<string, seq<string>>,
                      stopOrder: seq<string>, tripOrder: seq<string>, clock: Clock): (StopResult, Caches)
  {
    if stopId !in net.stops then (StopNotFound, c)
    else
      var (out, c') := Pass(tripOrder, Sweep(c, clock.now), net, rt, alerts, stopOrder, clock);
      LiveFirstIsTotalPreorder();
      (Arrivals(SortBy(out, LiveFirst)), c')
  }

  /** The view answers 404 exactly for an unknown stop and then changes no
      cache. */
  lemma NotFoundSpec(stopId: string, c: Caches, net: Network, rt: Snapshot, alerts: map<string, seq<string>>,
                     stopOrder: seq<string>, tripOrder: seq<string>, clock: Clock)
    ensures var (r, c') := VehiclesAt(stopId, c, net, rt, alerts, stopOrder, tripOrder, clock);
      && (r == StopNotFound <==> stopId !in net.stops)
      && (r == StopNotFound ==> c' == c)
  {
  }

  /** For a known stop the list is a permutation of the pass's entries that
      holds each candidate trip at most once, all live entries before the
      timetable ones and, within each group, ascending minutes. */
  lemma ArrivalsSpec(stopId: string, c: Caches, net: Network, rt: Snapshot, alerts: map<string, seq<string>>,
                     stopOrder: seq<string>, tripOrder: seq<string>, clock: Clock)
    requires stopId in net.stops
    requires IsOrderOf(tripOrder, CandidateTrips(stopId, net))
    ensures VehiclesAt(stopId, c, net, rt, alerts, stopOrder, tripOrder, clock).0.Arrivals?
    ensures var list := VehiclesAt(stopId, c, net, rt, alerts, stopOrder, tripOrder, clock).0.list;
      && multiset(list) == multiset(Pass(tripOrder, Sweep(c, clock.now), net, rt, alerts, stopOrder, clock).0)
      && ArrivalList(list, CandidateTrips(stopId, net))
  {
    var out := Pass(tripOrder, Sweep(c, clock.now), net, rt, alerts, stopOrder, clock).0;
    PassEntries(tripOrder, Sweep(c, clock.now), net, rt, alerts, stopOrder, clock);
    LiveFirstIsTotalPreorder();
    SortedEntries(out, CandidateTrips(stopId, net));
  }

  /** An answer of the view over the candidate trips `ids`. */
  ghost predicate ArrivalList(list: seq<Arrival>, ids: set<string>)
  {
    && (forall i :: 0 <= i < |list| ==> list[i].tripId in ids && list[i].eta >= 0)
    && (forall i, j :: 0 <= i < j < |list| ==> list[i].tripId != list[j].tripId)
    && (forall i, j :: 0 <= i < j < |list| ==> list[i].isLive || !list[j].isLive)
    && (forall i, j :: 0 <= i < j < |list| && list[i].isLive == list[j].isLive ==> list[i].eta <= list[j].eta)
    && (forall i :: 0 <= i < |list| ==> (list[i].isLive <==> list[i].source != Scheduled))
  }

  /** Sorting a pass's entries live first gives an answer of the view. */
  lemma SortedEntries(out: seq<Arrival>, ids: set<string>)
    requires forall i :: 0 <= i < |out| ==> out[i].tripId in ids && out[i].eta >= 0 && (out[i].isLive <==> out[i].source != Scheduled)
    requires forall i, j :: 0 <= i < j < |out| ==> out[i].tripId != out[j].tripId
    requires TotalPreorder(LiveFirst)
    ensures ArrivalList(SortBy(out, LiveFirst), ids)
  {
    var list := SortBy(out, LiveFirst);
    SortedLiveFirst(list);
    forall i | 0 <= i < |list|
      ensures list[i].tripId in ids && list[i].eta >= 0 && (list[i].isLive <==> list[i].source != Scheduled)
    {
      assert list[i] in multiset(out);
      var p :| 0 <= p < |out| && out[p] == list[i];
    }
    PermutationKeepsTripIds(out, list);
  }

  /** What sorted by `LiveFirst` means. */
  lemma SortedLiveFirst(list: seq<Arrival>)
    requires SortedBy(list, LiveFirst)
    ensures forall i, j :: 0 <= i < j < |list| ==> list[i].isLive || !list[j].isLive
    ensures forall i, j :: 0 <= i < j < |list| && list[i].isLive == list[j].isLive ==> list[i].eta <= list[j].eta
  {
    forall i, j | 0 <= i < j < |list| ensures list[i].isLive || !list[j].isLive {
      assert LiveFirst(list[i], list[j]);
    }
  }

  /** Reordering keeps trip ids distinct. */
  lemma PermutationKeepsTripIds(s: seq<Arrival>, r: seq<Arrival>)
    requires multiset(s) == multiset(r)
    requires forall i, j :: 0 <= i < j < |s| ==> s[i].tripId != s[j].tripId
    ensures forall i, j :: 0 <= i < j < |r| ==> r[i].tripId != r[j].tripId
  {
    forall i, j | 0 <= i < j < |r| ensures r[i].tripId != r[j].tripId {
      assert r[i] in multiset(s) && r[j] in multiset(s);
      var p :| 0 <= p < |s| && s[p] == r[i];
      var q :| 0 <= q < |s| && s[q] == r[j];
      if r[i] == r[j] {
        TwoOccurrences(r, i, j);
        CountOne(s, p);
      }
    }
  }

  // ---------------------------------------------------------------------
  // the engine

  /** The stale keys of a cache. */
  function Stale(m: map<(string, string), int>, now: int, ttl: int): (ks: set<(string, string)>)
    ensures forall k :: k in ks <==> k in m && now - m[k] > ttl
  {
    set k | k in m && now - m[k] > ttl
  }

  /** The backend's geofence state: `recent_official_arrivals_cache` and
      `gps_arrival_cache`. */
  class ArrivalEngine {
    var recentOfficial: map<(string, string), int>
    var gpsArrival: map<(string, string), int>

    constructor ()
      ensures recentOfficial == map[] && gpsArrival == map[]
    {
      recentOfficial := map[];
      gpsArrival := map[];
    }

    function State(): Caches
      reads this
    {
      Caches(recentOfficial, gpsArrival)
    }

    /** Deletes every entry older than its cache's lifetime and nothing
        else. */
    method SweepExpired(now: int)
      modifies this
      ensures State() == Sweep(old(State()), now)
    {
      var staleOfficial := Stale(recentOfficial, now, RecentOfficialTtl);
      ghost var official0, allOfficial := recentOfficial, staleOfficial;
      while staleOfficial != {}
        invariant staleOfficial <= allOfficial
        invariant gpsArrival == old(gpsArrival)
        invariant forall k :: k in recentOfficial <==> k in official0 && k !in allOfficial - staleOfficial
        invariant forall k :: k in recentOfficial ==> recentOfficial[k] == official0[k]
        decreases staleOfficial
      {
        var k :| k in staleOfficial;
        recentOfficial := recentOfficial - {k};
        staleOfficial := staleOfficial - {k};
      }
      assert recentOfficial == Fresh(official0, now, RecentOfficialTtl);
      var staleGps := Stale(gpsArrival, now, GpsCacheTtl);
      ghost var gps0, allGps := gpsArrival, staleGps;
      while staleGps != {}
        invariant staleGps <= allGps
        invariant recentOfficial == Fresh(official0, now, RecentOfficialTtl)
        invariant forall k :: k in gpsArrival <==> k in gps0 && k !in allGps - staleGps
        invariant forall k :: k in gpsArrival ==> gpsArrival[k] == gps0[k]
        decreases staleGps
      {
        var k :| k in staleGps;
        gpsArrival := gpsArrival - {k};
        staleGps := staleGps - {k};
      }
      assert gpsArrival == Fresh(gps0, now, GpsCacheTtl);
    }

    /** The body of the view's loop for trip `t`. */
    method EstimateTrip(t: string, net: Network, rt: Snapshot, alerts: map<string, seq<string>>,
                        stopOrder: seq<string>, clock: Clock) returns (a: Option<Arrival>)
      modifies this
      ensures (a, State()) == TripStep(t, old(State()), net, rt, alerts, stopOrder, clock)
    {
      a := None;
      if t !in net.trips { return; }
      var trip := net.trips[t];
      var schedule := ScheduleOf(t, net);
      var relevant := FirstScheduled(stopOrder, schedule);
      if relevant.None? || relevant.value == "" { return; }
      var s := relevant.value;
      if trip.routeId !in net.routes { return; }
      var route := net.routes[trip.routeId];
      var key := (t, s);
      var eta: int := 0;
      var source: Option<Source> := None;
      var predicted := FreshPrediction(t, s, rt, clock.now);
      if predicted.Some? {
        eta, source := MinutesUntil(predicted.value, clock.now), Some(Official);
        if eta == 0 {
          recentOfficial := recentOfficial[key := clock.now];
        }
      } else if t in rt.vehicles {
        if key in recentOfficial { return; }
        var vehicle := rt.vehicles[t];
        var distance := Get(rt.distance, key);
        var wasInArrivalZone := key in gpsArrival;
        if wasInArrivalZone && distance.Some? && distance.value > DepartureZone {
          gpsArrival := gpsArrival - {key};
          return;
        }
        if distance.Some? && distance.value < ArrivalZone {
          eta, source := 0, Some(Hybrid);
          if !wasInArrivalZone {
            gpsArrival := gpsArrival[key := clock.now];
          }
        } else if wasInArrivalZone {
          eta, source := 0, Some(Hybrid);
        } else if UseHybrid(t, s, vehicle, rt, net) {
          var speed := Speed(vehicle, route.routeType);
          if distance.Some? && speed > 0.0 {
            eta, source := Max0(Round(distance.value / speed / 60.0)), Some(Hybrid);
          }
        }
      }
      if source.None? {
        var fallback := ScheduleOutcome(t, Target(trip, route, s), net, clock);
        if fallback.Estimate? {
          eta, source := fallback.eta, Some(Scheduled);
        }
      }
      if source.Some? {
        a := Some(ArrivalOf(t, Target(trip, route, s), eta, source.value, alerts));
      }
    }

    /** `get_vehicles_for_stop` over the given snapshot, with the iteration
        orders of its two sets as inputs; `alerts` is the alert map the
        request reads, taken as given. */
    method VehiclesForStop(stopId: string, net: Network, rt: Snapshot, alerts: map<string, seq<string>>,
                           stopOrder: seq<string>, tripOrder: seq<string>, clock: Clock) returns (r: StopResult)
      requires stopId in net.stops ==> IsOrderOf(stopOrder, PhysicalStops(stopId, net.stops[stopId].stopCode, net.stops))
      requires stopId in net.stops ==> IsOrderOf(tripOrder, CandidateTrips(stopId, net))
      modifies this
      ensures (r, State()) == VehiclesAt(stopId, old(State()), net, rt, alerts, stopOrder, tripOrder, clock)
    {
      if stopId !in net.stops {
        return StopNotFound;
      }
      SweepExpired(clock.now);
      ghost var c0 := State();
      var out: seq<Arrival> := [];
      for i := 0 to |tripOrder|
        invariant (out, State()) == Pass(tripOrder[..i], c0, net, rt, alerts, stopOrder, clock)
      {
        PassStep(tripOrder, i, c0, net, rt, alerts, stopOrder, clock);
        ghost var before := State();
        assert out == Pass(tripOrder[..i], c0, net, rt, alerts, stopOrder, clock).0;
        assert before == Pass(tripOrder[..i], c0, net, rt, alerts, stopOrder, clock).1;
        var a := EstimateTrip(tripOrder[i], net, rt, alerts, stopOrder, clock);
        assert (a, State()) == TripStep(tripOrder[i], before, net, rt, alerts, stopOrder, clock);
        ghost var out0 := out;
        if a.Some? {
          out := out + [a.value];
        }
        assert out == out0 + (if a.Some? then [a.value] else []);
        assert out == Pass(tripOrder[..i + 1], c0, net, rt, alerts, stopOrder, clock).0;
        assert State() == Pass(tripOrder[..i + 1], c0, net, rt, alerts, stopOrder, clock).1;
        assert (out, State()) == Pass(tripOrder[..i + 1], c0, net, rt, alerts, stopOrder, clock);
      }
      assert tripOrder[..|tripOrder|] == tripOrder;
      LiveFirstIsTotalPreorder();
      r := Arrivals(SortBy(out, LiveFirst));
    }
  }
}
