/** The static indexes `load_static_data` builds: the trolleybus recoding of
    `routes.txt`, and the per-trip and per-stop indexes filled row by row
    from `stop_times.txt`. */
module ScheduleIndex {
  import opened Common
  import opened GtfsData
  import opened Sorting

  // ---------------------------------------------------------------------
  // trolleybus recoding

  /** The route ids that stay trolleybus lines; every other route of type
      11 is recoded as a bus line. */
  const ImmuneTrolleybusRouteIds: set<string> :=
    {"TB10", "TB9", "TB32", "TB1", "TB3", "TB6", "TB7", "TB4", "TB8", "TB2", "TB27", "TB30", "TB21", "TB40"}

  /** The route stored under `id` after recoding. */
  function Recoded(id: string, r: Route): (r': Route)
    ensures r'.routeType == TrolleybusType ==> id in ImmuneTrolleybusRouteIds
    ensures r'.routeId == r.routeId && r'.shortName == r.shortName
    ensures r'.routeType != r.routeType ==> r.routeType == TrolleybusType && r'.routeType == BusType
    ensures r.routeType != TrolleybusType || id in ImmuneTrolleybusRouteIds ==> r' == r
  {
    if r.routeType == TrolleybusType && id !in ImmuneTrolleybusRouteIds then r.(routeType := BusType) else r
  }

  /** Recoding a second time changes nothing. */
  lemma RecodingIsIdempotent(id: string, r: Route)
    ensures Recoded(id, Recoded(id, r)) == Recoded(id, r)
  {
  }

  /** Rewrites, route by route, the type of every trolleybus route outside
      the immune list to bus. */
  method RecodeTrolleybuses(routes: map<string, Route>) returns (recoded: map<string, Route>)
    ensures recoded.Keys == routes.Keys
    ensures forall id :: id in routes ==> recoded[id] == Recoded(id, routes[id])
  {
    recoded := routes;
    var todo := routes.Keys;
    while todo != {}
      invariant todo <= routes.Keys && recoded.Keys == routes.Keys
      invariant forall id :: id in routes && id !in todo ==> recoded[id] == Recoded(id, routes[id])
      invariant forall id :: id in todo ==> recoded[id] == routes[id]
      decreases |todo|
    {
      var id :| id in todo;
      if routes[id].routeType == TrolleybusType && id !in ImmuneTrolleybusRouteIds {
        recoded := recoded[id := routes[id].(routeType := BusType)];
      }
      todo := todo - {id};
    }
  }

  // ---------------------------------------------------------------------
  // the stop_times.txt indexes

  /** One element of a trip's stop sequence. */
  datatype SeqEntry = SeqEntry(stopId: string, stopSequence: int)

  /** The indexes, named after the dictionaries they model. */
  datatype ScheduleIndex = ScheduleIndex(
    usedStopIds: set<string>,
    scheduleByTrip: map<string, map<string, string>>,
    tripStopsSequence: map<string, seq<SeqEntry>>,
    tripStopSequences: map<string, map<string, int>>,
    stopToTrips: map<string, seq<string>>,
    stopServiceTypes: map<string, set<Category>>)

  /** A row whose `stop_sequence` `int()` accepts; other rows only mark
      their stop as used. */
  predicate Accepted(row: StopTimeRow)
  {
    row.stopSequence.Some?
  }

  function SequenceNumber(row: StopTimeRow): int
    requires Accepted(row)
  {
    row.stopSequence.value
  }

  predicate MatchesStop(row: StopTimeRow, t: string, s: string)
  {
    Accepted(row) && row.tripId == t && row.stopId == s
  }

  /** The last accepted row of trip `t` at stop `s`. */
  function LastMatch(rows: seq<StopTimeRow>, t: string, s: string): (r: Option<StopTimeRow>)
    ensures r.Some? ==> MatchesStop(r.value, t, s)
  {
    if rows == [] then None
    else if MatchesStop(rows[|rows| - 1], t, s) then Some(rows[|rows| - 1])
    else LastMatch(rows[..|rows| - 1], t, s)
  }

  /** `LastMatch` finds a row exactly when some row matches, and the row it
      finds is followed by no other match. */
  lemma {:induction false} LastMatchIsLast(rows: seq<StopTimeRow>, t: string, s: string)
    ensures LastMatch(rows, t, s).Some? <==> exists i :: 0 <= i < |rows| && MatchesStop(rows[i], t, s)
    ensures LastMatch(rows, t, s).Some? ==>
      exists i :: 0 <= i < |rows| && rows[i] == LastMatch(rows, t, s).value &&
        forall j :: i < j < |rows| ==> !MatchesStop(rows[j], t, s)
  {
    if rows != [] {
      var init := rows[..|rows| - 1];
      LastMatchIsLast(init, t, s);
      if !MatchesStop(rows[|rows| - 1], t, s) {
        if LastMatch(init, t, s).Some? {
          var i :| 0 <= i < |init| && init[i] == LastMatch(init, t, s).value &&
            forall j :: i < j < |init| ==> !MatchesStop(init[j], t, s);
          assert rows[i] == init[i];
          assert forall j :: i < j < |rows| ==> !MatchesStop(rows[j], t, s) by {
            forall j | i < j < |rows| ensures !MatchesStop(rows[j], t, s) {
              if j < |init| { assert rows[j] == init[j]; }
            }
          }
        } else {
          forall i | 0 <= i < |rows| ensures !MatchesStop(rows[i], t, s) {
            if i < |init| { assert rows[i] == init[i]; }
          }
        }
      }
    }
  }

  /** The stop-sequence entries of trip `t`, in file order. */
  function TripEntries(rows: seq<StopTimeRow>, t: string): (r: seq<SeqEntry>)
    ensures |r| <= |rows|
  {
    if rows == [] then []
    else
      var last := rows[|rows| - 1];
      var init := TripEntries(rows[..|rows| - 1], t);
      if Accepted(last) && last.tripId == t then init + [SeqEntry(last.stopId, SequenceNumber(last))] else init
  }

  /** A trip's entries are exactly its accepted rows. */
  lemma {:induction false} TripEntriesMembers(rows: seq<StopTimeRow>, t: string, e: SeqEntry)
    ensures e in TripEntries(rows, t) <==>
      exists i :: 0 <= i < |rows| && Accepted(rows[i]) && rows[i].tripId == t &&
        e == SeqEntry(rows[i].stopId, SequenceNumber(rows[i]))
  {
    if rows != [] {
      var init := rows[..|rows| - 1];
      TripEntriesMembers(init, t, e);
      if e in TripEntries(init, t) {
        var i :| 0 <= i < |init| && Accepted(init[i]) && init[i].tripId == t &&
          e == SeqEntry(init[i].stopId, SequenceNumber(init[i]));
        assert rows[i] == init[i];
      }
      if exists i :: 0 <= i < |rows| && Accepted(rows[i]) && rows[i].tripId == t &&
          e == SeqEntry(rows[i].stopId, SequenceNumber(rows[i])) {
        var i :| 0 <= i < |rows| && Accepted(rows[i]) && rows[i].tripId == t &&
          e == SeqEntry(rows[i].stopId, SequenceNumber(rows[i]));
        if i < |init| {
          assert rows[i] == init[i];
        }
      }
    }
  }

  /** A trip has entries iff it has an accepted row at some stop. */
  lemma TripEntriesNonEmpty(rows: seq<StopTimeRow>, t: string, s: string)
    requires LastMatch(rows, t, s).Some?
    ensures SeqEntry(s, SequenceNumber(LastMatch(rows, t, s).value)) in TripEntries(rows, t)
  {
    LastMatchIsLast(rows, t, s);
    var i :| 0 <= i < |rows| && rows[i] == LastMatch(rows, t, s).value &&
      forall j :: i < j < |rows| ==> !MatchesStop(rows[j], t, s);
    TripEntriesMembers(rows, t, SeqEntry(s, SequenceNumber(LastMatch(rows, t, s).value)));
  }

  /** The trips of the accepted rows at stop `s`, in file order, repeats
      kept. */
  function TripsAt(rows: seq<StopTimeRow>, s: string): (r: seq<string>)
    ensures |r| <= |rows|
  {
    if rows == [] then []
    else
      var last := rows[|rows| - 1];
      var init := TripsAt(rows[..|rows| - 1], s);
      if Accepted(last) && last.stopId == s then init + [last.tripId] else init
  }

  /** A row whose trip and whose trip's route are known; only such rows
      create a stop's service-type entry. */
  predicate Classified(row: StopTimeRow, trips: map<string, Trip>, routes: map<string, Route>)
  {
    Accepted(row) && row.tripId in trips && trips[row.tripId].routeId in routes
  }

  function RouteOf(row: StopTimeRow, trips: map<string, Trip>, routes: map<string, Route>): Route
    requires Classified(row, trips, routes)
  {
    routes[trips[row.tripId].routeId]
  }

  predicate BySequence(a: SeqEntry, b: SeqEntry)
  {
    a.stopSequence <= b.stopSequence
  }

  lemma BySequenceIsTotalPreorder()
    ensures TotalPreorder(BySequence)
  {
  }

  /** Whether `s` lies on trip `t`, or is served at all, according to a
      prefix of the rows. */
  predicate HasTripRow(rows: seq<StopTimeRow>, t: string)
  {
    exists i :: 0 <= i < |rows| && Accepted(rows[i]) && rows[i].tripId == t
  }

  predicate HasClassifiedRow(rows: seq<StopTimeRow>, s: string, trips: map<string, Trip>, routes: map<string, Route>)
  {
    exists i :: 0 <= i < |rows| && rows[i].stopId == s && Classified(rows[i], trips, routes)
  }

  predicate GivesCategory(rows: seq<StopTimeRow>, s: string, c: Category, trips: map<string, Trip>, routes: map<string, Route>)
  {
    exists i :: 0 <= i < |rows| && rows[i].stopId == s && Classified(rows[i], trips, routes) &&
      StopCategory(RouteOf(rows[i], trips, routes)) == Some(c)
  }

  // one predicate per index: what it holds after a prefix of the rows

  ghost predicate UsedStopsIndexed(used: set<string>, rows: seq<StopTimeRow>)
  {
    used == (set i | 0 <= i < |rows| :: rows[i].stopId)
  }

  ghost predicate ScheduleIndexed(m: map<string, map<string, string>>, rows: seq<StopTimeRow>)
  {
    && (forall t :: t in m <==> HasTripRow(rows, t))
    && (forall t, s :: t in m ==> (s in m[t] <==> LastMatch(rows, t, s).Some?))
    && (forall t, s :: t in m && s in m[t] ==> m[t][s] == LastMatch(rows, t, s).value.arrivalTime)
  }

  ghost predicate SequencesIndexed(m: map<string, map<string, int>>, rows: seq<StopTimeRow>)
  {
    && (forall t :: t in m <==> HasTripRow(rows, t))
    && (forall t, s :: t in m ==> (s in m[t] <==> LastMatch(rows, t, s).Some?))
    && (forall t, s :: t in m && s in m[t] ==> m[t][s] == SequenceNumber(LastMatch(rows, t, s).value))
  }

  ghost predicate EntriesIndexed(m: map<string, seq<SeqEntry>>, rows: seq<StopTimeRow>)
  {
    && (forall t :: t in m <==> HasTripRow(rows, t))
    && (forall t :: t in m ==> m[t] == TripEntries(rows, t))
  }

  ghost predicate StopTripsIndexed(m: map<string, seq<string>>, rows: seq<StopTimeRow>)
  {
    && (forall s :: s in m <==> TripsAt(rows, s) != [])
    && (forall s :: s in m ==> m[s] == TripsAt(rows, s))
  }

  ghost predicate TypesIndexed(m: map<string, set<Category>>, rows: seq<StopTimeRow>,
                               trips: map<string, Trip>, routes: map<string, Route>)
  {
    && (forall s :: s in m <==> HasClassifiedRow(rows, s, trips, routes))
    && (forall s, c :: s in m ==> (c in m[s] <==> GivesCategory(rows, s, c, trips, routes)))
  }

  ghost predicate IndexesRows(idx: ScheduleIndex, rows: seq<StopTimeRow>, trips: map<string, Trip>, routes: map<string, Route>)
  {
    && UsedStopsIndexed(idx.usedStopIds, rows)
    && ScheduleIndexed(idx.scheduleByTrip, rows)
    && SequencesIndexed(idx.tripStopSequences, rows)
    && EntriesIndexed(idx.tripStopsSequence, rows)
    && StopTripsIndexed(idx.stopToTrips, rows)
    && TypesIndexed(idx.stopServiceTypes, rows, trips, routes)
  }

  // how one more row changes each index

  function ScheduleStep(m: map<string, map<string, string>>, row: StopTimeRow): map<string, map<string, string>>
  {
    if Accepted(row) then m[row.tripId := Get(m, row.tripId).GetOr(map[])[row.stopId := row.arrivalTime]] else m
  }

  function SequencesStep(m: map<string, map<string, int>>, row: StopTimeRow): map<string, map<string, int>>
  {
    if Accepted(row) then m[row.tripId := Get(m, row.tripId).GetOr(map[])[row.stopId := SequenceNumber(row)]] else m
  }

  function EntriesStep(m: map<string, seq<SeqEntry>>, row: StopTimeRow): map<string, seq<SeqEntry>>
  {
    if Accepted(row) then m[row.tripId := Get(m, row.tripId).GetOr([]) + [SeqEntry(row.stopId, SequenceNumber(row))]] else m
  }

  function StopTripsStep(m: map<string, seq<string>>, row: StopTimeRow): map<string, seq<string>>
  {
    if Accepted(row) then m[row.stopId := Get(m, row.stopId).GetOr([]) + [row.tripId]] else m
  }

  function TypesStep(m: map<string, set<Category>>, row: StopTimeRow, trips: map<string, Trip>, routes: map<string, Route>)
    : map<string, set<Category>>
  {
    if !Classified(row, trips, routes) then m
    else
      var here := Get(m, row.stopId).GetOr({});
      match StopCategory(RouteOf(row, trips, routes))
      case Some(c) => m[row.stopId := here + {c}]
      case None => m[row.stopId := here]
  }

  lemma HasTripRowStep(rows: seq<StopTimeRow>, row: StopTimeRow, t: string)
    ensures HasTripRow(rows + [row], t) <==> HasTripRow(rows, t) || (Accepted(row) && row.tripId == t)
  {
    var rows' := rows + [row];
    if HasTripRow(rows', t) && !(Accepted(row) && row.tripId == t) {
      var i :| 0 <= i < |rows'| && Accepted(rows'[i]) && rows'[i].tripId == t;
      assert i < |rows| && rows[i] == rows'[i];
    }
    if HasTripRow(rows, t) {
      var i :| 0 <= i < |rows| && Accepted(rows[i]) && rows[i].tripId == t;
      assert rows'[i] == rows[i];
    }
    if Accepted(row) && row.tripId == t {
      assert rows'[|rows|] == row;
    }
  }

  lemma UsedStopsStep(used: set<string>, rows: seq<StopTimeRow>, row: StopTimeRow)
    requires UsedStopsIndexed(used, rows)
    ensures UsedStopsIndexed(used + {row.stopId}, rows + [row])
  {
    var rows' := rows + [row];
    forall x | x in used + {row.stopId} ensures x in (set i | 0 <= i < |rows'| :: rows'[i].stopId) {
      if x == row.stopId {
        assert rows'[|rows|].stopId == x;
      } else {
        var i :| 0 <= i < |rows| && rows[i].stopId == x;
        assert rows'[i].stopId == x;
      }
    }
    forall x | x in (set i | 0 <= i < |rows'| :: rows'[i].stopId) ensures x in used + {row.stopId} {
      var i :| 0 <= i < |rows'| && rows'[i].stopId == x;
      if i < |rows| {
        assert rows[i] == rows'[i];
      }
    }
  }

  /** A trip without accepted rows has no match at any stop. */
  lemma NoMatchWithoutTripRow(rows: seq<StopTimeRow>, t: string, s: string)
    requires !HasTripRow(rows, t)
    ensures LastMatch(rows, t, s).None?
  {
    LastMatchIsLast(rows, t, s);
  }

  lemma ScheduleStepIndexes(m: map<string, map<string, string>>, rows: seq<StopTimeRow>, row: StopTimeRow)
    requires ScheduleIndexed(m, rows)
    ensures ScheduleIndexed(ScheduleStep(m, row), rows + [row])
  {
    var rows' := rows + [row];
    assert rows'[..|rows'| - 1] == rows;
    forall t ensures HasTripRow(rows', t) <==> HasTripRow(rows, t) || (Accepted(row) && row.tripId == t) {
      HasTripRowStep(rows, row, t);
    }
    forall t, s | !HasTripRow(rows, t) ensures LastMatch(rows, t, s).None? {
      NoMatchWithoutTripRow(rows, t, s);
    }
  }

  lemma SequencesStepIndexes(m: map<string, map<string, int>>, rows: seq<StopTimeRow>, row: StopTimeRow)
    requires SequencesIndexed(m, rows)
    ensures SequencesIndexed(SequencesStep(m, row), rows + [row])
  {
    var rows' := rows + [row];
    assert rows'[..|rows'| - 1] == rows;
    forall t ensures HasTripRow(rows', t) <==> HasTripRow(rows, t) || (Accepted(row) && row.tripId == t) {
      HasTripRowStep(rows, row, t);
    }    forall t, s | !HasTripRow(rows, t) ensures LastMatch(rows, t, s).None? {
      NoMatchWithoutTripRow(rows, t, s);
    }
  }

  lemma EntriesStepIndexes(m: map<string, seq<SeqEntry>>, rows: seq<StopTimeRow>, row: StopTimeRow)
    requires EntriesIndexed(m, rows)
    ensures EntriesIndexed(EntriesStep(m, row), rows + [row])
  {
    var rows' := rows + [row];
    assert rows'[..|rows'| - 1] == rows;
    forall t ensures HasTripRow(rows', t) <==> HasTripRow(rows, t) || (Accepted(row) && row.tripId == t) {
      HasTripRowStep(rows, row, t);
    }
    forall t | !HasTripRow(rows, t) ensures TripEntries(rows, t) == [] {
      EntriesOfAbsentTrip(rows, t);
    }
  }

  lemma {:induction false} EntriesOfAbsentTrip(rows: seq<StopTimeRow>, t: string)
    requires !HasTripRow(rows, t)
    ensures TripEntries(rows, t) == []
  {
    if rows != [] {
      var init := rows[..|rows| - 1];
      assert !HasTripRow(init, t) by {
        forall i | 0 <= i < |init| ensures !(Accepted(init[i]) && init[i].tripId == t) {
          assert init[i] == rows[i];
        }
      }
      EntriesOfAbsentTrip(init, t);
      assert !(Accepted(rows[|rows| - 1]) && rows[|rows| - 1].tripId == t);
    }
  }

  lemma StopTripsStepIndexes(m: map<string, seq<string>>, rows: seq<StopTimeRow>, row: StopTimeRow)
    requires StopTripsIndexed(m, rows)
    ensures StopTripsIndexed(StopTripsStep(m, row), rows + [row])
  {
    var rows' := rows + [row];
    assert rows'[..|rows'| - 1] == rows;
  }

  lemma ClassifiedRowStep(rows: seq<StopTimeRow>, row: StopTimeRow, s: string,
                          trips: map<string, Trip>, routes: map<string, Route>)
    ensures HasClassifiedRow(rows + [row], s, trips, routes) <==>
      HasClassifiedRow(rows, s, trips, routes) || (row.stopId == s && Classified(row, trips, routes))
  {
    var rows' := rows + [row];
    if HasClassifiedRow(rows', s, trips, routes) && !(row.stopId == s && Classified(row, trips, routes)) {
      var i :| 0 <= i < |rows'| && rows'[i].stopId == s && Classified(rows'[i], trips, routes);
      assert i < |rows| && rows[i] == rows'[i];
    }
    if HasClassifiedRow(rows, s, trips, routes) {
      var i :| 0 <= i < |rows| && rows[i].stopId == s && Classified(rows[i], trips, routes);
      assert rows'[i] == rows[i];
    }
    if row.stopId == s && Classified(row, trips, routes) {
      assert rows'[|rows|] == row;
    }
  }

  lemma CategoryStep(rows: seq<StopTimeRow>, row: StopTimeRow, s: string, c: Category,
                     trips: map<string, Trip>, routes: map<string, Route>)
    ensures GivesCategory(rows + [row], s, c, trips, routes) <==>
      GivesCategory(rows, s, c, trips, routes) ||
      (row.stopId == s && Classified(row, trips, routes) && StopCategory(RouteOf(row, trips, routes)) == Some(c))
  {
    var rows' := rows + [row];
    if GivesCategory(rows', s, c, trips, routes) &&
       !(row.stopId == s && Classified(row, trips, routes) && StopCategory(RouteOf(row, trips, routes)) == Some(c)) {
      var i :| 0 <= i < |rows'| && rows'[i].stopId == s && Classified(rows'[i], trips, routes) &&
        StopCategory(RouteOf(rows'[i], trips, routes)) == Some(c);
      assert i < |rows| && rows[i] == rows'[i];
    }
    if GivesCategory(rows, s, c, trips, routes) {
      var i :| 0 <= i < |rows| && rows[i].stopId == s && Classified(rows[i], trips, routes) &&
        StopCategory(RouteOf(rows[i], trips, routes)) == Some(c);
      assert rows'[i] == rows[i];
    }
    if row.stopId == s && Classified(row, trips, routes) && StopCategory(RouteOf(row, trips, routes)) == Some(c) {
      assert rows'[|rows|] == row;
    }
  }

  lemma TypesStepIndexes(m: map<string, set<Category>>, rows: seq<StopTimeRow>, row: StopTimeRow,
                         trips: map<string, Trip>, routes: map<string, Route>)
    requires TypesIndexed(m, rows, trips, routes)
    ensures TypesIndexed(TypesStep(m, row, trips, routes), rows + [row], trips, routes)
  {
    var m' := TypesStep(m, row, trips, routes);
    forall s ensures s in m' <==> HasClassifiedRow(rows + [row], s, trips, routes) {
      ClassifiedRowStep(rows, row, s, trips, routes);
    }
    forall s, c | s in m' ensures c in m'[s] <==> GivesCategory(rows + [row], s, c, trips, routes) {
      CategoryStep(rows, row, s, c, trips, routes);
      if s != row.stopId || !Classified(row, trips, routes) {
        assert m'[s] == m[s];
      }
    }
  }

  /** The effect of one row on the indexes, in the order the loader applies
      them: the stop is marked used before the sequence number is checked,
      so a rejected row changes nothing else. */
  method AddStopTime(idx: ScheduleIndex, row: StopTimeRow, trips: map<string, Trip>, routes: map<string, Route>)
    returns (idx': ScheduleIndex)
    ensures idx'.usedStopIds == idx.usedStopIds + {row.stopId}
    ensures idx'.scheduleByTrip == ScheduleStep(idx.scheduleByTrip, row)
    ensures idx'.tripStopsSequence == EntriesStep(idx.tripStopsSequence, row)
    ensures idx'.tripStopSequences == SequencesStep(idx.tripStopSequences, row)
    ensures idx'.stopToTrips == StopTripsStep(idx.stopToTrips, row)
    ensures idx'.stopServiceTypes == TypesStep(idx.stopServiceTypes, row, trips, routes)
  {
    var used := idx.usedStopIds + {row.stopId};
    if row.stopSequence.None? {
      return idx.(usedStopIds := used);
    }
    var t, s, n := row.tripId, row.stopId, row.stopSequence.value;
    var schedule := if t in idx.scheduleByTrip then idx.scheduleByTrip[t] else map[];
    var entries := if t in idx.tripStopsSequence then idx.tripStopsSequence[t] else [];
    var sequences := if t in idx.tripStopSequences then idx.tripStopSequences[t] else map[];
    var tripsHere := if s in idx.stopToTrips then idx.stopToTrips[s] else [];
    var types := idx.stopServiceTypes;
    if t in trips && trips[t].routeId in routes {
      var route := routes[trips[t].routeId];
      var here := if s in types then types[s] else {};
      var category := StopCategory(route);
      if category.Some? {
        here := here + {category.value};
      }
      types := types[s := here];
    }
    assert types == TypesStep(idx.stopServiceTypes, row, trips, routes);
    var byTrip := idx.scheduleByTrip[t := schedule[s := row.arrivalTime]];
    assert byTrip == ScheduleStep(idx.scheduleByTrip, row);
    var stopsSequence := idx.tripStopsSequence[t := entries + [SeqEntry(s, n)]];
    assert stopsSequence == EntriesStep(idx.tripStopsSequence, row);
    var sequenceMap := idx.tripStopSequences[t := sequences[s := n]];
    assert sequenceMap == SequencesStep(idx.tripStopSequences, row);
    var stopTrips := idx.stopToTrips[s := tripsHere + [t]];
    assert stopTrips == StopTripsStep(idx.stopToTrips, row);
    idx' := ScheduleIndex(used, byTrip, stopsSequence, sequenceMap, stopTrips, types);
  }

  /** Reads `stop_times.txt` row by row into the indexes, then sorts every
      trip's stop sequence by `stop_sequence`. */
  method BuildScheduleIndex(rows: seq<StopTimeRow>, trips: map<string, Trip>, routes: map<string, Route>)
    returns (idx: ScheduleIndex)
    ensures UsedStopsIndexed(idx.usedStopIds, rows)
    ensures ScheduleIndexed(idx.scheduleByTrip, rows)
    ensures SequencesIndexed(idx.tripStopSequences, rows)
    ensures StopTripsIndexed(idx.stopToTrips, rows)
    ensures TypesIndexed(idx.stopServiceTypes, rows, trips, routes)
    ensures forall t :: t in idx.tripStopsSequence <==> HasTripRow(rows, t)
    ensures forall t :: t in idx.tripStopsSequence ==>
      SortedBy(idx.tripStopsSequence[t], BySequence) &&
      multiset(idx.tripStopsSequence[t]) == multiset(TripEntries(rows, t))
  {
    idx := ScheduleIndex({}, map[], map[], map[], map[], map[]);
    var i := 0;
    while i < |rows|
      invariant 0 <= i <= |rows|
      invariant IndexesRows(idx, rows[..i], trips, routes)
    {
      var idx' := AddStopTime(idx, rows[i], trips, routes);
      UsedStopsStep(idx.usedStopIds, rows[..i], rows[i]);
      ScheduleStepIndexes(idx.scheduleByTrip, rows[..i], rows[i]);
      SequencesStepIndexes(idx.tripStopSequences, rows[..i], rows[i]);
      EntriesStepIndexes(idx.tripStopsSequence, rows[..i], rows[i]);
      StopTripsStepIndexes(idx.stopToTrips, rows[..i], rows[i]);
      TypesStepIndexes(idx.stopServiceTypes, rows[..i], rows[i], trips, routes);
      assert rows[..i] + [rows[i]] == rows[..i + 1];
      idx := idx';
      i := i + 1;
    }
    assert rows[..i] == rows;
    BySequenceIsTotalPreorder();
    var unsorted := idx.tripStopsSequence;
    assert EntriesIndexed(unsorted, rows);
    idx := idx.(tripStopsSequence := map t | t in unsorted :: SortBy(unsorted[t], BySequence));
  }

  /** `stops.txt` restricted to the stops some row of `stop_times.txt`
      names. */
  function UsedStops(stops: map<string, Stop>, used: set<string>): (r: map<string, Stop>)
    ensures r.Keys == stops.Keys * used
    ensures forall id :: id in r ==> r[id] == stops[id]
  {
    map id | id in stops && id in used :: stops[id]
  }
}
