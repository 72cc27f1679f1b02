/** The printed timetable of a stop code: for weekday and holiday services
    separately, every line's destinations with their distinct departure
    times in time-of-day order and the route type of the line. */
module Timetable {
  import opened Common
  import opened GtfsData
  import opened GtfsTime
  import opened Sorting

  /** The times of one (line, destination) pair and the route type it was
      first seen with. */
  datatype Entry = Entry(times: seq<string>, routeType: string)

  /** Line name, then destination, then entry. */
  type Board = map<string, map<string, Entry>>

  datatype Schedule = Schedule(weekday: Board, holiday: Board)

  datatype TimetableError =
    | StopNotFound   // 404: no stop carries the code
    | InternalError  // 500: a collected time is not `int:int:...`

  datatype TimetableResult = Timetable(schedule: Schedule) | Failure(error: TimetableError)

  /** The static tables the view reads. */
  datatype TimetableData = TimetableData(
    stops: map<string, Stop>,
    trips: map<string, Trip>,
    routes: map<string, Route>,
    scheduleByTrip: map<string, map<string, string>>,
    stopToTrips: map<string, seq<string>>,
    weekdayIds: set<string>,
    holidayIds: set<string>)

  // ---------------------------------------------------------------------
  // what one trip contributes

  /** The arrival at the first stop of `order` the trip's schedule has. */
  function ArrivalAt(schedule: map<string, string>, order: seq<string>): (a: Option<string>)
    ensures a.None? <==> forall i :: 0 <= i < |order| ==> order[i] !in schedule
    ensures a.Some? ==> exists i :: (0 <= i < |order| && order[i] in schedule && schedule[order[i]] == a.value
      && forall j :: 0 <= j < i ==> order[j] !in schedule)
  {
    if order == [] then None
    else if order[0] in schedule then Some(schedule[order[0]])
    else
      var a := ArrivalAt(schedule, order[1..]);
      assert forall i :: 0 < i < |order| ==> order[i] == order[1..][i - 1];
      a
  }

  /** One departure: line, destination, route type and time. */
  datatype Departure = Departure(name: string, dest: string, routeType: string, time: string)

  /** Holiday services take precedence; a service in neither set is left
      out. */
  function Bucket(trip: Trip, data: TimetableData): Option<bool>
  {
    if trip.serviceId in data.holidayIds then Some(true)
    else if trip.serviceId in data.weekdayIds then Some(false)
    else None
  }

  /** What `add_to_schedule` records for trip `t`: nothing when the trip or
      its route is unknown, or when its arrival at the stops is missing or
      empty. */
  function DepartureOf(t: string, data: TimetableData, stopOrder: seq<string>): Option<Departure>
  {
    match Get(data.trips, t)
    case None => None
    case Some(trip) =>
      match Get(data.routes, trip.routeId)
      case None => None
      case Some(route) =>
        var a := ArrivalAt(Get(data.scheduleByTrip, t).GetOr(map[]), stopOrder);
        if a.None? || a.value == "" then None
        else Some(Departure(route.shortName, trip.headsign, route.routeType, a.value))
  }

  /** The departures the trips of `ts` add to the holiday (`holiday`) or
      weekday board, in iteration order. */
  function Departures(ts: seq<string>, holiday: bool, data: TimetableData, stopOrder: seq<string>): seq<Departure>
  {
    if ts == [] then []
    else
      var t := ts[|ts| - 1];
      Departures(ts[..|ts| - 1], holiday, data, stopOrder) +
        (if t in data.trips && Bucket(data.trips[t], data) == Some(holiday) && DepartureOf(t, data, stopOrder).Some?
         then [DepartureOf(t, data, stopOrder).value] else [])
  }

  lemma DeparturesStep(ts: seq<string>, i: int, holiday: bool, data: TimetableData, stopOrder: seq<string>)
    requires 0 <= i < |ts|
    ensures Departures(ts[..i + 1], holiday, data, stopOrder) == Departures(ts[..i], holiday, data, stopOrder) +
      (if ts[i] in data.trips && Bucket(data.trips[ts[i]], data) == Some(holiday) && DepartureOf(ts[i], data, stopOrder).Some?
       then [DepartureOf(ts[i], data, stopOrder).value] else [])
  {
    assert ts[..i + 1][..i] == ts[..i];
  }

  /** Every departure comes from a trip of `ts` in the right bucket, and
      every such trip with a departure gives one. */
  lemma {:induction false} DeparturesMembers(ts: seq<string>, holiday: bool, data: TimetableData, stopOrder: seq<string>, x: Departure)
    ensures x in Departures(ts, holiday, data, stopOrder) <==>
      exists i :: 0 <= i < |ts| && ts[i] in data.trips && Bucket(data.trips[ts[i]], data) == Some(holiday)
        && DepartureOf(ts[i], data, stopOrder) == Some(x)
  {
    if ts != [] {
      var init := ts[..|ts| - 1];
      DeparturesMembers(init, holiday, data, stopOrder, x);
      assert forall i :: 0 <= i < |init| ==> init[i] == ts[i];
    }
  }

  // ---------------------------------------------------------------------
  // filling a board

  predicate Matches(d: Departure, name: string, dest: string)
  {
    d.name == name && d.dest == dest
  }

  /** The board after recording one departure: a new destination takes the
      departure's route type, an existing one keeps its own. */
  function Add(b: Board, d: Departure): Board
  {
    var dests := Get(b, d.name).GetOr(map[]);
    var e := Get(dests, d.dest).GetOr(Entry([], d.routeType));
    b[d.name := dests[d.dest := Entry(e.times + [d.time], e.routeType)]]
  }

  function Collect(ds: seq<Departure>): Board
  {
    if ds == [] then map[] else Add(Collect(ds[..|ds| - 1]), ds[|ds| - 1])
  }

  /** The times of the departures of one (line, destination) pair, in
      order. */
  function TimesOf(ds: seq<Departure>, name: string, dest: string): (r: seq<string>)
    ensures r == [] <==> forall i :: 0 <= i < |ds| ==> !Matches(ds[i], name, dest)
  {
    if ds == [] then []
    else
      var init := TimesOf(ds[..|ds| - 1], name, dest);
      assert forall i :: 0 <= i < |ds| - 1 ==> ds[..|ds| - 1][i] == ds[i];
      if Matches(ds[|ds| - 1], name, dest) then init + [ds[|ds| - 1].time] else init
  }

  lemma {:induction false} TimesOfMembers(ds: seq<Departure>, name: string, dest: string, x: string)
    ensures x in TimesOf(ds, name, dest) <==> exists i :: 0 <= i < |ds| && Matches(ds[i], name, dest) && ds[i].time == x
  {
    if ds != [] {
      var init := ds[..|ds| - 1];
      TimesOfMembers(init, name, dest, x);
      assert forall i :: 0 <= i < |init| ==> init[i] == ds[i];
    }
  }

  /** The first departure of the pair. */
  function FirstMatch(ds: seq<Departure>, name: string, dest: string): (f: Option<Departure>)
    ensures f.None? <==> forall i :: 0 <= i < |ds| ==> !Matches(ds[i], name, dest)
    ensures f.Some? ==> exists i :: (0 <= i < |ds| && ds[i] == f.value && Matches(ds[i], name, dest)
      && forall j :: 0 <= j < i ==> !Matches(ds[j], name, dest))
  {
    if ds == [] then None
    else
      var init := ds[..|ds| - 1];
      var f := FirstMatch(init, name, dest);
      assert forall i :: 0 <= i < |init| ==> init[i] == ds[i];
      if f.Some? then f
      else if Matches(ds[|ds| - 1], name, dest) then Some(ds[|ds| - 1])
      else None
  }

  /** A line is on the board iff it has a departure; a destination iff the
      pair has one; its entry lists the pair's times in order and the route
      type of the pair's first departure. */
  lemma {:induction false} CollectSpec(ds: seq<Departure>, name: string, dest: string)
    ensures name in Collect(ds) <==> exists i :: 0 <= i < |ds| && ds[i].name == name
    ensures name in Collect(ds) ==> (dest in Collect(ds)[name] <==> TimesOf(ds, name, dest) != [])
    ensures name in Collect(ds) && dest in Collect(ds)[name] ==>
      Collect(ds)[name][dest] == Entry(TimesOf(ds, name, dest), FirstMatch(ds, name, dest).value.routeType)
  {
    if ds != [] {
      var init := ds[..|ds| - 1];
      CollectSpec(init, name, dest);
      assert forall i :: 0 <= i < |init| ==> init[i] == ds[i];
    }
  }

  // ---------------------------------------------------------------------
  // sorted(list(set(times)), key=lambda t: tuple(map(int, t.split(':'))))

  /** The sort key `sorted` is given: `None` where computing it raises. */
  type SortKey = string -> Option<seq<int>>

  /** Each time with its key, or `None` where a key raises. */
  function Keyed(times: seq<string>, key: SortKey): (r: Option<seq<(seq<int>, string)>>)
    ensures r.None? <==> exists i :: 0 <= i < |times| && key(times[i]).None?
    ensures r.Some? ==> (|r.value| == |times| &&
      forall i :: 0 <= i < |times| ==> r.value[i] == (key(times[i]).value, times[i]))
  {
    if times == [] then Some([])
    else
      var init := times[..|times| - 1];
      var last := times[|times| - 1];
      assert forall i :: 0 <= i < |init| ==> init[i] == times[i];
      match Keyed(init, key)
      case None => None
      case Some(ks) =>
        match key(last)
        case None => None
        case Some(k) => Some(ks + [(k, last)])
  }

  predicate ByKey(a: (seq<int>, string), b: (seq<int>, string))
  {
    LexLe(a.0, b.0)
  }

  lemma ByKeyIsTotalPreorder()
    ensures TotalPreorder(ByKey)
  {
    forall a: (seq<int>, string), b: (seq<int>, string) ensures ByKey(a, b) || ByKey(b, a) {
      LexLeTotal(a.0, b.0);
    }
    forall a: (seq<int>, string), b: (seq<int>, string), c: (seq<int>, string) | ByKey(a, b) && ByKey(b, c)
      ensures ByKey(a, c)
    {
      LexLeTransitive(a.0, b.0, c.0);
    }
  }

  function Texts(ks: seq<(seq<int>, string)>): (r: seq<string>)
    ensures |r| == |ks| && forall i :: 0 <= i < |ks| ==> r[i] == ks[i].1
  {
    seq(|ks|, i requires 0 <= i < |ks| => ks[i].1)
  }

  /** The distinct times sorted by key, or `None` where a key raises. The
      order `list(set(...))` hands to the stable sort is taken to be the
      order of first appearance. */
  function FinalTimes(times: seq<string>, key: SortKey): Option<seq<string>>
  {
    match Keyed(Distinct(times), key)
    case None => None
    case Some(ks) =>
      ByKeyIsTotalPreorder();
      Some(Texts(SortBy(ks, ByKey)))
  }

  /** Sorting fails iff some time has no key. */
  lemma FinalTimesFails(times: seq<string>, key: SortKey)
    ensures FinalTimes(times, key).None? <==> exists i :: 0 <= i < |times| && key(times[i]).None?
  {
    var d := Distinct(times);
    if Keyed(d, key).None? {
      var i :| 0 <= i < |d| && key(d[i]).None?;
      assert d[i] in times;
    } else if exists i :: 0 <= i < |times| && key(times[i]).None? {
      var i :| 0 <= i < |times| && key(times[i]).None?;
      assert times[i] in d;
    }
  }

  /** Sorting a permutation of keyed texts keeps every text with its own
      key. */
  lemma SortedKeepsKeys(ks: seq<(seq<int>, string)>, sorted: seq<(seq<int>, string)>, key: SortKey)
    requires multiset(sorted) == multiset(ks)
    requires forall j :: 0 <= j < |ks| ==> key(ks[j].1).Some? && ks[j].0 == key(ks[j].1).value
    ensures forall i :: 0 <= i < |sorted| ==> key(sorted[i].1).Some? && sorted[i].0 == key(sorted[i].1).value
  {
    forall i | 0 <= i < |sorted| ensures key(sorted[i].1).Some? && sorted[i].0 == key(sorted[i].1).value {
      assert sorted[i] in multiset(ks);
      var j :| 0 <= j < |ks| && ks[j] == sorted[i];
    }
  }

  /** Distinct keyed texts whose keys are functions of the texts have
      distinct texts. */
  lemma TextsStayDistinct(sorted: seq<(seq<int>, string)>, key: SortKey)
    requires NoDuplicates(sorted)
    requires forall i :: 0 <= i < |sorted| ==> key(sorted[i].1).Some? && sorted[i].0 == key(sorted[i].1).value
    ensures NoDuplicates(Texts(sorted))
  {
    forall i, j | 0 <= i < j < |sorted| ensures sorted[i].1 != sorted[j].1 {
      assert sorted[i] == (key(sorted[i].1).value, sorted[i].1);
      assert sorted[j] == (key(sorted[j].1).value, sorted[j].1);
    }
  }

  /** Sorting yields every time once, in the order of the times' keys. */
  lemma FinalTimesSorted(times: seq<string>, key: SortKey)
    ensures FinalTimes(times, key).Some? ==>
      var r := FinalTimes(times, key).value;
      && NoDuplicates(r)
      && (forall x :: x in r <==> x in times)
      && (forall i :: 0 <= i < |r| ==> key(r[i]).Some?)
      && (forall i, j :: 0 <= i < j < |r| ==> LexLe(key(r[i]).value, key(r[j]).value))
  {
    var d := Distinct(times);
    if Keyed(d, key).Some? {
      var ks := Keyed(d, key).value;
      ByKeyIsTotalPreorder();
      var sorted := SortBy(ks, ByKey);
      var r := Texts(sorted);
      assert r == FinalTimes(times, key).value;
      SortedKeepsKeys(ks, sorted, key);
      PermutationKeepsDistinct(ks, sorted);
      TextsStayDistinct(sorted, key);
      forall x | x in times ensures x in r {
        var j :| 0 <= j < |d| && d[j] == x;
        assert ks[j] in multiset(sorted);
        var i :| 0 <= i < |sorted| && sorted[i] == ks[j];
        assert r[i] == x;
      }
      forall x | x in r ensures x in times {
        var i :| 0 <= i < |r| && r[i] == x;
        assert sorted[i] in multiset(ks);
        var j :| 0 <= j < |ks| && ks[j] == sorted[i];
        assert d[j] == x;
      }
    }
  }

  // ---------------------------------------------------------------------
  // the finished boards

  /** What becomes of one destination's times. */
  type Finish = seq<string> -> Option<seq<string>>

  /** The view's finishing step with sort key `key`. */
  function SortedByKey(key: SortKey): Finish
  {
    times => FinalTimes(times, key)
  }

  function FinalDests(ds: map<string, Entry>, finish: Finish): Option<map<string, Entry>>
  {
    if forall dest :: dest in ds ==> finish(ds[dest].times).Some?
    then Some(map dest | dest in ds :: Entry(finish(ds[dest].times).value, ds[dest].routeType))
    else None
  }

  function FinalBoard(b: Board, finish: Finish): Option<Board>
  {
    if forall name :: name in b ==> FinalDests(b[name], finish).Some?
    then Some(map name | name in b :: FinalDests(b[name], finish).value)
    else None
  }

  /** The view on its tables, given the iteration orders of the two sets:
      404 without a stop of that code, 500 when a collected time has no
      key, and otherwise both boards with their times sorted. */
  function ScheduleFor(data: TimetableData, code: string, stopOrder: seq<string>, tripOrder: seq<string>): TimetableResult
  {
    ScheduleWith(data, code, stopOrder, tripOrder, TimeKey)
  }

  /** The timetable with the times of each destination ordered by `key`. */
  function ScheduleWith(data: TimetableData, code: string, stopOrder: seq<string>, tripOrder: seq<string>, key: SortKey): TimetableResult
  {
    if StopIdsWithCode(data.stops, code) == {} then Failure(StopNotFound)
    else
      var weekday := FinalBoard(Collect(Departures(tripOrder, false, data, stopOrder)), SortedByKey(key));
      var holiday := FinalBoard(Collect(Departures(tripOrder, true, data, stopOrder)), SortedByKey(key));
      if weekday.Some? && holiday.Some? then Timetable(Schedule(weekday.value, holiday.value))
      else Failure(InternalError)
  }

  /** 404 exactly when no stop carries the code. */
  lemma NotFoundSpec(data: TimetableData, code: string, stopOrder: seq<string>, tripOrder: seq<string>)
    ensures ScheduleFor(data, code, stopOrder, tripOrder) == Failure(StopNotFound) <==>
      forall id :: id in data.stops ==> data.stops[id].stopCode != code
  {
    if !(forall id :: id in data.stops ==> data.stops[id].stopCode != code) {
      var id :| id in data.stops && data.stops[id].stopCode == code;
      assert id in StopIdsWithCode(data.stops, code);
    }
  }

  /** Every time has a key, and the keys ascend. */
  ghost predicate TimesInKeyOrder(times: seq<string>, key: SortKey)
  {
    forall i, j :: 0 <= i < j < |times| ==>
      key(times[i]).Some? && key(times[j]).Some? && LexLe(key(times[i]).value, key(times[j]).value)
  }

  /** What the finished board `b` of the departures `ds` holds for the
      pair (`name`, `dest`). */
  ghost predicate BoardOfDepartures(b: Board, ds: seq<Departure>, key: SortKey, name: string, dest: string)
  {
    && (name in b <==> exists i :: 0 <= i < |ds| && ds[i].name == name)
    && (name in b ==> (dest in b[name] <==> exists i :: 0 <= i < |ds| && Matches(ds[i], name, dest)))
    && (name in b && dest in b[name] ==>
          && NoDuplicates(b[name][dest].times)
          && (forall x :: x in b[name][dest].times <==> exists i :: 0 <= i < |ds| && Matches(ds[i], name, dest) && ds[i].time == x)
          && TimesInKeyOrder(b[name][dest].times, key)
          && FirstMatch(ds, name, dest).Some?
          && b[name][dest].routeType == FirstMatch(ds, name, dest).value.routeType)
  }

  /** The finished board of the departures `ds`: it fails iff some
      departure's time has no key, and otherwise holds a line iff it has a
      departure, a destination iff the pair has one, whose times are the
      pair's distinct times in key order, and whose route type is that of
      the pair's first departure. */
  lemma FinalBoardSpec(ds: seq<Departure>, key: SortKey, name: string, dest: string)
    ensures FinalBoard(Collect(ds), SortedByKey(key)).None? <==> exists i :: 0 <= i < |ds| && key(ds[i].time).None?
    ensures FinalBoard(Collect(ds), SortedByKey(key)).Some? ==>
      BoardOfDepartures(FinalBoard(Collect(ds), SortedByKey(key)).value, ds, key, name, dest)
  {
    var c := Collect(ds);
    BoardFailsIff(ds, key);
    CollectSpec(ds, name, dest);
    if FinalBoard(c, SortedByKey(key)).Some? && name in c && dest in c[name] {
      FinalTimesSorted(c[name][dest].times, key);
      forall x ensures x in c[name][dest].times <==> exists i :: 0 <= i < |ds| && Matches(ds[i], name, dest) && ds[i].time == x {
        TimesOfMembers(ds, name, dest, x);
      }
    }
  }

  /** A departure whose time has no key fails its board. */
  lemma BadTimeFailsBoard(ds: seq<Departure>, key: SortKey, i: int)
    requires 0 <= i < |ds| && key(ds[i].time).None?
    ensures FinalBoard(Collect(ds), SortedByKey(key)).None?
  {
    var c: Board := Collect(ds);
    var d := ds[i];
    CollectSpec(ds, d.name, d.dest);
    TimesOfMembers(ds, d.name, d.dest, d.time);
    var times := c[d.name][d.dest].times;
    var k :| 0 <= k < |times| && times[k] == d.time;
    FinalTimesFails(times, key);
    assert SortedByKey(key)(times).None?;
    assert FinalDests(c[d.name], SortedByKey(key)).None?;
  }

  /** Where every time has a key, every destination's times sort. */
  lemma GoodTimesSort(ds: seq<Departure>, key: SortKey, name: string, dest: string)
    requires forall i :: 0 <= i < |ds| ==> key(ds[i].time).Some?
    requires name in Collect(ds) && dest in Collect(ds)[name]
    ensures SortedByKey(key)(Collect(ds)[name][dest].times).Some?
  {
    var c: Board := Collect(ds);
    CollectSpec(ds, name, dest);
    var times := c[name][dest].times;
    FinalTimesFails(times, key);
    forall k | 0 <= k < |times| ensures key(times[k]).Some? {
      TimesOfMembers(ds, name, dest, times[k]);
    }
  }

  /** The board fails iff some departure's time has no key. */
  lemma BoardFailsIff(ds: seq<Departure>, key: SortKey)
    ensures FinalBoard(Collect(ds), SortedByKey(key)).None? <==> exists i :: 0 <= i < |ds| && key(ds[i].time).None?
  {
    var c: Board := Collect(ds);
    if exists i :: 0 <= i < |ds| && key(ds[i].time).None? {
      var i :| 0 <= i < |ds| && key(ds[i].time).None?;
      BadTimeFailsBoard(ds, key, i);
    } else {
      forall name | name in c ensures FinalDests(c[name], SortedByKey(key)).Some? {
        forall dest | dest in c[name] ensures SortedByKey(key)(c[name][dest].times).Some? {
          GoodTimesSort(ds, key, name, dest);
        }
      }
    }
  }

  /** Trip `t` of the view gives departure `d` to the holiday (`holiday`)
      or weekday board. */
  predicate Gives(t: string, holiday: bool, d: Departure, data: TimetableData, stopOrder: seq<string>)
  {
    t in data.trips && Bucket(data.trips[t], data) == Some(holiday) && DepartureOf(t, data, stopOrder) == Some(d)
  }

  /** 500 exactly when a stop has the code and some trip through it gives
      either board a time without a key. */
  lemma InternalErrorSpec(data: TimetableData, code: string, stopOrder: seq<string>, tripOrder: seq<string>, key: SortKey)
    ensures ScheduleWith(data, code, stopOrder, tripOrder, key) == Failure(InternalError) <==>
      StopIdsWithCode(data.stops, code) != {} &&
      exists h: bool, i, d :: 0 <= i < |tripOrder| && Gives(tripOrder[i], h, d, data, stopOrder) && key(d.time).None?
  {
    BoardFailsFromTrips(tripOrder, false, data, stopOrder, key);
    BoardFailsFromTrips(tripOrder, true, data, stopOrder, key);
  }

  /** A board of the view fails iff one of its trips gives a time without
      a key. */
  lemma BoardFailsFromTrips(tripOrder: seq<string>, holiday: bool, data: TimetableData, stopOrder: seq<string>, key: SortKey)
    ensures FinalBoard(Collect(Departures(tripOrder, holiday, data, stopOrder)), SortedByKey(key)).None? <==>
      exists i, d :: 0 <= i < |tripOrder| && Gives(tripOrder[i], holiday, d, data, stopOrder) && key(d.time).None?
  {
    var ds := Departures(tripOrder, holiday, data, stopOrder);
    BoardFailsIff(ds, key);
    forall d ensures d in ds <==> exists i :: 0 <= i < |tripOrder| && Gives(tripOrder[i], holiday, d, data, stopOrder) {
      DeparturesMembers(tripOrder, holiday, data, stopOrder, d);
    }
    BadTimeFromTrips(ds, tripOrder, holiday, data, stopOrder, key);
  }

  lemma BadTimeFromTrips(ds: seq<Departure>, tripOrder: seq<string>, holiday: bool, data: TimetableData,
                         stopOrder: seq<string>, key: SortKey)
    requires DeparturesFromTrips(ds, tripOrder, holiday, data, stopOrder)
    ensures (exists k :: 0 <= k < |ds| && key(ds[k].time).None?) <==>
      exists i, d :: 0 <= i < |tripOrder| && Gives(tripOrder[i], holiday, d, data, stopOrder) && key(d.time).None?
  {
    if k :| 0 <= k < |ds| && key(ds[k].time).None? {
      assert ds[k] in ds;
    }
    if i, d :| 0 <= i < |tripOrder| && Gives(tripOrder[i], holiday, d, data, stopOrder) && key(d.time).None? {
      assert d in ds;
    }
  }

  /** The contents of a served timetable: a board (holiday or weekday)
      lists a line iff some trip gives it a departure of that line, a
      destination iff some trip gives a departure to that pair; the pair's
      times are the distinct times such trips give, in `key` order, and its
      route type is the one of the first departure of the pair in `ds`. */
  ghost predicate BoardOfTrips(b: Board, ds: seq<Departure>, tripOrder: seq<string>, holiday: bool, data: TimetableData,
                               stopOrder: seq<string>, key: SortKey, name: string, dest: string)
  {
    && LinesOfTrips(b, tripOrder, holiday, data, stopOrder, name)
    && DestsOfTrips(b, tripOrder, holiday, data, stopOrder, name, dest)
    && (name in b && dest in b[name] ==> TimesOfTrips(b[name][dest].times, tripOrder, holiday, data, stopOrder, name, dest))
    && (name in b && dest in b[name] ==>
          && NoDuplicates(b[name][dest].times)
          && TimesInKeyOrder(b[name][dest].times, key)
          && FirstMatch(ds, name, dest).Some?
          && b[name][dest].routeType == FirstMatch(ds, name, dest).value.routeType)
  }

  ghost predicate LinesOfTrips(b: Board, tripOrder: seq<string>, holiday: bool, data: TimetableData, stopOrder: seq<string>, name: string)
  {
    name in b <==> exists i, d :: 0 <= i < |tripOrder| && Gives(tripOrder[i], holiday, d, data, stopOrder) && d.name == name
  }

  ghost predicate DestsOfTrips(b: Board, tripOrder: seq<string>, holiday: bool, data: TimetableData, stopOrder: seq<string>,
                               name: string, dest: string)
  {
    name in b ==>
      (dest in b[name] <==> exists i, d :: 0 <= i < |tripOrder| && Gives(tripOrder[i], holiday, d, data, stopOrder) && Matches(d, name, dest))
  }

  ghost predicate TimesOfTrips(times: seq<string>, tripOrder: seq<string>, holiday: bool, data: TimetableData, stopOrder: seq<string>,
                               name: string, dest: string)
  {
    forall x :: x in times <==>
      exists i, d :: 0 <= i < |tripOrder| && Gives(tripOrder[i], holiday, d, data, stopOrder) && Matches(d, name, dest) && d.time == x
  }

  /** Trip `tripOrder[i]` gives exactly the departures of `ds`. */
  ghost predicate DeparturesFromTrips(ds: seq<Departure>, tripOrder: seq<string>, holiday: bool, data: TimetableData, stopOrder: seq<string>)
  {
    forall d :: d in ds <==> exists i :: 0 <= i < |tripOrder| && Gives(tripOrder[i], holiday, d, data, stopOrder)
  }

  lemma BoardContents(b: Board, tripOrder: seq<string>, holiday: bool, data: TimetableData, stopOrder: seq<string>,
                      key: SortKey, name: string, dest: string)
    requires FinalBoard(Collect(Departures(tripOrder, holiday, data, stopOrder)), SortedByKey(key)) == Some(b)
    ensures BoardOfTrips(b, Departures(tripOrder, holiday, data, stopOrder), tripOrder, holiday, data, stopOrder, key, name, dest)
  {
    var ds := Departures(tripOrder, holiday, data, stopOrder);
    FinalBoardSpec(ds, key, name, dest);
    forall d ensures d in ds <==> exists i :: 0 <= i < |tripOrder| && Gives(tripOrder[i], holiday, d, data, stopOrder) {
      DeparturesMembers(tripOrder, holiday, data, stopOrder, d);
    }
    BoardOfDepartureList(b, ds, tripOrder, holiday, data, stopOrder, key, name, dest);
  }

  /** The board of departures `ds` drawn from the trips is their board. */
  lemma BoardOfDepartureList(b: Board, ds: seq<Departure>, tripOrder: seq<string>, holiday: bool, data: TimetableData,
                             stopOrder: seq<string>, key: SortKey, name: string, dest: string)
    requires BoardOfDepartures(b, ds, key, name, dest)
    requires DeparturesFromTrips(ds, tripOrder, holiday, data, stopOrder)
    ensures BoardOfTrips(b, ds, tripOrder, holiday, data, stopOrder, key, name, dest)
  {
    LinesToTrips(b, ds, tripOrder, holiday, data, stopOrder, key, name, dest);
    DestsToTrips(b, ds, tripOrder, holiday, data, stopOrder, key, name, dest);
    if name in b && dest in b[name] {
      TimesToTrips(b[name][dest].times, ds, tripOrder, holiday, data, stopOrder, name, dest);
    }
  }

  lemma LinesToTrips(b: Board, ds: seq<Departure>, tripOrder: seq<string>, holiday: bool, data: TimetableData,
                     stopOrder: seq<string>, key: SortKey, name: string, dest: string)
    requires name in b <==> exists i :: 0 <= i < |ds| && ds[i].name == name
    requires DeparturesFromTrips(ds, tripOrder, holiday, data, stopOrder)
    ensures LinesOfTrips(b, tripOrder, holiday, data, stopOrder, name)
  {
    if name in b {
      var k :| 0 <= k < |ds| && ds[k].name == name;
      assert ds[k] in ds;
    }
    if i, d :| 0 <= i < |tripOrder| && Gives(tripOrder[i], holiday, d, data, stopOrder) && d.name == name {
      assert d in ds;
    }
  }

  lemma DestsToTrips(b: Board, ds: seq<Departure>, tripOrder: seq<string>, holiday: bool, data: TimetableData,
                     stopOrder: seq<string>, key: SortKey, name: string, dest: string)
    requires name in b ==> (dest in b[name] <==> exists i :: 0 <= i < |ds| && Matches(ds[i], name, dest))
    requires DeparturesFromTrips(ds, tripOrder, holiday, data, stopOrder)
    ensures DestsOfTrips(b, tripOrder, holiday, data, stopOrder, name, dest)
  {
    if name in b && dest in b[name] {
      var k :| 0 <= k < |ds| && Matches(ds[k], name, dest);
      assert ds[k] in ds;
    }
    if i, d :| 0 <= i < |tripOrder| && Gives(tripOrder[i], holiday, d, data, stopOrder) && Matches(d, name, dest) {
      assert d in ds;
    }
  }

  lemma TimesToTrips(times: seq<string>, ds: seq<Departure>, tripOrder: seq<string>, holiday: bool, data: TimetableData,
                     stopOrder: seq<string>, name: string, dest: string)
    requires forall x :: x in times <==> exists i :: 0 <= i < |ds| && Matches(ds[i], name, dest) && ds[i].time == x
    requires DeparturesFromTrips(ds, tripOrder, holiday, data, stopOrder)
    ensures TimesOfTrips(times, tripOrder, holiday, data, stopOrder, name, dest)
  {
    forall x | x in times
      ensures exists i, d :: 0 <= i < |tripOrder| && Gives(tripOrder[i], holiday, d, data, stopOrder) && Matches(d, name, dest) && d.time == x
    {
      var k :| 0 <= k < |ds| && Matches(ds[k], name, dest) && ds[k].time == x;
      assert ds[k] in ds;
    }
    forall i, d | 0 <= i < |tripOrder| && Gives(tripOrder[i], holiday, d, data, stopOrder) && Matches(d, name, dest)
      ensures d.time in times
    {
      assert d in ds;
    }
  }

  lemma ScheduleContents(data: TimetableData, code: string, stopOrder: seq<string>, tripOrder: seq<string>,
                         key: SortKey, name: string, dest: string)
    requires ScheduleWith(data, code, stopOrder, tripOrder, key).Timetable?
    ensures BoardOfTrips(ScheduleWith(data, code, stopOrder, tripOrder, key).schedule.weekday, Departures(tripOrder, false, data, stopOrder),
                         tripOrder, false, data, stopOrder, key, name, dest)
    ensures BoardOfTrips(ScheduleWith(data, code, stopOrder, tripOrder, key).schedule.holiday, Departures(tripOrder, true, data, stopOrder),
                         tripOrder, true, data, stopOrder, key, name, dest)
  {
    var s := ScheduleWith(data, code, stopOrder, tripOrder, key).schedule;
    BoardContents(s.weekday, tripOrder, false, data, stopOrder, key, name, dest);
    BoardContents(s.holiday, tripOrder, true, data, stopOrder, key, name, dest);
  }


  // ---------------------------------------------------------------------
  // get_schedule_for_stop

  /** The first stop of `order` the trip's schedule has, as the `for ...
      break` loop finds it. */
  method FindArrival(schedule: map<string, string>, order: seq<string>) returns (a: Option<string>)
    ensures a == ArrivalAt(schedule, order)
  {
    var i := 0;
    while i < |order|
      invariant 0 <= i <= |order|
      invariant ArrivalAt(schedule, order) == ArrivalAt(schedule, order[i..])
    {
      assert order[i..][1..] == order[i + 1..];
      if order[i] in schedule {
        return Some(schedule[order[i]]);
      }
      i := i + 1;
    }
    return None;
  }

  /** `add_to_schedule`: records the trip's departure on the board, if it
      has one. */
  method AddToSchedule(board: Board, t: string, trip: Trip, data: TimetableData, stopOrder: seq<string>)
    returns (board': Board)
    requires Get(data.trips, t) == Some(trip)
    ensures board' == match DepartureOf(t, data, stopOrder) case None => board case Some(d) => Add(board, d)
  {
    board' := board;
    var route := Get(data.routes, trip.routeId);
    if route.None? {
      return;
    }
    var schedule := if t in data.scheduleByTrip then data.scheduleByTrip[t] else map[];
    var arrival := FindArrival(schedule, stopOrder);
    if arrival.None? || arrival.value == "" {
      return;
    }
    var name, dest := route.value.shortName, trip.headsign;
    var dests := if name in board' then board'[name] else map[];
    var entry := if dest in dests then dests[dest] else Entry([], route.value.routeType);
    board' := board'[name := dests[dest := entry.(times := entry.times + [arrival.value])]];
  }

  /** Sorts the times of every destination of one line; `None` as soon as
      a time has no key. */
  method FinalizeDests(ds: map<string, Entry>, finish: Finish) returns (r: Option<map<string, Entry>>)
    ensures r == FinalDests(ds, finish)
  {
    var todo := ds.Keys;
    var out: map<string, Entry> := map[];
    while todo != {}
      invariant todo <= ds.Keys
      invariant forall dest :: dest in ds && dest !in todo ==> finish(ds[dest].times).Some?
      invariant out.Keys == ds.Keys - todo
      invariant forall dest :: dest in out ==> out[dest] == Entry(finish(ds[dest].times).value, ds[dest].routeType)
      decreases |todo|
    {
      var dest :| dest in todo;
      var times := finish(ds[dest].times);
      if times.None? {
        return None;
      }
      out := out[dest := Entry(times.value, ds[dest].routeType)];
      todo := todo - {dest};
    }
    var expected := map dest | dest in ds :: Entry(finish(ds[dest].times).value, ds[dest].routeType);
    assert out == expected;
    return Some(out);
  }

  /** Sorts the times of every destination of every line. */
  method FinalizeBoard(b: Board, finish: Finish) returns (r: Option<Board>)
    ensures r == FinalBoard(b, finish)
  {
    var todo := b.Keys;
    var out: Board := map[];
    while todo != {}
      invariant todo <= b.Keys
      invariant forall name :: name in b && name !in todo ==> FinalDests(b[name], finish).Some?
      invariant out.Keys == b.Keys - todo
      invariant forall name :: name in out ==> out[name] == FinalDests(b[name], finish).value
      decreases |todo|
    {
      var name :| name in todo;
      var dests := FinalizeDests(b[name], finish);
      if dests.None? {
        return None;
      }
      out := out[name := dests.value];
      todo := todo - {name};
    }
    var expected := map name | name in b :: FinalDests(b[name], finish).value;
    assert out == expected;
    return Some(out);
  }

  /** `get_schedule_for_stop`, with the iteration orders of the stop-id set
      and of the trip-id set as inputs. */
  method GetScheduleForStop(data: TimetableData, code: string, stopOrder: seq<string>, tripOrder: seq<string>)
    returns (r: TimetableResult)
    requires IsOrderOf(stopOrder, StopIdsWithCode(data.stops, code))
    requires IsOrderOf(tripOrder, TripsThrough(StopIdsWithCode(data.stops, code), data.stopToTrips))
    ensures r == ScheduleFor(data, code, stopOrder, tripOrder)
  {
    var relevant := set id | id in data.stops && data.stops[id].stopCode == code;
    if relevant == {} {
      return Failure(StopNotFound);
    }
    var weekday: Board, holiday: Board := map[], map[];
    var i := 0;
    while i < |tripOrder|
      invariant 0 <= i <= |tripOrder|
      invariant weekday == Collect(Departures(tripOrder[..i], false, data, stopOrder))
      invariant holiday == Collect(Departures(tripOrder[..i], true, data, stopOrder))
    {
      var t := tripOrder[i];
      ghost var dW, dH := Departures(tripOrder[..i], false, data, stopOrder), Departures(tripOrder[..i], true, data, stopOrder);
      DeparturesStep(tripOrder, i, false, data, stopOrder);
      DeparturesStep(tripOrder, i, true, data, stopOrder);
      assert dW + [] == dW && dH + [] == dH;
      if t in data.trips {
        var trip := data.trips[t];
        if trip.serviceId in data.holidayIds {
          holiday := AddToSchedule(holiday, t, trip, data, stopOrder);
          CollectAppend(dH, DepartureOf(t, data, stopOrder));
        } else if trip.serviceId in data.weekdayIds {
          weekday := AddToSchedule(weekday, t, trip, data, stopOrder);
          CollectAppend(dW, DepartureOf(t, data, stopOrder));
        }
      }
      i := i + 1;
    }
    assert tripOrder[..i] == tripOrder;
    var w := FinalizeBoard(weekday, SortedByKey(TimeKey));
    var h := FinalizeBoard(holiday, SortedByKey(TimeKey));
    if w.None? || h.None? {
      return Failure(InternalError);
    }
    return Timetable(Schedule(w.value, h.value));
  }

  lemma CollectAppend(ds: seq<Departure>, d: Option<Departure>)
    ensures Collect(ds + (if d.Some? then [d.value] else [])) ==
      match d case None => Collect(ds) case Some(x) => Add(Collect(ds), x)
  {
    if d.Some? {
      assert (ds + [d.value])[..|ds|] == ds;
    } else {
      assert ds + [] == ds;
    }
  }
}
