/** The lazily filled cache of `shapes.txt` polylines and the two route
    caches built from it at start-up: the details of every trip with a
    shape, and per line the representative variations (at most one per
    shape, among the trips towards the line's two most common headsigns). */
module RouteCache {
  import opened Common
  import opened GtfsData
  import opened ScheduleIndex

  // ---------------------------------------------------------------------
  // shapes.txt and its cache

  datatype Point = Point(lat: real, lon: real)

  /** A row of `shapes.txt`; the point is `float()` of its two coordinate
      cells, `None` where `float()` raises. */
  datatype ShapeRow = ShapeRow(shapeId: string, point: Option<Point>)

  /** The points of shape `id` in file order, or `None` when one of its rows
      has a bad coordinate. */
  function ShapePoints(rows: seq<ShapeRow>, id: string): (r: Option<seq<Point>>)
    ensures r.Some? ==> |r.value| <= |rows|
  {
    if rows == [] then Some([])
    else
      var init := ShapePoints(rows[..|rows| - 1], id);
      var last := rows[|rows| - 1];
      if last.shapeId != id then init
      else if init.Some? && last.point.Some? then Some(init.value + [last.point.value])
      else None
  }

  /** Shape `id` is readable iff none of its rows has a bad coordinate, and
      then its points are exactly those of its rows. */
  lemma {:induction false} ShapePointsSpec(rows: seq<ShapeRow>, id: string, p: Point)
    ensures ShapePoints(rows, id).Some? <==>
      forall i :: 0 <= i < |rows| && rows[i].shapeId == id ==> rows[i].point.Some?
    ensures ShapePoints(rows, id).Some? ==>
      (p in ShapePoints(rows, id).value <==> exists i :: 0 <= i < |rows| && rows[i].shapeId == id && rows[i].point == Some(p))
  {
    if rows != [] {
      var init := rows[..|rows| - 1];
      ShapePointsSpec(init, id, p);
      assert forall i :: 0 <= i < |init| ==> init[i] == rows[i];
      if ShapePoints(rows, id).Some? && p in ShapePoints(rows, id).value {
        if p !in ShapePoints(init, id).value {
          assert rows[|rows| - 1].point == Some(p);
        }
      }
    }
  }

  /** The points of two consecutive stretches of the file are the points
      of the first followed by those of the second, and a bad coordinate in
      either spoils the shape: the points keep file order and repeats. */
  lemma {:induction false} ShapePointsAppend(a: seq<ShapeRow>, b: seq<ShapeRow>, id: string)
    ensures ShapePoints(a + b, id) ==
      if ShapePoints(a, id).Some? && ShapePoints(b, id).Some? then Some(ShapePoints(a, id).value + ShapePoints(b, id).value)
      else None
  {
    if b == [] {
      assert a + b == a;
      assert ShapePoints(b, id) == Some([]);
      if ShapePoints(a, id).Some? {
        assert ShapePoints(a, id).value + [] == ShapePoints(a, id).value;
      }
    } else {
      var b' := b[..|b| - 1];
      ShapePointsAppend(a, b', id);
      assert (a + b)[..|a + b| - 1] == a + b';
      assert (a + b)[|a + b| - 1] == b[|b| - 1];
      if ShapePoints(a, id).Some? && ShapePoints(b', id).Some? && b[|b| - 1].shapeId == id && b[|b| - 1].point.Some? {
        assert ShapePoints(a, id).value + (ShapePoints(b', id).value + [b[|b| - 1].point.value])
          == ShapePoints(a, id).value + ShapePoints(b', id).value + [b[|b| - 1].point.value];
      }
    }
  }

  /** One row gives its point when it belongs to the shape, nothing when it
      does not, and spoils the shape when its coordinates do not read. */
  lemma ShapePointsOfRow(r: ShapeRow, id: string)
    ensures ShapePoints([r], id) ==
      if r.shapeId != id then Some([]) else if r.point.Some? then Some([r.point.value]) else None
  {
    assert [r][..0] == [];
    assert ShapePoints([], id) == Some([]);
    if r.point.Some? {
      assert [] + [r.point.value] == [r.point.value];
    }
  }

  /** A bad coordinate in a prefix spoils the whole shape. */
  lemma {:induction false} ShapePointsSpoiled(rows: seq<ShapeRow>, k: nat, id: string)
    requires k <= |rows|
    requires ShapePoints(rows[..k], id).None?
    ensures ShapePoints(rows, id).None?
  {
    if k < |rows| {
      var init := rows[..|rows| - 1];
      assert init[..k] == rows[..k];
      ShapePointsSpoiled(init, k, id);
    } else {
      assert rows[..k] == rows;
    }
  }

  /** `get_shape_by_id` without its cache: no points when the file is
      missing or a point of the shape cannot be read. */
  function LoadShape(table: Option<seq<ShapeRow>>, id: string): seq<Point>
  {
    if table.None? then []
    else match ShapePoints(table.value, id)
      case Some(points) => points
      case None => []
  }

  /** The process-wide shape cache over a fixed `shapes.txt` (`None` when it
      is missing). Only non-empty shapes are cached. */
  class ShapeCache {
    var cache: map<string, seq<Point>>
    const table: Option<seq<ShapeRow>>

    /** Every cached shape is non-empty and is what reading the file gives. */
    ghost predicate Valid()
      reads this
    {
      forall id :: id in cache ==> cache[id] != [] && cache[id] == LoadShape(table, id)
    }

    constructor(table: Option<seq<ShapeRow>>)
      ensures Valid()
      ensures this.table == table && cache == map[]
    {
      this.table := table;
      cache := map[];
    }

    /** The points of shape `id`, from the cache or read from the file; a
        non-empty result is remembered, an empty one is not. */
    method GetShape(id: string) returns (points: seq<Point>)
      requires Valid()
      modifies this
      ensures Valid()
      ensures points == LoadShape(table, id)
      ensures cache == if points == [] then old(cache) else old(cache)[id := points]
    {
      if id in cache {
        return cache[id];
      }
      if table.None? {
        return [];
      }
      var rows := table.value;
      var found: seq<Point> := [];
      var i := 0;
      while i < |rows|
        invariant 0 <= i <= |rows|
        invariant ShapePoints(rows[..i], id) == Some(found)
      {
        assert rows[..i + 1][..i] == rows[..i];
        if rows[i].shapeId == id {
          if rows[i].point.None? {
            ShapePointsSpoiled(rows, i + 1, id);
            return [];
          }
          found := found + [rows[i].point.value];
        }
        i := i + 1;
      }
      assert rows[..i] == rows;
      if found != [] {
        cache := cache[id := found];
      }
      points := found;
    }
  }

  // ---------------------------------------------------------------------
  // stop lists of the route caches

  /** The static tables the route caches are built from. */
  datatype StaticData = StaticData(
    trips: map<string, Trip>,
    routes: map<string, Route>,
    tripStopsSequence: map<string, seq<SeqEntry>>,
    stops: map<string, Stop>,
    stopServiceTypes: map<string, set<Category>>)

  /** A known stop of a trip with its sequence number and its service types
      (`stop_copy`). */
  datatype StopView = StopView(stop: Stop, stopSequence: int, serviceTypes: set<Category>)

  function ViewOf(e: SeqEntry, data: StaticData): StopView
    requires e.stopId in data.stops
  {
    StopView(data.stops[e.stopId], e.stopSequence, Get(data.stopServiceTypes, e.stopId).GetOr({}))
  }

  /** The views of the entries whose stop is known, in sequence order. */
  function StopViews(entries: seq<SeqEntry>, data: StaticData): (r: seq<StopView>)
    ensures |r| <= |entries|
  {
    if entries == [] then []
    else
      var init := StopViews(entries[..|entries| - 1], data);
      var last := entries[|entries| - 1];
      if last.stopId in data.stops then init + [ViewOf(last, data)] else init
  }

  /** The views are exactly those of the entries with a known stop. */
  lemma {:induction false} StopViewsMembers(entries: seq<SeqEntry>, data: StaticData, v: StopView)
    ensures v in StopViews(entries, data) <==>
      exists i :: 0 <= i < |entries| && entries[i].stopId in data.stops && v == ViewOf(entries[i], data)
  {
    if entries != [] {
      var init := entries[..|entries| - 1];
      StopViewsMembers(init, data, v);
      assert forall i :: 0 <= i < |init| ==> init[i] == entries[i];
      if v in StopViews(entries, data) && v !in StopViews(init, data) {
        assert v == ViewOf(entries[|entries| - 1], data);
      }
    }
  }

  /** The stop list of a trip: `stops_list` built from its sequence. */
  method BuildStopViews(entries: seq<SeqEntry>, data: StaticData) returns (views: seq<StopView>)
    ensures views == StopViews(entries, data)
  {
    views := [];
    var i := 0;
    while i < |entries|
      invariant 0 <= i <= |entries|
      invariant views == StopViews(entries[..i], data)
    {
      assert entries[..i + 1][..i] == entries[..i];
      if entries[i].stopId in data.stops {
        views := views + [ViewOf(entries[i], data)];
      }
      i := i + 1;
    }
    assert entries[..i] == entries;
  }

  function TripStopViews(t: string, data: StaticData): seq<StopView>
  {
    StopViews(Get(data.tripStopsSequence, t).GetOr([]), data)
  }

  // ---------------------------------------------------------------------
  // precomputed route details

  datatype RouteDetail = RouteDetail(shape: seq<Point>, stops: seq<StopView>)

  /** A trip gets details iff it has a shape id whose shape is non-empty, a
      stop sequence, and at least one known stop on it. */
  predicate HasDetails(t: string, data: StaticData, table: Option<seq<ShapeRow>>)
  {
    && t in data.trips
    && data.trips[t].shapeId != ""
    && LoadShape(table, data.trips[t].shapeId) != []
    && t in data.tripStopsSequence
    && TripStopViews(t, data) != []
  }

  /** `precompute_all_route_details`: the details of every trip that has
      them, each with its shape and its stop list; the shape cache stays
      valid. Which shapes it has filled in is not stated: a valid cache
      answers `GetShape` as the file does, so that makes no difference to
      any result. */
  method PrecomputeRouteDetails(shapes: ShapeCache, data: StaticData) returns (details: map<string, RouteDetail>)
    requires shapes.Valid()
    modifies shapes
    ensures shapes.Valid()
    ensures forall t :: t in details <==> HasDetails(t, data, shapes.table)
    ensures forall t :: t in details ==>
      t in data.trips && details[t] == RouteDetail(LoadShape(shapes.table, data.trips[t].shapeId), TripStopViews(t, data))
  {
    details := map[];
    var todo := data.trips.Keys;
    while todo != {}
      invariant todo <= data.trips.Keys
      invariant shapes.Valid()
      invariant forall t :: t in details <==> t !in todo && HasDetails(t, data, shapes.table)
      invariant forall t :: t in details ==>
        t in data.trips && details[t] == RouteDetail(LoadShape(shapes.table, data.trips[t].shapeId), TripStopViews(t, data))
      decreases |todo|
    {
      var t :| t in todo;
      todo := todo - {t};
      var shapeId := data.trips[t].shapeId;
      if shapeId == "" {
        continue;
      }
      var points := shapes.GetShape(shapeId);
      if points == [] || t !in data.tripStopsSequence {
        continue;
      }
      var views := BuildStopViews(data.tripStopsSequence[t], data);
      if views == [] {
        continue;
      }
      details := details[t := RouteDetail(points, views)];
    }
  }

  // ---------------------------------------------------------------------
  // the two most common headsigns (Counter.most_common(2))

  function Count(hs: seq<string>, h: string): nat
  {
    multiset(hs)[h]
  }

  function IndexIn(d: seq<string>, h: string): (k: nat)
    requires h in d
    ensures k < |d| && d[k] == h
  {
    if d[0] == h then 0 else 1 + IndexIn(d[1..], h)
  }

  /** `a` comes before `b` in `most_common`: a higher count, or the same
      count and an earlier first appearance. */
  predicate Beats(hs: seq<string>, a: string, b: string)
    requires a in hs && b in hs
  {
    Count(hs, a) > Count(hs, b) ||
    (Count(hs, a) == Count(hs, b) && IndexIn(Distinct(hs), a) < IndexIn(Distinct(hs), b))
  }

  /** The set `most_common(2)` yields: every headsign that at most one
      other headsign beats. */
  ghost predicate IsMainHeadsigns(hs: seq<string>, main: set<string>)
  {
    forall h :: h in main <==>
      h in hs && forall a, b :: a in hs && b in hs && Beats(hs, a, h) && Beats(hs, b, h) ==> a == b
  }

  lemma DistinctIndexUnique(d: seq<string>, k: int)
    requires NoDuplicates(d) && 0 <= k < |d|
    ensures IndexIn(d, d[k]) == k
  {
  }

  /** `Beats` on positions of the first-appearance order. */
  predicate BeatsAt(hs: seq<string>, d: seq<string>, a: int, b: int)
    requires 0 <= a < |d| && 0 <= b < |d|
  {
    Count(hs, d[a]) > Count(hs, d[b]) || (Count(hs, d[a]) == Count(hs, d[b]) && a < b)
  }

  /** The position among `d[..n]`, other than `skip`, that beats every other
      such position; -1 when there is none. */
  function BestIn(hs: seq<string>, d: seq<string>, n: int, skip: int): (k: int)
    requires 0 <= n <= |d|
    ensures -1 <= k < n
    ensures k == -1 <==> n == 0 || (n == 1 && skip == 0)
    ensures k >= 0 ==> k != skip && forall j :: 0 <= j < n && j != skip && j != k ==> BeatsAt(hs, d, k, j)
  {
    if n == 0 then -1
    else
      var prev, last := BestIn(hs, d, n - 1, skip), n - 1;
      if last == skip then prev
      else if prev == -1 then last
      else if Count(hs, d[last]) > Count(hs, d[prev]) then
        assert forall j :: 0 <= j < last && j != skip && j != prev ==> BeatsAt(hs, d, prev, j) && BeatsAt(hs, d, last, j);
        last
      else prev
  }

  /** `{h for h, _ in Counter(hs).most_common(2)}`: the first and the second
      headsign in the order of `Beats`. */
  function MainHeadsigns(hs: seq<string>): (main: set<string>)
    ensures IsMainHeadsigns(hs, main)
    ensures |main| <= 2
  {
    var d := Distinct(hs);
    var best := BestIn(hs, d, |d|, -1);
    if best == -1 then
      {}
    else
      var second := BestIn(hs, d, |d|, best);
      var main := if second == -1 then {d[best]} else {d[best], d[second]};
      MainHeadsignsCorrect(hs, d, best, second, main);
      main
  }

  lemma MainHeadsignsCorrect(hs: seq<string>, d: seq<string>, best: int, second: int, main: set<string>)
    requires d == Distinct(hs)
    requires 0 <= best < |d| && -1 <= second < |d| && second != best
    requires second == -1 ==> |d| == 1
    requires forall j :: 0 <= j < |d| && j != best ==> BeatsAt(hs, d, best, j)
    requires second >= 0 ==> forall j :: 0 <= j < |d| && j != best && j != second ==> BeatsAt(hs, d, second, j)
    requires main == if second == -1 then {d[best]} else {d[best], d[second]}
    ensures IsMainHeadsigns(hs, main)
  {
    forall k | 0 <= k < |d| { DistinctIndexUnique(d, k); }
    forall a | a in hs ensures !Beats(hs, a, d[best]) {
      var ka := IndexIn(d, a);
      if ka != best { assert BeatsAt(hs, d, best, ka); }
    }
    if second >= 0 {
      forall a | a in hs && Beats(hs, a, d[second]) ensures a == d[best] {
        var ka := IndexIn(d, a);
        assert ka == best || ka == second || BeatsAt(hs, d, second, ka);
      }
    }
    forall h | h in hs && h !in main
      ensures second >= 0 && Beats(hs, d[best], h) && Beats(hs, d[second], h) && d[best] != d[second]
    {
      var kh := IndexIn(d, h);
      assert BeatsAt(hs, d, best, kh) && BeatsAt(hs, d, second, kh);
    }
  }

  // ---------------------------------------------------------------------
  // precomputed variations per line

  /** The line a trip belongs to: its route's short name and type, when
      both are set. */
  function LineKey(trip: Trip, routes: map<string, Route>): Option<(string, string)>
  {
    if trip.routeId != "" && trip.routeId in routes
       && routes[trip.routeId].shortName != "" && routes[trip.routeId].routeType != ""
    then Some((routes[trip.routeId].shortName, routes[trip.routeId].routeType))
    else None
  }

  /** The trips of line `key`, in the order of `trips.txt`. */
  function LineTrips(order: seq<string>, data: StaticData, key: (string, string)): (r: seq<string>)
    ensures forall t :: t in r ==> t in order && t in data.trips && LineKey(data.trips[t], data.routes) == Some(key)
  {
    if order == [] then []
    else
      var init := LineTrips(order[..|order| - 1], data, key);
      var t := order[|order| - 1];
      if t in data.trips && LineKey(data.trips[t], data.routes) == Some(key) then init + [t] else init
  }

  /** `lines_to_trips`: the trips of every line, grouped in one pass. */
  method GroupTripsByLine(order: seq<string>, data: StaticData) returns (lines: map<(string, string), seq<string>>)
    ensures forall key :: key in lines <==> LineTrips(order, data, key) != []
    ensures forall key :: key in lines ==> lines[key] == LineTrips(order, data, key)
  {
    lines := map[];
    var i := 0;
    while i < |order|
      invariant 0 <= i <= |order|
      invariant forall key :: key in lines <==> LineTrips(order[..i], data, key) != []
      invariant forall key :: key in lines ==> lines[key] == LineTrips(order[..i], data, key)
    {
      assert order[..i + 1][..i] == order[..i];
      var t := order[i];
      if t in data.trips {
        var key := LineKey(data.trips[t], data.routes);
        if key.Some? {
          lines := lines[key.value := Get(lines, key.value).GetOr([]) + [t]];
        }
      }
      i := i + 1;
    }
    assert order[..i] == order;
  }

  datatype Variation = Variation(direction: string, tripIdSample: string, shape: seq<Point>, stops: seq<StopView>)

  /** A trip that may represent its shape: it runs towards a main headsign,
      has a shape id with a non-empty shape, and has a known stop. */
  predicate Eligible(t: string, main: set<string>, data: StaticData, table: Option<seq<ShapeRow>>)
  {
    && t in data.trips
    && data.trips[t].headsign in main
    && data.trips[t].shapeId != ""
    && LoadShape(table, data.trips[t].shapeId) != []
    && TripStopViews(t, data) != []
  }

  function VariationOf(t: string, data: StaticData, table: Option<seq<ShapeRow>>): Variation
    requires t in data.trips
  {
    Variation(data.trips[t].headsign, t, LoadShape(table, data.trips[t].shapeId), TripStopViews(t, data))
  }

  function ShapeOf(t: string, data: StaticData): string
  {
    if t in data.trips then data.trips[t].shapeId else ""
  }

  /** The variations the line keeps from trips `ts`, when the shapes in
      `done` are already taken: the first eligible trip of each shape. */
  function Selected(ts: seq<string>, done: set<string>, main: set<string>, data: StaticData,
                    table: Option<seq<ShapeRow>>): (r: seq<Variation>)
    ensures forall v :: v in r ==>
      v.tripIdSample in ts && Eligible(v.tripIdSample, main, data, table) && v == VariationOf(v.tripIdSample, data, table)
  {
    if ts == [] then []
    else if Eligible(ts[0], main, data, table) && ShapeOf(ts[0], data) !in done then
      [VariationOf(ts[0], data, table)] + Selected(ts[1..], done + {ShapeOf(ts[0], data)}, main, data, table)
    else Selected(ts[1..], done, main, data, table)
  }

  /** No two variations of a line share a shape, and none reuses a shape
      already taken. */
  lemma {:induction false} SelectedShapesDistinct(ts: seq<string>, done: set<string>, main: set<string>,
                                                  data: StaticData, table: Option<seq<ShapeRow>>)
    ensures forall i :: 0 <= i < |Selected(ts, done, main, data, table)| ==>
      ShapeOf(Selected(ts, done, main, data, table)[i].tripIdSample, data) !in done
    ensures forall i, j :: 0 <= i < j < |Selected(ts, done, main, data, table)| ==>
      ShapeOf(Selected(ts, done, main, data, table)[i].tripIdSample, data) !=
      ShapeOf(Selected(ts, done, main, data, table)[j].tripIdSample, data)
  {
    if ts != [] {
      if Eligible(ts[0], main, data, table) && ShapeOf(ts[0], data) !in done {
        SelectedShapesDistinct(ts[1..], done + {ShapeOf(ts[0], data)}, main, data, table);
      } else {
        SelectedShapesDistinct(ts[1..], done, main, data, table);
      }
    }
  }

  /** Every shape of an eligible trip not taken beforehand is represented,
      by the first eligible trip with that shape. */
  lemma {:induction false} SelectedFirstOfShape(ts: seq<string>, done: set<string>, main: set<string>,
                                                data: StaticData, table: Option<seq<ShapeRow>>, k: int)
    requires 0 <= k < |ts| && Eligible(ts[k], main, data, table) && ShapeOf(ts[k], data) !in done
    requires forall j :: 0 <= j < k ==> !(Eligible(ts[j], main, data, table) && ShapeOf(ts[j], data) == ShapeOf(ts[k], data))
    ensures VariationOf(ts[k], data, table) in Selected(ts, done, main, data, table)
  {
    if k == 0 {
    } else {
      var done' := if Eligible(ts[0], main, data, table) && ShapeOf(ts[0], data) !in done
                   then done + {ShapeOf(ts[0], data)} else done;
      assert ShapeOf(ts[k], data) !in done';
      forall j | 0 <= j < k - 1
        ensures !(Eligible(ts[1..][j], main, data, table) && ShapeOf(ts[1..][j], data) == ShapeOf(ts[1..][k - 1], data))
      {
        assert ts[1..][j] == ts[j + 1];
      }
      SelectedFirstOfShape(ts[1..], done', main, data, table, k - 1);
    }
  }

  /** A variation's trip is the first eligible trip with its shape. */
  lemma {:induction false} SelectedIsFirst(ts: seq<string>, done: set<string>, main: set<string>,
                                           data: StaticData, table: Option<seq<ShapeRow>>, v: Variation)
    requires v in Selected(ts, done, main, data, table)
    ensures exists k ::
      0 <= k < |ts| && ts[k] == v.tripIdSample &&
      (forall j :: 0 <= j < k ==> !(Eligible(ts[j], main, data, table) && ShapeOf(ts[j], data) == ShapeOf(ts[k], data)))
  {
    var first := Eligible(ts[0], main, data, table) && ShapeOf(ts[0], data) !in done;
    if first && v == VariationOf(ts[0], data, table) {
      assert ts[0] == v.tripIdSample;
    } else {
      var done' := if first then done + {ShapeOf(ts[0], data)} else done;
      assert v in Selected(ts[1..], done', main, data, table);
      SelectedIsFirst(ts[1..], done', main, data, table, v);
      var k :| 0 <= k < |ts[1..]| && ts[1..][k] == v.tripIdSample &&
        forall j :: 0 <= j < k ==> !(Eligible(ts[1..][j], main, data, table) && ShapeOf(ts[1..][j], data) == ShapeOf(ts[1..][k], data));
      SelectedShapesDistinct(ts[1..], done', main, data, table);
      SelectedAvoidsDone(ts[1..], done', main, data, table, v);
      forall j | 0 <= j < k + 1
        ensures !(Eligible(ts[j], main, data, table) && ShapeOf(ts[j], data) == ShapeOf(ts[k + 1], data))
      {
        if j > 0 { assert ts[j] == ts[1..][j - 1]; }
      }
    }
  }

  lemma SelectedAvoidsDone(ts: seq<string>, done: set<string>, main: set<string>,
                           data: StaticData, table: Option<seq<ShapeRow>>, v: Variation)
    requires v in Selected(ts, done, main, data, table)
    ensures ShapeOf(v.tripIdSample, data) !in done
  {
    SelectedShapesDistinct(ts, done, main, data, table);
    var i :| 0 <= i < |Selected(ts, done, main, data, table)| && Selected(ts, done, main, data, table)[i] == v;
  }

  /** The variations of one line, chosen in one pass over its trips with
      the set of shapes already taken. */
  method SelectVariations(shapes: ShapeCache, ts: seq<string>, main: set<string>, data: StaticData)
    returns (variations: seq<Variation>)
    requires shapes.Valid()
    modifies shapes
    ensures shapes.Valid()
    ensures variations == Selected(ts, {}, main, data, shapes.table)
  {
    variations := [];
    var done: set<string> := {};
    var i := 0;
    while i < |ts|
      invariant 0 <= i <= |ts|
      invariant shapes.Valid()
      invariant Selected(ts, {}, main, data, shapes.table) == variations + Selected(ts[i..], done, main, data, shapes.table)
    {
      var t := ts[i];
      assert ts[i..][1..] == ts[i + 1..];
      if t !in data.trips || data.trips[t].headsign !in main {
        i := i + 1;
        continue;
      }
      var shapeId := data.trips[t].shapeId;
      if shapeId == "" || shapeId in done {
        i := i + 1;
        continue;
      }
      var points := shapes.GetShape(shapeId);
      if points == [] {
        i := i + 1;
        continue;
      }
      var views := BuildStopViews(Get(data.tripStopsSequence, t).GetOr([]), data);
      if views == [] {
        i := i + 1;
        continue;
      }
      variations := variations + [Variation(data.trips[t].headsign, t, points, views)];
      done := done + {shapeId};
      i := i + 1;
    }
  }

  function Headsigns(ts: seq<string>, trips: map<string, Trip>): (hs: seq<string>)
    ensures |hs| <= |ts|
  {
    if ts == [] then []
    else (if ts[0] in trips then [trips[ts[0]].headsign] else []) + Headsigns(ts[1..], trips)
  }

  /** The variations line `key` keeps. */
  function LineVariations(order: seq<string>, data: StaticData, table: Option<seq<ShapeRow>>, key: (string, string))
    : seq<Variation>
  {
    var ts := LineTrips(order, data, key);
    Selected(ts, {}, MainHeadsigns(Headsigns(ts, data.trips)), data, table)
  }

  /** The nested map holds exactly the entries of the flat one. */
  ghost predicate Nests(byLine: map<string, map<string, seq<Variation>>>, flat: map<(string, string), seq<Variation>>)
  {
    && (forall name, kind :: name in byLine && kind in byLine[name] <==> (name, kind) in flat)
    && (forall name, kind :: name in byLine && kind in byLine[name] ==> byLine[name][kind] == flat[(name, kind)])
  }

  lemma NestsStep(byLine: map<string, map<string, seq<Variation>>>, flat: map<(string, string), seq<Variation>>,
                  key: (string, string), v: seq<Variation>)
    requires Nests(byLine, flat)
    ensures Nests(byLine[key.0 := Get(byLine, key.0).GetOr(map[])[key.1 := v]], flat[key := v])
  {
  }

  /** The variations of one line, from its trips. */
  method VariationsOfLine(shapes: ShapeCache, order: seq<string>, data: StaticData, key: (string, string), ts: seq<string>)
    returns (variations: seq<Variation>)
    requires shapes.Valid()
    requires ts == LineTrips(order, data, key)
    modifies shapes
    ensures shapes.Valid()
    ensures variations == LineVariations(order, data, shapes.table, key)
  {
    var main := MainHeadsigns(Headsigns(ts, data.trips));
    variations := SelectVariations(shapes, ts, main, data);
  }

  /** Once every line is done, the nested map holds exactly the lines with
      variations. */
  lemma ByLineComplete(byLine: map<string, map<string, seq<Variation>>>, flat: map<(string, string), seq<Variation>>,
                       lines: map<(string, string), seq<string>>, order: seq<string>, data: StaticData,
                       table: Option<seq<ShapeRow>>)
    requires Nests(byLine, flat)
    requires forall key :: key in lines <==> LineTrips(order, data, key) != []
    requires forall key :: key in flat <==> key in lines && LineVariations(order, data, table, key) != []
    requires forall key :: key in flat ==> flat[key] == LineVariations(order, data, table, key)
    ensures forall name, kind :: name in byLine && kind in byLine[name] <==>
      LineVariations(order, data, table, (name, kind)) != []
    ensures forall name, kind :: name in byLine && kind in byLine[name] ==>
      byLine[name][kind] == LineVariations(order, data, table, (name, kind))
  {
    forall key | key !in lines
      ensures LineVariations(order, data, table, key) == []
    {
    }
  }

  /** `precompute_routes_by_line`: under its short name and route type,
      every line with at least one variation, and its variations. As above,
      only the validity of the shape cache is stated. */
  method PrecomputeRoutesByLine(shapes: ShapeCache, order: seq<string>, data: StaticData)
    returns (byLine: map<string, map<string, seq<Variation>>>)
    requires shapes.Valid()
    modifies shapes
    ensures shapes.Valid()
    ensures forall name, kind :: name in byLine && kind in byLine[name] <==>
      LineVariations(order, data, shapes.table, (name, kind)) != []
    ensures forall name, kind :: name in byLine && kind in byLine[name] ==>
      byLine[name][kind] == LineVariations(order, data, shapes.table, (name, kind))
  {
    var lines := GroupTripsByLine(order, data);
    byLine := map[];
    ghost var flat: map<(string, string), seq<Variation>> := map[];
    var todo := lines.Keys;
    while todo != {}
      invariant todo <= lines.Keys
      invariant shapes.Valid()
      invariant Nests(byLine, flat)
      invariant forall key :: key in flat <==>
        key in lines && key !in todo && LineVariations(order, data, shapes.table, key) != []
      invariant forall key :: key in flat ==> flat[key] == LineVariations(order, data, shapes.table, key)
      decreases |todo|
    {
      var key :| key in todo;
      todo := todo - {key};
      var variations := VariationsOfLine(shapes, order, data, key, lines[key]);
      if variations != [] {
        NestsStep(byLine, flat, key, variations);
        var kinds := Get(byLine, key.0).GetOr(map[]);
        byLine := byLine[key.0 := kinds[key.1 := variations]];
        flat := flat[key := variations];
      }
    }
    ByLineComplete(byLine, flat, lines, order, data, shapes.table);
  }
}
