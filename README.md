# Sofia public transport backend: a verified model of its core

The backend serves arrival estimates, timetables, line structures and
service alerts for the Sofia public transport network. It reads a static
GTFS feed (`routes.txt`, `trips.txt`, `stop_times.txt`, `stops.txt`,
`calendar_dates.txt`, `shapes.txt`) and three GTFS-Realtime feeds (trip
updates, vehicle positions, alerts). This project models in Dafny the
logic at the heart of `app.py`:

- **ArrivalEstimation** (`arrival_estimation.dfy`) models the stop view
  `get_vehicles_for_stop`. For every trip through a stop, or through a stop
  with the same stop code, the view gives one estimate in minutes. The
  estimate comes from the operator's prediction if there is one. Otherwise
  it comes from the vehicle's position, using a geofence with an arrival
  zone of 50 m, a departure zone of 70 m and an extrapolation trigger zone
  of 20 m. Failing both, it comes from the timetable of the next two hours.
  The two geofence caches (recent official arrivals, 90 s; GPS arrivals,
  300 s) are the fields of the class `ArrivalEngine`. Its loop is proved
  against the functional specification `VehiclesAt`.
- **ServiceCalendar** (`service_calendar.dfy`): today's active service ids.
  Also the weekday and holiday classification of every `calendar_dates.txt`
  row, using a proleptic Gregorian weekday computation.
- **ScheduleIndex** (`schedule_index.dfy`): the indexes `load_static_data`
  builds row by row from `stop_times.txt`. It also covers the trolleybus
  recoding and the restriction of `stops.txt` to used stops.
- **GtfsTime** (`gtfs_time.dfy`): `parse_gtfs_time` and the sort key of
  `HH:MM:SS` text.
- **GtfsData** (`gtfs_data.dfy`): the records and the three
  transport-type classifiers.
- **RouteCache** (`route_cache.dfy`) covers:
  - the lazily filled shape cache (class `ShapeCache`);
  - `precompute_all_route_details`;
  - `precompute_routes_by_line`, which picks the two most common headsigns
    per line and then one variation per shape.
- **Alerts** (`alerts.dfy`): `get_processed_alerts`, which builds the map
  from `"{short name}-{route type}"` to alert texts.
- **Timetable** (`timetable.dfy`): `get_schedule_for_stop`, the printed
  timetable of a stop code, split into weekday and holiday boards.
- **Common** and **Sorting** hold the helpers:
  - Option, splitting and joining, `int()` parsing;
  - a stable insertion sort by a total preorder, standing for Python's
    `sorted` and `list.sort`.

Modelling conventions:

- Python sets are iterated in an unspecified order. Where the result depends
  on it (the physical stops, the candidate trips, the stops of a code), that
  order is an input sequence. `IsOrderOf` ties the sequence to the set.
- The request reads two clocks. `Clock.now` is `int(time.time())`, in whole
  Unix seconds; the live estimates and the caches use it. `Instant(clock)`,
  `now` plus `Clock.sub`, is the instant `datetime.now()` gives, with its
  fraction of a second; the timetable fallback uses it. The Unix time of the
  local midnight of the service day is `Clock.dayStart`. All three are
  parameters.
- Distances from a vehicle to a stop are inputs: `Snapshot.distance`, a map
  from (trip, stop) to real metres. An entry is present when the vehicle
  reports a position and the stop has coordinates.
- Speeds are real metres per second. Python's `round` is modelled exactly on
  reals (`Round`, ties to even).
- Absent CSV cells are empty strings.
- Integers are unbounded. Python integers are unbounded too, so no
  wrap-around is involved.

## Model

| member | source | states |
|---|---|---|
| GtfsData.StopCategory | app.py:235-244 | A stop's service type for a route: NIGHT for a short name starting with `N`, else TRAM/BUS/TROLLEY exactly for types 0/3/11, and none for any other type |
| GtfsData.ArrivalCategory | app.py:536-542 | The bulk view's type: never METRO; BUS iff not a night line and the type is neither 0 nor 11 |
| GtfsData.LineCategory | app.py:728-736 | The line list's type: METRO iff not a night line and the type is 1 or 2 |
| GtfsData.CategoriesAgree | app.py:235-244 | On night lines and types 0/3/11, the three classifiers agree |
| GtfsTime.ParseGtfsTimeSpec | app.py:292-299 | A time parses iff its text has exactly three colon-separated parts, each of which `int()` accepts, and its value is then `h*3600 + m*60 + s` of those parts |
| GtfsTime.ParseBadPart | app.py:294-299 | "8:0x:00" has three parts, but `int("0x")` raises, so no time |
| GtfsTime.ParseFormatted | app.py:292-299 | Parsing `H:MM:SS` text gives `H*3600+M*60+S` seconds after the start of the service day, also for hours of 24 and a little beyond (round trip with `FormatGtfsTime`); the overflow of `datetime` for huge hours is under "Left out" |
| GtfsTime.ParseEmpty | app.py:294-299 | The empty time (a stop missing from the schedule) parses to nothing |
| GtfsTime.ParseTwoParts | app.py:294-299 | `25:10` has two parts and parses to nothing |
| GtfsTime.OffsetDeterminesClock | app.py:296 | Distinct clock readings with minutes and seconds below 60 give distinct offsets |
| GtfsTime.TimeKeySpec | app.py:650 | The sort key `tuple(map(int, t.split(':')))` is `None` iff some part is not an integer; otherwise it has one number per part, element `i` being `int()` of part `i` |
| GtfsTime.ParseAllSome | app.py:650 | `map(int, parts)` fails iff some part raises |
| GtfsTime.ParseAllValues | app.py:650 | Otherwise element `i` is `int()` of part `i` |
| GtfsTime.LexLeTotal | app.py:650 | Tuple comparison is total |
| GtfsTime.LexLeTransitive | app.py:650 | Tuple comparison is transitive |
| GtfsTime.KeyOrderIsTimeOrder | app.py:650 | For proper times, key order is the order of their second offsets |
| Common.Split | app.py:294 | `str.split(sep)` gives at least one part, and no part holds the separator |
| Common.JoinSplit | app.py:294 | Joining the parts of a split gives back the text |
| Common.SplitJoin | app.py:294 | Splitting a join of separator-free parts gives back the parts |
| Common.ParseNatToString | app.py:294 | `int()` reads back the decimal text of every natural number |
| Common.Distinct | app.py:650 | `list(set(xs))` holds each element of `xs` once and nothing else |
| ServiceCalendar.ParseDate | app.py:280 | `strptime(date, '%Y%m%d')` accepts only eight digits forming a real date from year 1 to 9999 |
| ServiceCalendar.Weekday | app.py:281 | `weekday()` lies in 0..6 |
| ServiceCalendar.NextDayAdvancesWeekday | app.py:281 | From each day to the next, the weekday advances by one modulo 7 |
| ServiceCalendar.NextDayOrdinal | app.py:281 | Consecutive days have consecutive ordinals |
| ServiceCalendar.YearLengthsAddUp | app.py:281 | A year has 365 days, 366 in a Gregorian leap year |
| ServiceCalendar.FirstOfJanuary2024IsMonday | app.py:281 | The weekday computation matches the calendar on a known date |
| ServiceCalendar.ResolveActiveServices | app.py:256-277 | The base set is all added ids on a holiday and trip ids minus added ids otherwise. Today's rows then add type-1 ids and remove type-2 ids, the last of today's rows for an id deciding. The result holds exactly the ids so resolved |
| ServiceCalendar.OnlyAddedTodayIsActive | app.py:272-277 | An id that today's rows only add is active, whatever the base set |
| ServiceCalendar.OnlyRemovedTodayIsInactive | app.py:272-277 | An id that today's rows only remove is inactive, whatever the base set |
| ServiceCalendar.UntouchedTodayKeepsBase | app.py:272-277 | An id without rows today keeps its base membership |
| ServiceCalendar.ClassifyServices | app.py:279-284 | Fails iff some row's date does not parse. Otherwise an id is a holiday id iff one of its rows falls on a Saturday or Sunday, and a weekday id iff one of its rows falls on another day |
| ScheduleIndex.Recoded | app.py:214-217 | Only a type-11 route outside the immune ids changes, only to type 3; name and id are kept |
| ScheduleIndex.RecodingIsIdempotent | app.py:214-217 | Recoding twice is recoding once |
| ScheduleIndex.RecodeTrolleybuses | app.py:214-217 | The same route ids, each recoded |
| ScheduleIndex.LastMatchIsLast | app.py:227-233 | The row a later assignment leaves in the schedule and sequence dictionaries: one exists iff some accepted row of the trip is at the stop, and no later such row follows it |
| ScheduleIndex.TripEntriesMembers | app.py:229-230 | A trip's sequence entries are exactly its rows whose `stop_sequence` is an integer |
| ScheduleIndex.AddStopTime | app.py:222-245 | One row's effect on each of the six indexes |
| ScheduleIndex.BuildScheduleIndex | app.py:221-247 | After all rows, each index is as follows. The used stops are every row's stop. `schedule_by_trip` and `trip_stop_sequences_map` hold the last accepted row per trip and stop. `stop_to_trips_map` holds the accepted rows' trips per stop, in file order. `stop_service_info` has a stop iff a row of a known trip and route serves it, with exactly the categories such rows give. `trip_stops_sequence` has a trip iff it has an accepted row, holding a permutation of its entries sorted by `stop_sequence` |
| ScheduleIndex.TypesStepIndexes | app.py:235-244 | One row keeps the stop service types index exact |
| ScheduleIndex.UsedStops | app.py:248 | `stops.txt` restricted to the used stop ids, rows unchanged |
| Sorting.SortBy | app.py:247 | The sort gives a permutation of its input, ordered by the key |
| Sorting.PermutationKeepsDistinct | app.py:487 | Reordering keeps elements distinct |
| RouteCache.ShapePointsSpec | app.py:118-124 | A shape reads iff none of its rows has a bad coordinate; a point is in it iff some row of the shape carries it |
| RouteCache.ShapePointsAppend | app.py:122-124 | The points of two consecutive stretches of the file are the first stretch's points followed by the second's, and a bad row in either spoils the shape; with `ShapePointsOfRow` this fixes the points as the shape's rows in file order, repeats kept |
| RouteCache.ShapePointsOfRow | app.py:123-124 | One row adds its point when it is of the shape, nothing when it is not, and spoils the shape when `float()` fails |
| RouteCache.ShapePointsSpoiled | app.py:132-134 | One bad row spoils the whole shape |
| RouteCache.ShapeCache.constructor | app.py:103 | The cache starts empty |
| RouteCache.ShapeCache.GetShape | app.py:106-134 | Returns what reading the file gives. The result is cached iff non-empty, nothing else changes, and every cached shape stays non-empty and equal to the file's |
| RouteCache.StopViewsMembers | app.py:313-320 | A trip's stop list holds exactly the views of its entries whose stop is known |
| RouteCache.BuildStopViews | app.py:313-320 | The stop-list loop yields the entries' views in sequence order |
| RouteCache.PrecomputeRouteDetails | app.py:301-322 | A trip gets details iff it has a shape id with a non-empty shape, a stop sequence and a known stop; the details are that shape and that stop list |
| RouteCache.MainHeadsigns | app.py:342-343 | At most two headsigns, each beaten by at most one other in count (ties going to the earlier), and every headsign beaten by at most one is among them |
| RouteCache.GroupTripsByLine | app.py:327-339 | A line has trips iff some trip with a known route has that short name and type; its trips are those, in `trips.txt` order |
| RouteCache.SelectedShapesDistinct | app.py:344-370 | No two variations of a line share a shape |
| RouteCache.SelectedFirstOfShape | app.py:344-370 | Every shape of an eligible trip (a main headsign, a non-empty shape, a known stop) is represented |
| RouteCache.SelectedIsFirst | app.py:344-370 | A variation's trip is the first eligible trip with its shape |
| RouteCache.SelectVariations | app.py:344-370 | The selection loop yields exactly the selection `Selected` |
| RouteCache.PrecomputeRoutesByLine | app.py:324-370 | The cache has (name, type) iff that line has a variation, and holds its variations |
| Alerts.AlertText | app.py:164-169 | The description, or the stock sentence when there is none |
| Alerts.ToLower | app.py:176 | Lower-casing maps each character and keeps the length (ASCII Latin and basic Cyrillic capitals only) |
| Alerts.TrolleybusStemNeverMatches | app.py:176-181 | As written, no mode word ever yields trolleybus (`11`) |
| Alerts.TrolleybusWordAsWritten | app.py:176-181 | As written, "тролейбусни" names no route type |
| Alerts.TrolleybusWordCorrected | app.py:176-181 | With the corrected cut, "тролейбусни" names trolleybuses |
| Alerts.ModeCodeSpec | app.py:173-181 | Corrected: a word names tram, bus or trolleybus iff its lower-cased form starts with that stem |
| Alerts.FindModeCode | app.py:176-181 | For a given cut, the stem loop yields the code of the first stem that the cut, lower-cased word starts with |
| Alerts.WrittenMatchKeys | app.py:176-188 | As written (nine-character cut), a free-text match attaches only to tram or bus routes |
| Alerts.WrittenFreeTextSkipsTrolleybus | app.py:161-188 | As written, when no alert has informed entities, every key of the alert map belongs to a tram or bus route: free text never reaches a trolleybus line |
| Alerts.TrolleybusAlertAsWritten | app.py:161-188 | As written, the alert "Тролейбусни линии № 1" is not attached to trolleybus line 1 (`1-11`) |
| Alerts.TrolleybusAlertCorrected | app.py:161-188 | With the ten-character cut, the same alert gives exactly `{"1-11": [its text]}` |
| Alerts.TokensHaveNoSeparator | app.py:183 | Every line number is non-empty and holds no separator (white space, comma or "и") |
| Alerts.InterleavePieces | app.py:183 | Cutting the number list at its separators loses nothing: putting the separators back between the pieces gives the list |
| Alerts.PiecesOfInterleave | app.py:183 | Conversely, separator-free pieces joined by separators cut back into exactly those pieces; the line numbers are the non-empty ones |
| Alerts.NumberListExample | app.py:183 | "5, 7 и 12" gives exactly the numbers 5, 7 and 12 |
| Alerts.RouteKey | app.py:152-155 | A route has a key iff its short name and type are both non-empty |
| Alerts.AddAlertToRoute | app.py:150-159 | Attaches the text to the route's key, if any, once |
| Alerts.AttachUnion | app.py:150-159 | Attaching to one key set and then another is attaching to their union |
| Alerts.GroupRoutesByName | app.py:141-148 | Every route with a short name is grouped under it, and nothing else |
| Alerts.AttachNames | app.py:184-188 | Attaches to the routes of the mode's type whose short name is listed |
| Alerts.AttachMatch | app.py:174-188 | For a given cut, one free-text match attaches to the listed lines of its mode, or to nothing for an unknown mode |
| Alerts.AttachStop | app.py:198-203 | A stop entity attaches to the routes of the known trips through the stop |
| Alerts.AttachEntity | app.py:189-203 | An informed entity attaches by route, else by trip, else by stop |
| Alerts.ProcessAlert | app.py:161-203 | For a given cut, one alert attaches its text to its free-text keys (when the text is non-empty), then to its entities' keys |
| Alerts.ProcessAlerts | app.py:137-204 | As written, with the nine-character cut: no feed gives the empty map; otherwise a key is present iff some alert attaches to it, and holds those alerts' texts once each, in feed order |
| Alerts.AlertMapSpec | app.py:137-204 | For any cut, the alert map's keys and texts, from the feed's alerts |
| Alerts.AlertTextsOnce | app.py:156-159 | A key's texts are distinct and are exactly the texts of the alerts that attach to it |
| Timetable.ArrivalAt | app.py:631-636 | The arrival at the first stop, in iteration order, that the trip's schedule has |
| Timetable.FindArrival | app.py:632-636 | The `for`/`break` loop finds that arrival |
| Timetable.AddToSchedule | app.py:625-642 | Records the trip's line, destination, route type and time, or nothing for an unknown route or a missing or empty time |
| Timetable.DeparturesMembers | app.py:621-646 | A board's departures are exactly those of its trips whose service is in its bucket, holiday ids taking precedence |
| Timetable.CollectSpec | app.py:638-642 | A line is on the board iff it has a departure, and a destination iff the pair has one. The pair keeps its times in order, with the route type of its first departure |
| Timetable.FinalTimesFails | app.py:650 | Sorting fails iff some time has no key |
| Timetable.FinalTimesSorted | app.py:650 | Sorting gives every distinct time once, in key order |
| Timetable.FinalizeBoard | app.py:647-650 | The sort loops give the board with every destination's times sorted, or nothing when a time has no key |
| Timetable.NotFoundSpec | app.py:616-618 | 404 exactly when no stop carries the code |
| Timetable.InternalErrorSpec | app.py:613-654 | 500 exactly when a stop carries the code and some trip gives either board a time without a key |
| Timetable.BoardFailsIff | app.py:647-650 | A board fails iff some departure's time has no key |
| Timetable.ScheduleContents | app.py:619-651 | In a served timetable, each board lists a line iff some trip of the code's stops gives it a departure, and a destination likewise. A pair's times are the distinct times those trips give, in key order |
| Timetable.GetScheduleForStop | app.py:613-651 | The view's loops give the functional result `ScheduleFor` |
| ArrivalEstimation.Round | app.py:429 | `round(x)`: a nearest integer, the even one on a tie |
| ArrivalEstimation.RoundingIsUnique | app.py:429 | That integer is unique |
| ArrivalEstimation.MinutesExamples | app.py:429 | 185 s ahead is 3 minutes, 30 s is 0 and 90 s is 2 (ties to even), 59 s ago is 0 |
| ArrivalEstimation.SubSecondExample | app.py:478-479 | Measured from half a second past the whole second, a time 90 s after it is 1 minute away, not 2 |
| ArrivalEstimation.LastWinsKeepsLast | app.py:404-405 | A dictionary comprehension keeps a key's last pair |
| ArrivalEstimation.PredictionsSpec | app.py:404 | A trip has predictions iff the feed has an update for it; every kept arrival is above zero |
| ArrivalEstimation.Vehicles | app.py:405 | Each kept vehicle belongs to the trip it is filed under |
| ArrivalEstimation.VehiclesSpec | app.py:405 | A trip has a vehicle iff the vehicle-positions feed has an entity of that trip, and the vehicle kept is one of the feed's entities |
| ArrivalEstimation.VehiclesKeepLast | app.py:405 | The vehicle kept for a trip is the feed's last entity of that trip |
| ArrivalEstimation.SnapshotOfFeeds | app.py:404-405 | The snapshot built from the two feeds has predictions exactly for the trips with an update, all above zero. It has vehicles exactly for the trips with a vehicle entity, each one such entity of its own trip, and none without the vehicle-positions feed |
| ArrivalEstimation.PhysicalStops | app.py:408-410 | The stop and, when it has a code, every stop sharing that code |
| ArrivalEstimation.FirstScheduled | app.py:422 | The first physical stop, in iteration order, on the trip's schedule |
| ArrivalEstimation.TargetOf | app.py:419-425 | A trip is estimated iff it is known, its route is known and it stops at a physical stop with a non-empty id |
| ArrivalEstimation.FreshPrediction | app.py:427-428 | A prediction counts iff it exists for the trip and stop and is later than a minute ago |
| ArrivalEstimation.Speed | app.py:468-470 | The reported speed when above 1 m/s, else the route type's average (at least 5.5) |
| ArrivalEstimation.OfficialEstimate | app.py:427-433 | A fresh prediction gives an official, live, rounded non-negative estimate. When it rounds to 0 the recent-official flag is set; the GPS cache is untouched |
| ArrivalEstimation.RecentOfficialSuppresses | app.py:434-437 | A live vehicle with a recent-official flag and no fresh prediction gives nothing, not even from the timetable, and changes nothing |
| ArrivalEstimation.LeavingClearsFlag | app.py:443-448 | Flagged and beyond 70 m: the flag is removed and the trip omitted |
| ArrivalEstimation.InArrivalZone | app.py:449-452 | Within 50 m: a 0-minute live hybrid estimate, the flag set when absent |
| ArrivalEstimation.FlagHolds | app.py:453-454 | Flagged and not beyond 70 m (or no distance): a 0-minute hybrid estimate, nothing changed |
| ArrivalEstimation.Extrapolation | app.py:455-481 | Unflagged outside the zone: distance÷speed, in rounded minutes, exactly when the next stop precedes the target within 20 m; else the timetable |
| ArrivalEstimation.HybridAboveZeroIsExtrapolated | app.py:443-473 | A hybrid estimate above 0 minutes only arises from extrapolation |
| ArrivalEstimation.ArriveThenLeave | app.py:413-454 | 30 m then 90 m, within 300 s: a 0-minute hybrid estimate, then no estimate and the flag gone |
| ArrivalEstimation.LiveSilent | app.py:426-473 | The live sources give nothing iff there is no fresh prediction and, for a vehicle, no flag, no geofence hit and no extrapolation; then the caches are unchanged |
| ArrivalEstimation.ScheduleEstimate | app.py:474-481 | A timetable estimate has an active service and a scheduled instant strictly within two hours after the instant of `datetime.now()`, fraction of a second included; it is the rounded minutes from that instant, 0 to 120, not live |
| ArrivalEstimation.ScheduledOnlyAsFallback | app.py:426-481 | A timetable entry means no live source answered and no cache changed |
| ArrivalEstimation.MinutesBounded | app.py:478-479 | Less than two hours after any instant is at most 120 minutes |
| ArrivalEstimation.TripStepShape | app.py:418-486 | Every entry is for its trip and route, never negative, and live iff not from the timetable |
| ArrivalEstimation.Fresh | app.py:414-417 | The entries no older than the lifetime, unchanged |
| ArrivalEstimation.Stale | app.py:414-416 | The keys older than the lifetime |
| ArrivalEstimation.PassEntries | app.py:418-486 | Each entry is for a trip of the pass; over distinct trips, no trip gets two |
| ArrivalEstimation.NotFoundSpec | app.py:406-407 | 404 exactly for an unknown stop, and then the caches are unchanged |
| ArrivalEstimation.ArrivalsSpec | app.py:406-487 | For a known stop, a permutation of the pass's entries after the sweep. Each entry is for a candidate trip, at most one per trip, live entries first and ascending within each group |
| ArrivalEstimation.SortedLiveFirst | app.py:487 | Sorted by `(not is_live, eta)`: live before not live, ascending within the same liveness |
| ArrivalEstimation.PermutationKeepsTripIds | app.py:412 | Reordering keeps trip ids distinct |
| ArrivalEstimation.ArrivalEngine.constructor | app.py:25-28 | Both caches start empty |
| ArrivalEstimation.ArrivalEngine.SweepExpired | app.py:413-417 | Deletes every recent-official entry older than 90 s and every GPS entry older than 300 s, and nothing else |
| ArrivalEstimation.ArrivalEngine.EstimateTrip | app.py:418-486 | One loop iteration: the entry and cache state `TripStep` defines |
| ArrivalEstimation.ArrivalEngine.VehiclesForStop | app.py:397-491 | The view's list and final caches are those `VehiclesAt` defines |

## Left out

- Fetching and protobuf decoding of the three realtime feeds (app.py:69-99). These are network I/O and a foreign library. The model takes the decoded entities as given sequences, and `Snapshot` as given maps.
- `threading.Lock` (app.py:29, 104, 113, 413-452): the model is single-threaded object state.
- `haversine_distance` (app.py:57-67) is floating-point trigonometry. Distances are inputs.
- Time zone localisation with pytz and the clocks themselves (`datetime.now`, `time.time`). They are parameters. A scheduled time is taken as `dayStart` plus its offset in seconds, so days with a DST change are not modelled.
- BeautifulSoup HTML stripping and the regular-expression search of alert texts (app.py:166-172). The (mode word, number list) pairs are inputs. Only the lower-casing, the cut, the stem test and the number-list split are modelled.
- Alerts.ToLower: maps only the ASCII capitals A–Z and the basic Cyrillic capitals U+0400–U+042F. Other capitals, such as Latin-1 À–Þ and Cyrillic from U+0460, are left alone. Python's full Unicode case mapping is not modelled.
- CSV and file reading throughout; `shapes.txt` is an abstract table. A missing `shapes.txt` is `None`.
- The pass-through Flask endpoints and the JSON/status-code layer: `get_all_routes`, `get_all_stops`, `get_stops_for_trip`, `get_line_details`, `get_full_route_view`, `get_static_route_view`, `get_vehicles_for_routes`, the debug endpoints.
- The bulk endpoints (app.py:495-611): only their transport-type classifier (app.py:538-542) is modelled.
- The second `get_shape_for_trip` (app.py:686-692) refers to a removed global and is dead code.
- `prepare_db.py` (SQLite import) and `server.py` (scraping of a web page) are not part of this model.
- The model assumes every CSV column exists; a present but empty cell is the empty string. When a column is absent from the file, the `dict.get` defaults of the source are not reproduced, and the model holds the empty string instead:
  - `route_short_name` defaults to `'Н/А'` (app.py:483, 628, 730). In the arrival view this also changes the alert key looked up (app.py:485).
  - `trip_headsign` defaults to `'Н/И'` (app.py:364, 486, 629, 745).
  - `route_type` defaults to `'3'` (app.py:630, 731).
  - `direction_id` defaults to `'0'` (app.py:742).
  - Only `route_info.get('route_type', 'DEFAULT')` (app.py:468-469) behaves the same: the empty string also falls back to the `DEFAULT` speed.
- A `stop_times` or `trips` row without a `service_id` or `route_id` column makes `trip_info['service_id']` or `trip_info['route_id']` raise `KeyError`. In the timetable view (app.py:624-626) this answers 500. The model cannot reach this, because it assumes every column exists.
- `stop_service_info`'s sorted list of type names is modelled as a set of categories.
- `weekday_schedule_ids` and `holiday_schedule_ids` are never cleared between reloads. The model classifies one load, starting from empty sets.
- Exceptions caught by the arrival view's `except Exception` (app.py:489-491), which answers 500, are not modelled. Where a step of the view raises, the model returns arrivals instead. One such step is `float()` of a malformed `stop_lat` or `stop_lon` cell (app.py:441, 462); distances are inputs of the model. The other is the overflow in `parse_gtfs_time`, described in the next line.
- ArrivalEstimation.ArrivalEngine.VehiclesForStop: the alert map it reads (`processed_alerts`, app.py:485) is a parameter, unconstrained by its contract. The source fills it from `get_processed_alerts`, which `Alerts.ProcessAlerts` models; no contract joins the two.
- GtfsTime.ParseGtfsTime: `parse_gtfs_time` (app.py:292-299) catches `ValueError`, `IndexError` and `TypeError` only. An hour count that takes `timedelta` or the `datetime` sum out of range (`100000000:00:00`, say) raises `OverflowError`, and the arrival view answers 500. The model gives every such time its offset in seconds, as an unbounded integer.
- Common.ParseInt: accepts ASCII digits only. Python's `int()` also accepts single underscores between digits (`1_0` is 10) and non-ASCII decimal digits. The model rejects both, which affects `TimeKey`, `ParseGtfsTime` and the `stop_sequence` column.
- Alerts.ProcessAlerts: models the nine-character cut as written. The corrected ten-character cut is `AlertMap` with `CorrectedCut` (see "## Findings").
- Timetable.FinalTimes: the order in which `list(set(...))` presents equal-key texts to the stable sort is not fixed by Python. The model uses the order of first appearance, so the relative order of distinct texts with equal keys (`8:05:00` against `08:05:00`) is a modelling choice.
- Sorting.SortBy: stability is not stated as a property.
- ServiceCalendar.ParseDate: accepts only the eight-digit form in ASCII digits. `strptime`'s lenient shorter forms (`2024811`), its space-padded day in eight characters (`202401 5` is 5 January 2024) and its non-ASCII decimal digits are treated as unparsable.
- The two precomputation passes iterate over `trips_data` in file order. That order is an input sequence.

## Findings

| source | as written | input that shows it | evidently intended | confidence | as-written member | corrected member |
|---|---|---|---|---|---|---|
| app.py:176-181 | `vehicle_type_str.lower()[:9]` is tested against the stems `трамвайн`, `автобусн`, `тролейбусн`; the last has ten characters, so no nine-character cut starts with it | an alert "тролейбусни линии № 1" whose mode word is "тролейбусни" | a cut at least as long as the longest stem (ten characters), so that trolleybus alerts attach to type `11` lines | not executed | Alerts.TrolleybusAlertAsWritten | Alerts.TrolleybusAlertCorrected |
