# Turbulence detection from ADS-B: a verified model

This project models the core of a live turbulence-detection service built
from ADS-B surveillance data. It has four parts:

- **The analytics client.** It keeps the resampled traffic of every
  aircraft. For each one-minute window of a flight it computes the criterion
  |std(baro vertical rate) − std(inertial vertical rate)| and compares it
  with a per-flight adaptive threshold `max(min_threshold, mean + multiplier
  * std)`. It drops windows whose position deviates by more than three standard
  deviations. The two tunables `min_threshold` and `multiplier` are shared by
  every client.
- **The Phoenix-protocol websocket client** that the map plugins use. It has
  channels, per-event handler sets, `ref` and `join_ref` counters, and the
  `[join_ref, ref, topic, event, payload]` frame format. Frames are dispatched
  to the handlers of the named channel. The client itself is a singleton.
- **The live map page.** This covers the selected-aircraft proxy,
  deselection, the turbulence colour and class rule, the chart columns of a
  feature, heatmap flattening and the `HH:MM` clock string.
- **The turbulence map pages.** These cover the resource and context URLs,
  the SIGMET hazard colours, the HTML tables, the time-slider filters and the
  uptime counter.

Module layout (one module per source file, plus `Common`):

| module | file | models |
|---|---|---|
| `Common` | common.dfy | Option/Result, decimal spelling of integers, JavaScript values and their string conversion |
| `TurbulenceRules` | turbulence_rules.dfy | the pure rules in `ADSBClient.py` (criterion, threshold, turbulence, anomaly, the anomaly drop) |
| `AdsbClient` | adsb_client.dfy | the `ADSBClient` class and its class-wide tunables |
| `Phoenix` | websocket_client.dfy | `Channel`, `Jet1090WebsocketClient` and the `Singleton` metaclass |
| `TangramMap` | tangram_map.dfy | `src/tangram/static/js/map_functions.js` |
| `TurbulenceMap` | turbulence_map.dfy | `src/turbulences/static/js/map_functions.js` |
| `MapFilters` | map_filters.dfy | `src/turbulences/static/js/map_filter_functions.js` |
| `MapLive` | map_live.dfy | the uptime counter of `src/turbulences/static/js/map_live.js` |

Conventions:

- **Python objects become classes.** `ADSBClient`, `Channel`,
  `Jet1090WebsocketClient` and the metaclass cache update their fields in
  place, so they are Dafny classes with `modifies` clauses.
- **Pure rules and JavaScript helpers become functions** with lemmas beside
  them.
- **Loops in the source stay loops.** The handler loop of
  `run_event_handler`, the nested loops of `loadTable` and the heatmap
  flattening are methods with `while`/`for` loops. Each is proved against a
  specification function.
- **A known peculiarity of pandas and JavaScript is NaN.** Absent values
  (NaN in pandas, NaN/undefined in JavaScript) are `None`. Every comparison
  with them is false, and pandas statistics skip them.
- **JavaScript arithmetic is written out.** Its `%` truncates toward zero
  (`MapLive.JsRem`). Its loose `==` against a number is the `intensityValue ==
  1` of the CAT filters (`MapFilters.LooseEqualsInt`).

Behaviour of the code that the model keeps, although a reader might expect otherwise:

- `calculate_traffic` sets the traffic to `None` when the decoder's table is
  empty, or when resampling leaves no flight longer than a minute. The next `turbulence()` then clears the classified dataset rather
  than keeping the previous one (`AdsbClient.Client.LiveCycle`).
- When the filter/aggregate pipeline raises, the exception is only logged.
  The new traffic is kept, and the classified dataset stays from the previous
  pass.
- `calculate_traffic` has no `try`. A decoder reply without a `cumul` entry,
  or a resampling that raises, leaves the loop of `calculate_live_turbulence`
  and ends the live thread while `running` stays set
  (`AdsbClient.Client.LiveCycle` returns `raised`, with nothing changed).
- `min_threshold` and `multiplier` are class attributes. A setter called on
  one client changes them for all clients, so the model keeps them in one
  shared `Tunables` object.
- Anomalous windows are removed from the dataset (`query("not anomaly")`),
  not just flagged.

## Model

| member | source | states |
|---|---|---|
| TurbulenceRules.Criterion | src/turbulences/client/ADSBClient.py:16-19 | the criterion is defined iff both deviations are, is never negative, and is zero exactly when the two deviations are equal |
| TurbulenceRules.CriterionSymmetric | src/turbulences/client/ADSBClient.py:16-19 | swapping the barometric and inertial deviations leaves the criterion unchanged |
| TurbulenceRules.Threshold | src/turbulences/client/ADSBClient.py:22-27 | the threshold is never below the floor; it is the floor when the criterion column has no values, and `max(floor, mean + multiplier * std)` otherwise |
| TurbulenceRules.Present | src/turbulences/client/ADSBClient.py:22-27 | a value is among those pandas' skipna statistics use iff it is a non-NaN entry of the column; never more values than entries |
| TurbulenceRules.PresentSingle | src/turbulences/client/ADSBClient.py:22-27 | a single entry contributes its value when it is not NaN and nothing when it is |
| TurbulenceRules.PresentConcat | src/turbulences/client/ADSBClient.py:22-27 | the values of two columns joined are the values of the first followed by those of the second, so multiplicity and order are kept |
| TurbulenceRules.ConstantCriterionThresholdIsFloor | src/turbulences/client/ADSBClient.py:22-27 | a track whose windows all have the same criterion at or below the floor gets exactly the floor, whatever the multiplier |
| TurbulenceRules.AbsentCriteriaThresholdIsFloor | src/turbulences/client/ADSBClient.py:22-27 | a track with no defined criterion gets the floor as its threshold |
| TurbulenceRules.NotTurbulentAtOrBelowFloor | src/turbulences/client/ADSBClient.py:30-31 | a window whose criterion is at or below the floor, or equal to the threshold, is not turbulent (the comparison is strict) |
| TurbulenceRules.SteadyTrackIsCalm | src/turbulences/client/ADSBClient.py:16-31 | equal barometric and inertial deviations on every window give threshold = floor and no turbulent window |
| TurbulenceRules.OutsideIsDeviation | src/turbulences/client/ADSBClient.py:34-39 | a coordinate is outside its 3-sigma band iff it deviates from the column mean by more than three standard deviations |
| TurbulenceRules.IdenticalPositionsNoAnomaly | src/turbulences/client/ADSBClient.py:34-39 | a track whose positions are all identical has no anomalous window |
| TurbulenceRules.ClassifyTrack | src/turbulences/client/ADSBClient.py:124-136 | one row per window, in order, carrying the window's criterion, the track's threshold (never below the floor), turbulence iff criterion > threshold, and the 3-sigma anomaly flag over the track's own columns |
| TurbulenceRules.ClassifyAll | src/turbulences/client/ADSBClient.py:124-137 | the rows are exactly the `ClassifyTrack` rows of the input tracks: every row of every track's classification is present, and every row is a row of some track's classification, so its threshold is that track's; every threshold is at or above the floor |
| TurbulenceRules.DropAnomalies | src/turbulences/client/ADSBClient.py:138 | a row is kept iff it is in the input and is not anomalous; never more rows than the input |
| TurbulenceRules.DropAnomaliesIdempotent | src/turbulences/client/ADSBClient.py:138 | dropping anomalies twice is dropping them once |
| TurbulenceRules.DropAnomaliesKeepsClean | src/turbulences/client/ADSBClient.py:138 | rows that have no anomaly pass unchanged and in order |
| TurbulenceRules.IdenticalPositionsKeepAllWindows | src/turbulences/client/ADSBClient.py:34-39 | a track with identical positions keeps every one of its classified windows |
| TurbulenceRules.ProcessedData | src/turbulences/client/ADSBClient.py:103-139 | the dataset holds no anomalous row, every threshold is at or above the floor, every row is a classified row of some input track, and every non-anomalous classified row of every track is kept |
| AdsbClient.TrafficOfTable | src/turbulences/client/ADSBClient.py:62-70 | no traffic iff the decoder's table is empty; otherwise the traffic holds exactly that table |
| AdsbClient.Tunables.constructor | src/turbulences/client/ADSBClient.py:43-44 | the shared tunables start at 150 and 1.2 |
| AdsbClient.Client.constructor | src/turbulences/client/ADSBClient.py:46-51 | a new client is not running, has no traffic, no dataset and no thread, and shares the given tunables |
| AdsbClient.Client.SetMinThreshold | src/turbulences/client/ADSBClient.py:91-92 | sets the shared floor and leaves the multiplier alone |
| AdsbClient.Client.SetMultiplier | src/turbulences/client/ADSBClient.py:94-95 | sets the shared multiplier and leaves the floor alone |
| AdsbClient.Client.GetMinThreshold | src/turbulences/client/ADSBClient.py:97-98 | returns the shared floor |
| AdsbClient.Client.GetMultiplier | src/turbulences/client/ADSBClient.py:100-101 | returns the shared multiplier |
| AdsbClient.FloorSharedByClients | src/turbulences/client/ADSBClient.py:91-98 | a floor set through one client is the floor read through another client of the same class |
| AdsbClient.MultiplierSharedByClients | src/turbulences/client/ADSBClient.py:94-101 | a multiplier set through one client is the multiplier read through another client of the same class |
| AdsbClient.Client.CalculateTraffic | src/turbulences/client/ADSBClient.py:62-89 | raises exactly when the reply has no `cumul` entry (KeyError) or a non-empty table's resampling raises, and then leaves the traffic unchanged; otherwise no traffic for an empty table, or whatever resampling gives, which is no traffic when no flight is longer than a minute |
| AdsbClient.Client.Turbulence | src/turbulences/client/ADSBClient.py:103-143 | no traffic clears the dataset; a pipeline exception keeps the previous dataset; otherwise the dataset is the classified, anomaly-free data computed with the current shared tunables; the no-anomaly invariant is kept |
| AdsbClient.Client.LiveCycle | src/turbulences/client/ADSBClient.py:145-149 | one pass of the live loop: when `calculate_traffic` raises, the pass ends the loop with traffic, dataset and `running` unchanged; otherwise an empty table, or a resampling that leaves no traffic, clears both traffic and dataset, a raising pipeline keeps the old dataset, and an aggregation replaces it with the classified data |
| AdsbClient.Client.StartLive | src/turbulences/client/ADSBClient.py:151-157 | the running flag is set and a worker thread exists |
| AdsbClient.Client.Stop | src/turbulences/client/ADSBClient.py:185-187 | the running flag is cleared; joining succeeds iff a thread was started |
| AdsbClient.Client.Clear | src/turbulences/client/ADSBClient.py:189-191 | traffic and dataset are both emptied |
| Phoenix.Register | src/tangram/plugins/common/rs1090/websocket_client.py:71-75 | the handler is in the event's set afterwards, the set is the old one plus that handler, and no other event's set changes |
| Phoenix.Unregister | src/tangram/plugins/common/rs1090/websocket_client.py:77-79 | raises KeyError iff the event is unknown or the handler is not in its set; otherwise exactly that handler is removed and nothing else changes |
| Phoenix.RegisterIdempotent | src/tangram/plugins/common/rs1090/websocket_client.py:71-75 | registering the same handler twice is registering it once |
| Phoenix.RegisterThenUnregister | src/tangram/plugins/common/rs1090/websocket_client.py:71-79 | removing a handler just registered succeeds and leaves the event's set without that handler |
| Phoenix.Decode | src/tangram/plugins/common/rs1090/websocket_client.py:168-169 | a frame decodes iff it is a five-element list whose payload is an object with `status` and `response`; otherwise unpacking or the payload lookup fails; channel and event are items 2 and 3 |
| Phoenix.OutgoingFrameDecodes | src/tangram/plugins/common/rs1090/websocket_client.py:55-69 | a frame `send` writes decodes to `"0"`, `"0"`, its topic, its event and the payload's status and response; a payload without them fails the lookup |
| Phoenix.InvokeAll | src/tangram/plugins/common/rs1090/websocket_client.py:48-53 | every handler of the set is called exactly once, with the frame's arguments |
| Phoenix.NoHandlersNoCalls | src/tangram/plugins/common/rs1090/websocket_client.py:48-53 | an event with no handlers makes no call |
| Phoenix.Channel.constructor | src/tangram/plugins/common/rs1090/websocket_client.py:19-25 | a new channel belongs to its connection and topic, has no handlers, and both counters are 0 |
| Phoenix.Channel.OnEvent | src/tangram/plugins/common/rs1090/websocket_client.py:71-75 | the registry becomes `Register` of the old one, and the channel itself is returned |
| Phoenix.Channel.OffEvent | src/tangram/plugins/common/rs1090/websocket_client.py:77-79 | fails exactly when `Unregister` does, leaving the registry unchanged; otherwise the registry is `Unregister` of the old one |
| Phoenix.Channel.Send | src/tangram/plugins/common/rs1090/websocket_client.py:55-69 | on an open connection the frame `["0", "0", topic, event, payload]` is appended to the sent frames (the counters are not written into it), then `ref` grows by one and `join_ref` grows by one only for `phx_join`; on a closed one the write fails and nothing changes |
| Phoenix.Channel.Join | src/tangram/plugins/common/rs1090/websocket_client.py:27-31 | on an open connection sends `phx_join` with an empty payload and both counters grow by one; on a closed one the write fails, nothing is sent and the counters stay |
| Phoenix.Channel.RunEventHandler | src/tangram/plugins/common/rs1090/websocket_client.py:37-53 | a `phx_reply` runs every `join` handler once and then `on_join` last; an unhashable event fails; any other event runs each of its own handlers exactly once (none when unknown) |
| Phoenix.Jet1090Client.constructor | src/tangram/plugins/common/rs1090/websocket_client.py:116-121 | no channels, not connected, nothing sent |
| Phoenix.Jet1090Client.Connect | src/tangram/plugins/common/rs1090/websocket_client.py:123-135 | the connection is open afterwards |
| Phoenix.Jet1090Client.Send | src/tangram/plugins/common/rs1090/websocket_client.py:143-144 | a frame is written iff the connection is open |
| Phoenix.Jet1090Client.AddChannel | src/tangram/plugins/common/rs1090/websocket_client.py:137-141 | a fresh channel on this connection with that topic replaces any previous one under the name; other names are unchanged |
| Phoenix.Jet1090Client.DispatchOne | src/tangram/plugins/common/rs1090/websocket_client.py:168-173 | a malformed frame is an error; an unhashable channel is an error; an unknown channel is skipped with no call; a known channel's handlers are run as `RunEventHandler` states; it fails exactly when `FrameError` names an error, and on success its calls are the ones `Routed` describes |
| Phoenix.Jet1090Client.Dispatch | src/tangram/plugins/common/rs1090/websocket_client.py:163-173 | frames are dispatched in order until the first one that raises; that error ends dispatching, every frame before it raised nothing and made the calls `Routed` describes (none for an unknown channel, each handler of the event, or the join handlers then `on_join` for a reply), and none after it is handled |
| Phoenix.Singleton.Call | src/tangram/plugins/common/rs1090/websocket_client.py:95-105 | the first call creates and caches a fresh client; later calls return the cached one |
| Phoenix.ConstructTwice | src/tangram/plugins/common/rs1090/websocket_client.py:95-121 | constructing the client twice yields the same object |
| TangramMap.Assign | src/tangram/static/js/map_functions.js:14-31 | writing `icao24` stores the value and saves the old id as `prior_icao24`, leaving every other property alone; writing any other property changes nothing |
| TangramMap.SelectTwice | src/tangram/static/js/map_functions.js:14-31 | after two selections the id is the second and the prior id is the first |
| TangramMap.Selected.constructor | src/tangram/static/js/map_functions.js:34 | the selection starts with both ids null and no pushed events |
| TangramMap.Selected.Get | src/tangram/static/js/map_functions.js:7-13 | reads the target's property, undefined when it is absent |
| TangramMap.Selected.Set | src/tangram/static/js/map_functions.js:14-31 | the target becomes `Assign` of the old one; the trap returns true and pushes a `select` event iff the property is `icao24` and the value is not null |
| TangramMap.Selected.Deselect | src/tangram/static/js/map_functions.js:101-115 | leaves `channel:trajectory:<id>` iff a trajectory channel is open; the target becomes `Assign` of the old one with a null id, so the id is null, the prior id is the old id and every other property is unchanged; nothing is pushed |
| TangramMap.IntensityColour | src/tangram/static/js/map_functions.js:317-323 | violet iff intensity ≥ 200, orange iff 100 < intensity < 200, blue otherwise (also for NaN/undefined) |
| TangramMap.ColourMonotone | src/tangram/static/js/map_functions.js:317-323 | a stronger intensity never gets a calmer colour |
| TangramMap.TurbStyle | src/tangram/static/js/map_functions.js:324-327 | the colour is the intensity colour; the class is `turb_selected` for the selected id and `turb_path` otherwise, followed by `turb-<id>` |
| TangramMap.ClassNameShowsSelection | src/tangram/static/js/map_functions.js:324-327 | the class name starts with `turb_selected` iff the path is the selected one |
| TangramMap.FeatureColumns | src/tangram/static/js/map_functions.js:119-136 | the vertical-rate chart shows both the barometric and the inertial rate; `altitude` and every unknown feature draw altitude and selected altitude; the columns of speed and track are only in the body |
| TangramMap.FeatureColumnsDistinguish | src/tangram/static/js/map_functions.js:119-136 | two features drawn with the same columns are the same feature, unless both fall back to the altitude columns |
| TangramMap.Flatten | src/tangram/static/js/map_functions.js:338-347 | the method's loops produce exactly the specified flattening of the features' coordinates |
| TangramMap.FlattenedLength | src/tangram/static/js/map_functions.js:338-347 | the flattened array has one entry per coordinate of every feature |
| TangramMap.FlattenedAt | src/tangram/static/js/map_functions.js:338-347 | each entry is the feature's coordinate with the feature's intensity written at index 3, in feature order |
| TangramMap.GetTimeString | src/tangram/static/js/map_functions.js:373-395 | the local or UTC hours and minutes, each padded, joined by `:` |
| TangramMap.PadTwoDigits | src/tangram/static/js/map_functions.js:386-392 | a value below 100 is spelled in exactly two digits that read back as the value |
| TangramMap.TimeTextShape | src/tangram/static/js/map_functions.js:373-395 | the clock string has five characters with `:` in the middle, and its two halves read back as the hours and minutes |
| Common.DecimalRoundTrip | src/tangram/static/js/map_functions.js:386-394 | the decimal spelling of a natural number is all digits and reads back as that number |
| TurbulenceMap.FormEncode | src/turbulences/static/js/map_functions.js:238-240 | the form-urlencoded text never contains `&`, `=`, `?`, `/` or `#` |
| TurbulenceMap.FormEncodeSafe | src/turbulences/static/js/map_functions.js:238-240 | a string made only of `*`, `-`, `.`, `_`, digits and ASCII letters is encoded to itself |
| TurbulenceMap.WithDefault | src/turbulences/static/js/map_functions.js:233 | an argument that is missing or `undefined` takes the parameter's default; any other argument is kept |
| TurbulenceMap.BuildResourceUrl | src/turbulences/static/js/map_functions.js:233-241 | the step-by-step URL of the getters, after the `und = null` default, equals `ResourceUrl` |
| TurbulenceMap.UndefinedArgumentsAreDefaults | src/turbulences/static/js/map_functions.js:125-130 | an explicit `undefined` gives the URL of the default `null`: the bare resource path, and no window query |
| TurbulenceMap.DefaultResourceUrl | src/turbulences/static/js/map_functions.js:233-241 | with the default arguments the URL is the bare resource name |
| TurbulenceMap.ResourceUrlQuery | src/turbulences/static/js/map_functions.js:238-241 | for a base and an `und` without `?`, the URL has a query iff `history` is non-zero |
| TurbulenceMap.ResourceUrlPath | src/turbulences/static/js/map_functions.js:235-237 | for a base without `/`, the URL has a `/` iff `und` is neither null nor undefined |
| TurbulenceMap.HistoryQueryDigits | src/turbulences/static/js/map_functions.js:238-240 | the history value is sent as its decimal spelling, unchanged by the encoding; for a positive value those digits read back as the value |
| TurbulenceMap.BuildContextUrl | src/turbulences/static/js/map_functions.js:125-130 | the step-by-step URL of the context getters, after the `wef = null, und = null` defaults, equals `ContextUrl` |
| TurbulenceMap.ContextUrlQuery | src/turbulences/static/js/map_functions.js:125-130 | the context URL carries a query iff neither `wef` nor `und` is null or undefined; otherwise it is the bare base |
| TurbulenceMap.WindowQueryParts | src/turbulences/static/js/map_functions.js:128-129 | the query is `wef=<a>&und=<b>` where neither encoded value holds `&` or `=` |
| TurbulenceMap.WindowQuerySeparators | src/turbulences/static/js/map_functions.js:128-129 | the query holds exactly one `&` and two `=`, the separators the serializer inserts |
| TurbulenceMap.HazardColour | src/turbulences/static/js/map_functions.js:140-151 | black exactly for a hazard that is none of the strings TS, TURB, MTW and ICE |
| TurbulenceMap.HazardColourDistinguishes | src/turbulences/static/js/map_functions.js:140-151 | two hazards with the same non-black colour are the same hazard |
| TurbulenceMap.ClickedIcao | src/turbulences/static/js/map_functions.js:23-27 | the id is defined iff the feature's or the geometry's `icao` is; the feature's own `icao` wins unless it is undefined, so an own `null` id stays null (the test is `=== undefined`) |
| TurbulenceMap.LoadTable | src/turbulences/static/js/map_functions.js:104-114 | the nested loops build exactly the table text as written |
| TurbulenceMap.RowAsWrittenShape | src/turbulences/static/js/map_functions.js:107-111 | with plain cell values a row as written holds two tags per field plus two row tags |
| TurbulenceMap.TableAsWrittenTagCount | src/turbulences/static/js/map_functions.js:104-114 | with plain cell values a table of `n` rows and `f` fields holds `n * (2f + 2)` tags |
| TurbulenceMap.TableAsWrittenEndsOpen | src/turbulences/static/js/map_functions.js:111 | a non-empty table as written ends with an opening `<tr>` |
| TurbulenceMap.SingleRowAsWritten | src/turbulences/static/js/map_functions.js:104-114 | one row and no fields give `<tr><tr>` |
| TurbulenceMap.ClosedRowShape | src/turbulences/static/js/map_functions.js:107-111 | with plain cell values a corrected row holds two tags per field plus its opening and closing row tags |
| TurbulenceMap.ClosedTableTagCount | src/turbulences/static/js/map_functions.js:104-114 | the corrected table has as many tags as the original one |
| TurbulenceMap.ClosedTableEndsClosed | src/turbulences/static/js/map_functions.js:111 | a non-empty corrected table ends with `</tr>` |
| MapFilters.Seconds | src/turbulences/static/js/map_filter_functions.js:15 | a parsed date divided by 1000; NaN stays NaN |
| MapFilters.Select | src/turbulences/static/js/map_filter_functions.js:3-8 | a feature is kept iff it is in the input and passes the filter |
| MapFilters.SelectConcat | src/turbulences/static/js/map_filter_functions.js:3-8 | filtering keeps the input order |
| MapFilters.TimeNumber | src/turbulences/static/js/map_filter_functions.js:6 | the number `<=` sees: NaN exactly for a missing time, 0 for a `null` time, the seconds otherwise |
| MapFilters.FilterTurb | src/turbulences/static/js/map_filter_functions.js:5-7 | a turbulence report is kept iff its time is a number at or before the slider time, or is `null` and the slider time is non-negative |
| MapFilters.NullTimeShownFromZero | src/turbulences/static/js/map_filter_functions.js:6 | a `null` time is shown at every non-negative slider time; a missing time never |
| MapFilters.FilterTurbMonotone | src/turbulences/static/js/map_filter_functions.js:5-7 | moving the slider forward never hides a report |
| MapFilters.TurbAtSliderTimeKept | src/turbulences/static/js/map_filter_functions.js:5-7 | a report stamped exactly at the slider time is shown |
| MapFilters.FilterAirep | src/turbulences/static/js/map_filter_functions.js:14-16 | an AIREP is kept iff the slider time lies within its reported time and expiry, both inclusive |
| MapFilters.FilterSigmet | src/turbulences/static/js/map_filter_functions.js:37-39 | a SIGMET is kept iff the slider time lies within its validity, both ends inclusive |
| MapFilters.FilterCat | src/turbulences/static/js/map_filter_functions.js:44-65 | the severe layer holds the valid areas of loose intensity 2, the moderate layer those of loose intensity 1 |
| MapFilters.WithinBounds | src/turbulences/static/js/map_filter_functions.js:15 | in milliseconds, a window keeps its feature exactly from its start to its end, both inclusive |
| MapFilters.EmptyWindowKeepsNothing | src/turbulences/static/js/map_filter_functions.js:38 | a window that ends before it starts keeps its feature at no time |
| MapFilters.UnreadableDateKeepsNothing | src/turbulences/static/js/map_filter_functions.js:38 | a date `Date.parse` cannot read hides the feature at every time |
| MapFilters.CatLayersDisjoint | src/turbulences/static/js/map_filter_functions.js:47-59 | no CAT area is in both layers, and one of another intensity is in neither |
| MapFilters.TrueIsModerate | src/turbulences/static/js/map_filter_functions.js:58 | through loose equality a boolean `true` intensity lands in the moderate layer |
| MapLive.JsRem | src/turbulences/static/js/map_live.js:64-66 | JavaScript's truncating remainder: Euclidean for non-negative counts; for a negative count it lies in `(-b, 0]` and differs from the count by a multiple of `b`, so its sign follows the count |
| MapLive.FloorDiv | src/turbulences/static/js/map_live.js:63-65 | `Math.floor(a / b)` is the greatest `q` with `q * b <= a` |
| MapLive.BreakdownExact | src/turbulences/static/js/map_live.js:63-66 | for a non-negative count the days, hours, minutes and seconds recombine into it and lie in their ranges |
| MapLive.BreakdownInjective | src/turbulences/static/js/map_live.js:63-66 | distinct non-negative counts have distinct breakdowns |
| MapLive.DaysShown | src/turbulences/static/js/map_live.js:67 | the days part is shown iff at least a full day has passed |
| MapLive.UptimeTextUnits | src/turbulences/static/js/map_live.js:63-69 | for a non-negative count the `d` unit is shown iff at least a day has passed, and the `h` unit iff the time past the last full day holds at least an hour |
| MapLive.UptimeTextTail | src/turbulences/static/js/map_live.js:69 | the text always ends with the minutes and seconds parts |
| MapLive.UptimeCounter.constructor | src/turbulences/static/js/map_live.js:59 | the counter starts at the page's value |
| MapLive.UptimeCounter.Tick | src/turbulences/static/js/map_live.js:60-70 | the counter grows by one and the display shows the value before the increment |

## Left out

- The trajectory library's `longer_than`, `resample`, `filter`, `agg_time` and `eval` are foreign calls. Resampling is a function parameter of `CalculateTraffic` whose `Resampling` outcome is an exception or the traffic `eval` returns, which is none when no flight is longer than a minute. The decoder's reply is an optional table, absent when it has no `cumul` entry. The outcome of the filter/aggregate pipeline (an exception, or the one-minute windows of every track) is the `Aggregation` parameter of `Turbulence`.
- TurbulenceRules.Threshold: the standard deviation is numpy's, passed in as `stdev`. The lemmas assume only that a constant column has spread 0. Floating-point rounding is not modelled; real arithmetic is exact.
- TurbulenceRules.OutsideIsDeviation: anomaly is modelled per track like the threshold. The library applies `assign` flight by flight.
- The thread, the `while self.running` loop and the one-second sleep of `calculate_live_turbulence` are left out (concurrency and time). `AdsbClient.Client.LiveCycle` is one pass of the loop body.
- `start_from_file` and `start_from_database` are left out. They read a file or a database (I/O) and then run the same pipeline.
- The timestamp conversion of `traffic_decoder` and the conversion of the decoder's table to a data frame are left out. The table is kept as given.
- Websocket I/O is left out: opening the connection, reconnecting, the heartbeat task, the `ConnectionClosed` handling and JSON text encoding and decoding. Frames are modelled as decoded JSON values, and `Phoenix.Jet1090Client.Connect` only records that the connection is open.
- Phoenix.Jet1090Client.Dispatch: the received frames are a sequence given in advance; reading them from the socket is left out. An error on a frame (malformed frame, missing status or response, unhashable key) is not caught: it leaves the `async for` and ends dispatching, as the model states. Exceptions raised by handlers are not modelled, and neither is the `ConnectionClosedError` path, which reconnects, rejoins every channel and then returns without dispatching more.
- Phoenix.Decode: a frame that unpacks into five items without being a list (a dict or string of length 5) is treated as malformed.
- Awaiting the handlers' coroutines is left out. Handlers are modelled as opaque identifiers and assumed not to change the registry while it is being iterated. Every handler runs exactly once with the frame's arguments, in an unspecified order, since the Python set has no defined order.
- The `on` and `off` decorators (lines 81-92) are thin wrappers around `on_event` and `off_event`. They are not modelled separately.
- `join_async`, `send_async` and `send` differ only in awaiting. They share `Phoenix.Channel.Send` and `Phoenix.Channel.Join`.
- `Jet1090WebsocketClient.__new__` stores a class attribute that the metaclass already supersedes. The asyncio event loop is left out.
- MapFilters.FilterTurb: a report time given as a string or a boolean is not modelled; times are numbers, `null` or missing.
- Common.JsValue: JavaScript numbers are integers here, and arrays and objects are not values, so a table cell holding `1.5`, an array (`a,b`) or an object (`[object Object]`) is not modelled; the tag-count lemmas do not depend on cell text.
- DOM, Leaflet, jQuery and chart effects are left out: layers, popups, `innerHTML` other than the uptime text, and chart drawing. `TangramMap.FeatureColumns` returns the columns the chart would be drawn with.
- `new Date()` is left out (a clock). `TangramMap.GetTimeString` takes the local and UTC hours and minutes as input.
- TangramMap.Flatten: the source writes the intensity into each feature's coordinate arrays in place and pushes those same arrays. The model works on values, so that aliasing is not captured.
- TangramMap.Selected.Get: `Reflect.get` fallback through the prototype chain is not modelled. Absent properties read as undefined.
- MapFilters.LooseEqualsInt: strings are compared with the canonical decimal spelling only. Spellings such as `"02"`, `" 2"` or `"2.0"`, which JavaScript also equals to 2, are not modelled.
- MapFilters.Seconds: `Date.parse` is abstracted as an optional number of milliseconds. Date-string parsing is not modelled.
- MapLive.UptimeCounter.constructor: the page's text is assumed to be an integer. A non-numeric text (NaN) is not modelled.
- TurbulenceMap.LoadTable: `$.each` over an object rather than an array is not modelled. The DOM update of the table body is left out.
- TurbulenceMap.FormEncode: one encoded character per code point; lone surrogates are not modelled.
- src/turbulences/static/js/map_history.js and the server views are not part of this model.

## Findings

| source | as written | input that shows it | evidently intended | confidence | as-written member | corrected member |
|---|---|---|---|---|---|---|
| src/turbulences/static/js/map_functions.js:111 | `loadTable` closes every row with a second opening tag, `rows += row + "<tr>"` | one data item and no fields give `<tr><tr>`; every non-empty table ends with an unclosed `<tr>` | each row closed with `</tr>` | not executed | TurbulenceMap.TableAsWrittenEndsOpen | TurbulenceMap.ClosedTableEndsClosed |

`TurbulenceMap.LoadTable` and `TurbulenceMap.SingleRowAsWritten` also model the code as written. `TurbulenceMap.ClosedTable` is the corrected table. `TurbulenceMap.ClosedTableTagCount` shows that the correction keeps the tag count.
