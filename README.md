# Flight-vector record processing

A Dafny model of the record-processing core of `project2.py`, the script that
analyses live flight state vectors. Each vector is a loosely typed dictionary
(`icao24`, `callsign`, position, speeds, altitude, plus whatever else the feed
sends). The model covers the three stages that work on the in-memory list:

- **cleanup**: project every record onto the seven analysed fields, then drop
  every record in which one of them is `None` (module `Cleaning`);
- **enhance** and **customize**: update every record in place with aircraft
  metadata (manufacturer, type, registered owners) from an external lookup, or
  with `"unknown"` for all three; `customize` hands the list back as it is
  (module `Decorate`);
- **the four extremum queries**: highest and lowest plane by `geo_altitude`,
  fastest climber and fastest descender by `vertical_rate`. Each is Python's
  `max`/`min` with a key, i.e. one left-to-right scan that keeps the first
  extremal record and raises on an empty list (modules `Extrema`, `Queries`).

Records are values of type `map<string, Value>`, where `Value` is `None`, a
boolean, a number (a `real`) or a string. Python exceptions are `Result`
errors: `EmptySequence` for the `ValueError` of `max`/`min` on an empty list,
`MissingKey(k)` for a `KeyError`. The lookup `aircraft_info` is a function
parameter `Value -> Option<Record>`. Enhance works on an `array<Record>`, which
stands for the list it updates in place.

Two places where the model follows the code rather than the documentation:
- A record that lacks one of the seven keys makes `d[k]` raise `KeyError`
  (project2.py:42). Only records that hold `None` are dropped
  (project2.py:44). `Cleanup` therefore requires every key to be present.
- The docstring of `customize` (project2.py:74-76, 80) promises a
  `center_distance` key. The code returns the list unchanged
  (project2.py:84).

## Model

| member | source | states |
|---|---|---|
| `Cleaning.Project` | project2.py:40-42 | the projected record has exactly the seven keys `icao24, callsign, longitude, latitude, velocity, vertical_rate, geo_altitude`, each holding the input's value |
| `Cleaning.CompleteIffNoNone` | project2.py:44 | a record is kept exactly when none of its values is `None` (`None not in d.values()`) |
| `Cleaning.ProjectAll` | project2.py:42 | the projected list has one record per input record, in input order, each the projection of the input record at the same position |
| `Cleaning.Cleanup` | project2.py:31-45 | the output is no longer than the input; every output record has exactly the seven keys and no `None`; every output record is an element of the projected list; every element of the projected list without a `None` appears in the output |
| `Cleaning.CleanupAppend` | project2.py:42-44 | cleaning distributes over concatenation, so the kept records stay in input order (an order-preserving filter of the projection) |
| `Cleaning.CleanupIdempotent` | project2.py:40-44 | cleaning an already cleaned list changes nothing |
| `Records.Altitude` | project2.py:94 | the `key=` of the altitude queries: on a record holding a number under `geo_altitude`, that number |
| `Records.ClimbRate` | project2.py:114 | the `key=` of the vertical-rate queries: on a record holding a number under `vertical_rate`, that number |
| `Extrema.ArgMax` | project2.py:94 | the scan of `max` returns a position whose key is at least every key, and every earlier key is strictly smaller (first maximum wins) |
| `Extrema.ArgMin` | project2.py:104 | the scan of `min` returns a position whose key is at most every key, and every earlier key is strictly larger (first minimum wins) |
| `Extrema.FirstMaxUnique` | project2.py:94-114 | "largest key, and the first such" singles out one position, so both max queries (lines 94 and 114) are fully determined |
| `Extrema.FirstMinUnique` | project2.py:104-124 | "smallest key, and the first such" singles out one position, so both min queries (lines 104 and 124) are fully determined |
| `Queries.HighestPlane` | project2.py:87-94 | fails with `EmptySequence` exactly on the empty list; otherwise returns a record of the list whose `geo_altitude` is at least every record's, namely the first one with the greatest altitude |
| `Queries.LowestPlane` | project2.py:97-104 | fails exactly on the empty list; otherwise returns the first record with the least `geo_altitude`, at most every record's |
| `Queries.FastestClimber` | project2.py:107-114 | fails exactly on the empty list; otherwise returns the first record with the greatest `vertical_rate`, at least every record's |
| `Queries.FastestDescender` | project2.py:117-124 | fails exactly on the empty list; otherwise returns the first record with the least `vertical_rate`, at most every record's |
| `Queries.AltitudeScenario` | project2.py:94-104 | on altitudes 1000, 5000, 3000 the highest plane is the second record and the lowest the first |
| `Queries.RateTieScenario` | project2.py:114-124 | on three equal vertical rates both the fastest climber and the fastest descender are the first record |
| `Decorate.SelectMetadata` | project2.py:58-64 | succeeds exactly when the lookup answer holds all three metadata keys and then copies their values; otherwise fails with `KeyError` on the first missing key in the order `Manufacturer, Type, RegisteredOwners` |
| `Decorate.EnhanceRecordBranches` | project2.py:57-67 | a `None` or empty lookup answer sets all three keys to `"unknown"`; a non-empty answer with the three keys copies their values; a non-empty answer lacking one fails with `KeyError` on the first missing key; on success the keys are the old keys plus the three, and every other key keeps its value |
| `Decorate.Enhanced` | project2.py:62-67 | the update of one record uses the lookup answer for the record's own `icao24` value (a missing `icao24` raises `KeyError`, hence the requires); it fails exactly when that answer is non-empty and lacks a metadata key; on success `icao24` keeps its value |
| `Decorate.EnhancedIdempotent` | project2.py:61-67 | updating a record leaves its `icao24` alone, so updating it a second time gives the same record |
| `Decorate.FirstFailing` | project2.py:61-64 | gives the number of leading records whose update succeeds: every record before it succeeds, and the record at it (if any) fails |
| `Decorate.Enhance` | project2.py:48-69 | the list keeps its length and order; when no lookup answer is malformed every record is replaced by its updated version and nothing is raised; otherwise the loop raises the first failing record's `KeyError`, with the records before it updated and the record and those after it unchanged |
| `Decorate.Customize` | project2.py:72-84 | returns its input list unchanged |
| `Pipeline.CleanedThenEnhanced` | project2.py:154 | every cleaned record holds `icao24`, so enhance may be applied to it, and after a successful update it has exactly the seven fields plus the three metadata keys |

## Left out

- `get_my_geo` (project2.py:12-28): a network request. It also returns a status code rather than coordinates.
- `dump_raw` (project2.py:127-134): an empty stub for writing a file.
- The module-level script (project2.py:137-169): credentials, the bounding-box fetch, the `vectors.json` fallback, `exit(1)` and the printed report. This is all I/O and presentation. `Pipeline.CleanedThenEnhanced` covers only how the stages compose on line 154.
- `p2_utils` (haversine, bounding box, vector fetch, details formatting, `aircraft_info`, campus coordinates) is not part of this model. `aircraft_info` is modelled only as the lookup parameter of `Enhance`. Its answer for one `icao24` value is assumed to be the same on every call.
- Great-circle distances are not modelled. No function of the modelled core computes one: `haversine` lives in `p2_utils`, and `customize` never calls it.
- `sphereProperties.py` and `Project 1/main.py` are not part of this model. The first is console I/O and float formulas. The second is an earlier script with the same extremum scans written as explicit loops.
- Float semantics are not modelled. Numbers are reals, which is sound because the core only compares them. NaN is left out.
- `Decorate.Enhance`: aliasing is not modelled. Each array slot is its own record, whereas Python could hold one dictionary in two slots of the list. In a run that raises nothing, `Decorate.EnhancedIdempotent` shows this would not change the final contents. In a run that raises, a later slot sharing a dictionary with an already updated slot would show the update, while the model leaves that slot unchanged. The list that reaches `enhance` in the script (project2.py:154) comes from `cleanup`, which builds a fresh dictionary per record (project2.py:42), so it never holds one dictionary twice.
- `Decorate.Enhance`: Python returns the same list object it was given. The method updates the caller's array in place and returns only the raised error, if any.
- `Decorate.Enhance`: requires every record to hold `icao24`. Without it, `p['icao24']` raises `KeyError`, which the source does not handle. The cleanup stage guarantees the key.
- `Cleaning.Cleanup`: requires all seven fields in every input record. Without them, `d[k]` raises `KeyError`, which the source does not handle.
- `Queries.HighestPlane`: requires a number under `geo_altitude` in every record. Python raises on a missing key or on a comparison between `None` and a number. It would, however, also accept a one-element list with any value, or a list of all-string values.
- `Queries.LowestPlane`: has the same precondition on `geo_altitude` as `Queries.HighestPlane`, for the same reason.
- `Queries.FastestClimber`: has the same precondition, on `vertical_rate`.
- `Queries.FastestDescender`: has the same precondition, on `vertical_rate`.
