# Sjöfartsverket sensor plugin — Dafny model

This project models the data handling of the Home Assistant platform
`custom_components/sjofartsverket/sensor.py`. The platform polls the
Sjöfartsverket VIVA station service and publishes each sample of a station
(water level, wind, temperature, …) as its own sensor entity. Three parts are
modelled on already-decoded data:

- **Location splitting** (`setup_platform`). The `location` option becomes the
  list of station ids, split on `,` exactly as Python's `str.split(",")` does
  (module `Locations`).
- **Sensor creation** (`add_sensors`). Each station yields one sensor per
  sample of its first response. Each sensor carries the station's reported
  `Name`, not the configured id (module `Setup`).
- **The per-poll update** (`entityRepresentation.update`). The sensor builds
  `prefix_location_sampleName` and scans the fresh sample list for samples with
  that composite name. For each match it overwrites state and unit and merges
  `type`, `last_modified` and the truthy whitelisted optional fields into the
  attribute map. No key is ever removed (module `Entity`). One loop iteration
  is made of the helpers `Entity.Matches` (the comparison at sensor.py:126),
  `Entity.Copied` (the whitelist filter at sensor.py:131-133), `Entity.Merge`
  (the attribute writes at sensor.py:129-133) and `Entity.ApplySample` (the
  whole body at sensor.py:126-133); `Entity.Scan` runs them over the list.

A decoded response is `StationRecord(name, samples)`. A `Sample` has typed
`name`, `value`, `unit`, `kind` (the JSON `Type`) and `updated` fields, and an
`extra` map holding every other field. A string field is truthy when it is
non-empty. A sensor's `name`, `state` and `unit` are `Option`s that stay `None`
until the first poll sets them.

The composite name is built from the location fixed at construction on both
sides of the comparison (sensor.py:78, 124, 126). Matching therefore reduces to
equality of sample names (`Entity.MatchesIff`). The station name carried by a
later poll is never consulted (`Entity.UpdateIgnoresStationName`). A station
renamed upstream keeps matching its samples through the name fixed at setup,
and its entity name stays the old one.

## Model

| member | source | states |
|---|---|---|
| Locations.Split | custom_components/sjofartsverket/sensor.py:41 | splitting on a character yields one piece more than there are separators, and no piece contains the separator |
| Locations.JoinSplit | custom_components/sjofartsverket/sensor.py:41 | gluing the split pieces back with the separator restores the string, so nothing is trimmed or dropped |
| Locations.SplitJoin | custom_components/sjofartsverket/sensor.py:41 | splitting a join of separator-free pieces gives back exactly those pieces; with JoinSplit, split and join are inverse |
| Locations.LocationIds | custom_components/sjofartsverket/sensor.py:40-47 | a location without a comma is handled once and whole; otherwise it gives comma-count + 1 comma-free ids that join back to the option |
| Locations.LocationIdsUnique | custom_components/sjofartsverket/sensor.py:40-47 | the ids are the only comma-free pieces that join back to the option, so each piece is handled exactly once and in order |
| Locations.LocationIdsKeepSpacesAndEmpties | custom_components/sjofartsverket/sensor.py:41 | `",111, 222"` gives `""`, `"111"` and `" 222"`: empty pieces are kept and spaces are not trimmed |
| Setup.AddSensors | custom_components/sjofartsverket/sensor.py:59-67 | a fetch that returns no data creates no sensor; otherwise one unpolled sensor per sample, in sample order, located at the station's reported Name |
| Setup.SensorsForIds | custom_components/sjofartsverket/sensor.py:43-45 | every sensor created for a list of ids carries the configured prefix and starts unpolled with empty attributes |
| Setup.SetupPlatform | custom_components/sjofartsverket/sensor.py:36-47 | a location without a comma sets up exactly that one station's sensors; all sensors carry the prefix and start with empty attributes |
| Setup.SensorsForIdsAppend | custom_components/sjofartsverket/sensor.py:43-45 | the sensors of a concatenated id list are the concatenation of each part's sensors, so a fetch that returns no data removes only that id's sensors |
| Setup.SensorsForSingleId | custom_components/sjofartsverket/sensor.py:44-45 | a one-id list sets up exactly that id's station, from its own fetch |
| Setup.SetupPlatformIds | custom_components/sjofartsverket/sensor.py:40-47 | for every location made of comma-free pieces joined by commas, setup handles exactly those pieces, each once and in order |
| Setup.SetupTwoStations | custom_components/sjofartsverket/sensor.py:40-45 | `"111,222"` sets up station 111's sensors followed by station 222's, each from its own fetch |
| Entity.MatchesIff | custom_components/sjofartsverket/sensor.py:124-126 | a polled sample matches iff its Name equals the sensor's own sample Name, because prefix and location are the same on both sides |
| Entity.Scan | custom_components/sjofartsverket/sensor.py:125-133 | the scan keeps identity and name, only adds attribute keys, and adds none outside type, last_modified and the whitelist |
| Entity.Update | custom_components/sjofartsverket/sensor.py:122-137 | a poll with no body (`rest.data` is None) leaves the sensor unchanged; otherwise the name becomes the composite name, and attribute keys only grow within the allowed set |
| Entity.LastMatch | custom_components/sjofartsverket/sensor.py:125-126 | reference definition: the index of the last matching sample, None exactly when no sample matches |
| Entity.LastWriter | custom_components/sjofartsverket/sensor.py:129-133 | reference definition: the index of the last sample that writes a given attribute key, None exactly when none does |
| Entity.ScanLastMatch | custom_components/sjofartsverket/sensor.py:125-130 | after the scan, state, unit, type and last_modified are those of the last matching sample; without a match the sensor is unchanged |
| Entity.ScanAttribute | custom_components/sjofartsverket/sensor.py:129-133 | each attribute key holds the value of the last sample that writes it; a key nobody writes keeps its presence and value |
| Entity.ScanIdempotent | custom_components/sjofartsverket/sensor.py:125-133 | scanning the same sample list twice gives the same sensor as scanning it once |
| Entity.UpdateNoMatch | custom_components/sjofartsverket/sensor.py:125-133 | if no polled sample has the sensor's sample Name, state, unit and attribute map are unchanged |
| Entity.UpdateLastMatch | custom_components/sjofartsverket/sensor.py:125-130 | with duplicate names, the last sample carrying the sensor's Name sets state = Value, unit = Unit, type = Type and last_modified = Updated |
| Entity.UpdateOptionalAttribute | custom_components/sjofartsverket/sensor.py:113-133 | a whitelisted key is written only from a matching sample where it is truthy, with the last such value; otherwise it is kept or stays absent |
| Entity.UpdateOtherKeys | custom_components/sjofartsverket/sensor.py:113-133 | a key outside type, last_modified and the whitelist is never added, changed or removed |
| Entity.UpdateIdempotent | custom_components/sjofartsverket/sensor.py:122-133 | polling the same response twice yields the same sensor as polling it once |
| Entity.UpdateIgnoresStationName | custom_components/sjofartsverket/sensor.py:124-126 | the station Name in a poll response has no effect on the update |

## Left out

- HTTP fetching through `RestData` and the endpoint concatenation (sensor.py:50-57, 122). This is network I/O through a library outside this model. Setup takes a `fetch` function that stands for fetching plus decoding, and Update takes the decoded body.
- JSON decoding with `json.loads`. Responses are given as `StationRecord` values. `add_sensors` reads no sample field. `update()` reads `Name` from the sensor's own sample and from every polled sample (sensor.py:124, 126), but reads `Unit`, `Value`, `Type` and `Updated` only from a matching sample (sensor.py:127-130). Only those accesses raise an uncaught `KeyError` when the field is missing. The typed `Sample` requires all five fields, so the model also excludes responses the source accepts: a non-matching polled sample, or a setup-time sample, that lacks one of `Unit`, `Value`, `Type` or `Updated`. No claim is made about malformed input beyond "no body".
- The `except TypeError` path (sensor.py:134-137). It is modelled only for a poll with no body (`rest.data` is None, so `json.loads(None)` raises), which leaves the sensor as it was. A `TypeError` raised midway through the sample loop leaves a partial update in Python, and this is not modelled.
- Any body that decodes to something other than a station object. The name is set at sensor.py:124 first. For JSON `null`, a list, a string, a number or a boolean, the `TypeError` at line 125 is then caught, so on a first poll the name changes. For an object without `GetSingleStationResult` (such as `{"unexpected": true}`), line 125 raises a `KeyError` that escapes `update()`. None of this is modelled.
- A body that is not JSON at all (an HTML error page, an empty string). `json.loads` raises `JSONDecodeError`, a `ValueError` that line 134 does not catch, so it escapes `update()`. This is not modelled.
- A malformed response during setup. The loop at sensor.py:44-45 has no `try`, so a `KeyError` at line 65 or a `JSONDecodeError` at line 63 for one id aborts setup of every later id. The `fetch` parameter returns either a decoded station or no data and cannot express this; the independence of stations is proved only for fetches that return no data.
- Non-string JSON values in optional fields (numbers, `null`, `false`). Truthiness is modelled for strings only.
- `add_devices(sensors, True)` asks the host to run one update before adding the sensors. Scheduling that update is host behaviour; the update itself is `Entity.Update`.
- Entity properties (`name`, `state`, `device_state_attributes`, `unit_of_measurement`, `icon`), the configuration schema and its defaults, `SCAN_INTERVAL` and logging. These are host plumbing. The unset `_state`/`_unit`/`_name` before the first update are modelled as `None` rather than as an `AttributeError`.
- The numeric-extraction mode of an asynchronous variant of the plugin. It is not in sensor.py.
