/**
 Platform setup: every configured station id is fetched once and yields one
 fresh sensor per sample of its first response. The fetch (HTTP request plus
 JSON decoding) is a parameter; it returns None when no body came back.
 */
module Setup {
  import opened Wrappers
  import opened Station
  import opened Entity
  import opened Locations

  /** `add_sensors` for one station: nothing when the fetch failed, else one
      sensor per sample in sample order, each named after the station's
      reported `Name` (not the configured id) and not yet polled. */
  function AddSensors(prefix: string, fetched: Option<StationRecord>): (sensors: seq<Sensor>)
    ensures fetched.None? ==> sensors == []
    ensures fetched.Some? ==> |sensors| == |fetched.value.samples|
    ensures fetched.Some? ==> forall i :: 0 <= i < |sensors| ==>
      && sensors[i].id == Identity(prefix, fetched.value.name, fetched.value.samples[i])
      && sensors[i].name.None? && sensors[i].state.None? && sensors[i].unit.None?
      && sensors[i].attributes == map[]
  {
    match fetched
    case None => []
    case Some(station) =>
      seq(|station.samples|, i requires 0 <= i < |station.samples| =>
        NewSensor(prefix, station.name, station.samples[i]))
  }

  /** The sensors of the given station ids, station after station. */
  function SensorsForIds(prefix: string, ids: seq<string>, fetch: string -> Option<StationRecord>): (sensors: seq<Sensor>)
    ensures forall i :: 0 <= i < |sensors| ==>
      && sensors[i].id.prefix == prefix
      && sensors[i].name.None? && sensors[i].state.None? && sensors[i].unit.None?
      && sensors[i].attributes == map[]
    decreases |ids|
  {
    if ids == [] then [] else AddSensors(prefix, fetch(ids[0])) + SensorsForIds(prefix, ids[1..], fetch)
  }

  /** `setup_platform`: the sensors of every id in the `location` option. */
  function SetupPlatform(prefix: string, location: string, fetch: string -> Option<StationRecord>): (sensors: seq<Sensor>)
    ensures Separator !in location ==> sensors == AddSensors(prefix, fetch(location))
    ensures forall i :: 0 <= i < |sensors| ==> sensors[i].id.prefix == prefix && sensors[i].attributes == map[]
  {
    var ids := LocationIds(location);
    assert Separator !in location ==>
      SensorsForIds(prefix, ids, fetch) == AddSensors(prefix, fetch(location)) + SensorsForIds(prefix, [], fetch);
    SensorsForIds(prefix, ids, fetch)
  }

  /** The sensors of a list of ids are those of its first part followed by
      those of the rest, so a fetch that returns no data removes only that
      id's sensors. */
  lemma {:induction false} SensorsForIdsAppend(prefix: string, ids1: seq<string>, ids2: seq<string>, fetch: string -> Option<StationRecord>)
    ensures SensorsForIds(prefix, ids1 + ids2, fetch)
         == SensorsForIds(prefix, ids1, fetch) + SensorsForIds(prefix, ids2, fetch)
    decreases |ids1|
  {
    if ids1 == [] {
      assert ids1 + ids2 == ids2;
    } else {
      assert (ids1 + ids2)[1..] == ids1[1..] + ids2;
      SensorsForIdsAppend(prefix, ids1[1..], ids2, fetch);
    }
  }

  /** A list of one id sets up exactly that id's station. */
  lemma SensorsForSingleId(prefix: string, id: string, fetch: string -> Option<StationRecord>)
    ensures SensorsForIds(prefix, [id], fetch) == AddSensors(prefix, fetch(id))
  {
    assert SensorsForIds(prefix, [id], fetch) == AddSensors(prefix, fetch(id)) + SensorsForIds(prefix, [], fetch);
  }

  /** Any location made of comma-free pieces joined by commas sets up exactly
      those pieces, each once and in order. */
  lemma SetupPlatformIds(prefix: string, ids: seq<string>, fetch: string -> Option<StationRecord>)
    requires |ids| >= 1
    requires forall i :: 0 <= i < |ids| ==> Separator !in ids[i]
    ensures SetupPlatform(prefix, Join(ids, Separator), fetch) == SensorsForIds(prefix, ids, fetch)
  {
    LocationIdsUnique(Join(ids, Separator), ids);
  }

  /** `location = "111,222"` sets up station 111 and then station 222, each on its own. */
  lemma SetupTwoStations(prefix: string, fetch: string -> Option<StationRecord>)
    ensures SetupPlatform(prefix, "111,222", fetch)
         == AddSensors(prefix, fetch("111")) + AddSensors(prefix, fetch("222"))
  {
    var ids := ["111", "222"];
    assert Join(ids, Separator) == "111" + [Separator] + "222" == "111,222";
    SetupPlatformIds(prefix, ids, fetch);
    assert ["111"] + ["222"] == ids;
    SensorsForIdsAppend(prefix, ["111"], ["222"], fetch);
    SensorsForSingleId(prefix, "111", fetch);
    SensorsForSingleId(prefix, "222", fetch);
  }
}
