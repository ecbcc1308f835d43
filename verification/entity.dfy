/**
 One sensor entity (`entityRepresentation`): its fixed identity, the state it
 publishes, and the per-poll update that finds its sample in a fresh sample
 list and merges it into the state.
 */
module Entity {
  import opened Wrappers
  import opened Station

  /** The optional sample fields an update may copy into the attributes. */
  const Whitelist: set<string> :=
    {"Trend", "Msg", "Calm", "Heading", "WaterLevelReference", "WaterLevelOffset"}

  /** Attribute keys every matching sample writes. */
  const TypeKey: string := "type"
  const ModifiedKey: string := "last_modified"

  /** Python truthiness of a decoded string field. */
  predicate Truthy(v: string)
  {
    v != ""
  }

  /** What the sensor is given at construction and never changes: the
      configured prefix, the station's reported name, and the sample it was
      created for. */
  datatype Identity = Identity(prefix: string, location: string, data: Sample)

  /** A sensor: `name`, `state` and `unit` stay None until a poll sets them;
      `attributes` starts empty. */
  datatype Sensor = Sensor(
    id: Identity,
    name: Option<string>,
    state: Option<string>,
    unit: Option<string>,
    attributes: map<string, string>)

  function NewSensor(prefix: string, location: string, data: Sample): Sensor
  {
    Sensor(Identity(prefix, location, data), None, None, None, map[])
  }

  /** The published entity name `prefix_location_sampleName`. */
  function CompositeName(prefix: string, location: string, sampleName: string): string
  {
    prefix + "_" + location + "_" + sampleName
  }

  function SensorName(id: Identity): string
  {
    CompositeName(id.prefix, id.location, id.data.name)
  }

  /** A polled sample belongs to the sensor when the composite name built from
      the sensor's own prefix and location and the sample's name equals the
      sensor's name. */
  predicate Matches(id: Identity, d: Sample)
  {
    SensorName(id) == CompositeName(id.prefix, id.location, d.name)
  }

  /** Concatenation cancels on the left. */
  lemma ConcatCancel(a: string, b: string, c: string)
    ensures a + b == a + c <==> b == c
  {
    if a + b == a + c {
      assert b == (a + b)[|a|..];
      assert c == (a + c)[|a|..];
    }
  }

  /** Since the prefix and location are the sensor's own on both sides, a
      sample matches exactly when its name is the sensor's sample name. */
  lemma MatchesIff(id: Identity, d: Sample)
    ensures Matches(id, d) <==> d.name == id.data.name
  {
    ConcatCancel(id.prefix + "_" + id.location + "_", id.data.name, d.name);
  }

  /** The optional fields of `d` copied on a match: whitelisted and truthy. */
  function Copied(d: Sample): map<string, string>
  {
    map k | k in d.extra && k in Whitelist && Truthy(d.extra[k]) :: d.extra[k]
  }

  /** The attribute map after a matching sample: `type` and `last_modified`
      always, then the copied optional fields; nothing is removed. */
  function Merge(attributes: map<string, string>, d: Sample): map<string, string>
  {
    attributes[TypeKey := d.kind][ModifiedKey := d.updated] + Copied(d)
  }

  /** One iteration of the scan over the polled samples. */
  function ApplySample(s: Sensor, d: Sample): Sensor
  {
    if Matches(s.id, d) then
      s.(unit := Some(d.unit), state := Some(d.value), attributes := Merge(s.attributes, d))
    else
      s
  }

  /** The scan over the polled samples, in list order. It never touches the
      identity or the name, only adds attribute keys, and adds none outside
      `type`, `last_modified` and the whitelist. */
  function Scan(s: Sensor, samples: seq<Sample>): (r: Sensor)
    ensures r.id == s.id && r.name == s.name
    ensures s.attributes.Keys <= r.attributes.Keys
    ensures r.attributes.Keys <= s.attributes.Keys + {TypeKey, ModifiedKey} + Whitelist
    decreases |samples|
  {
    if samples == [] then s else Scan(ApplySample(s, samples[0]), samples[1..])
  }

  /** One poll. `body` is None when the poll produced no body at all, which
      leaves the sensor as it was. Otherwise the name is (re)computed and the
      samples are scanned; the station name in the body plays no part. */
  function Update(s: Sensor, body: Option<StationRecord>): (r: Sensor)
    ensures r.id == s.id
    ensures body.None? ==> r == s
    ensures body.Some? ==> r.name == Some(CompositeName(s.id.prefix, s.id.location, s.id.data.name))
    ensures s.attributes.Keys <= r.attributes.Keys
    ensures r.attributes.Keys <= s.attributes.Keys + {TypeKey, ModifiedKey} + Whitelist
  {
    match body
    case None => s
    case Some(station) => Scan(s.(name := Some(SensorName(s.id))), station.samples)
  }

  // Reference definitions: which polled sample decides each field.

  /** The index of the last sample that matches, if any. */
  function LastMatch(id: Identity, samples: seq<Sample>): (i: Option<nat>)
    ensures i.None? <==> forall j :: 0 <= j < |samples| ==> !Matches(id, samples[j])
    ensures i.Some? ==> i.value < |samples| && Matches(id, samples[i.value])
    ensures i.Some? ==> forall j :: i.value < j < |samples| ==> !Matches(id, samples[j])
    decreases |samples|
  {
    if samples == [] then None
    else if Matches(id, samples[|samples| - 1]) then Some(|samples| - 1)
    else LastMatch(id, samples[..|samples| - 1])
  }

  /** Whether sample `d` writes attribute `k` when polled by the sensor. */
  predicate Writes(id: Identity, d: Sample, k: string)
  {
    Matches(id, d) && (k == TypeKey || k == ModifiedKey || k in Copied(d))
  }

  /** The index of the last sample that writes attribute `k`, if any. */
  function LastWriter(id: Identity, samples: seq<Sample>, k: string): (i: Option<nat>)
    ensures i.None? <==> forall j :: 0 <= j < |samples| ==> !Writes(id, samples[j], k)
    ensures i.Some? ==> i.value < |samples| && Writes(id, samples[i.value], k)
    ensures i.Some? ==> forall j :: i.value < j < |samples| ==> !Writes(id, samples[j], k)
    decreases |samples|
  {
    if samples == [] then None
    else if Writes(id, samples[|samples| - 1], k) then Some(|samples| - 1)
    else LastWriter(id, samples[..|samples| - 1], k)
  }

  /** Scanning one more sample is one more step after the scan. */
  lemma {:induction false} ScanSnoc(s: Sensor, samples: seq<Sample>, d: Sample)
    ensures Scan(s, samples + [d]) == ApplySample(Scan(s, samples), d)
    decreases |samples|
  {
    if samples == [] {
      assert [] + [d] == [d];
    } else {
      assert (samples + [d])[1..] == samples[1..] + [d];
      ScanSnoc(ApplySample(s, samples[0]), samples[1..], d);
    }
  }

  /** State, unit, `type` and `last_modified` come from the last matching
      sample; with no matching sample the sensor is left exactly as it was. */
  lemma {:induction false} ScanLastMatch(s: Sensor, samples: seq<Sample>)
    ensures var r := Scan(s, samples);
      match LastMatch(s.id, samples)
      case None => r == s
      case Some(i) =>
        && r.state == Some(samples[i].value)
        && r.unit == Some(samples[i].unit)
        && TypeKey in r.attributes && r.attributes[TypeKey] == samples[i].kind
        && ModifiedKey in r.attributes && r.attributes[ModifiedKey] == samples[i].updated
    decreases |samples|
  {
    if samples != [] {
      var init := samples[..|samples| - 1];
      var d := samples[|samples| - 1];
      assert samples == init + [d];
      ScanSnoc(s, init, d);
      ScanLastMatch(s, init);
      if Matches(s.id, d) {
        assert TypeKey !in Copied(d) && ModifiedKey !in Copied(d);
      }
    }
  }

  /** Each attribute key ends up with the value of the last sample that writes
      it; a key no sample writes keeps its presence and value. */
  lemma {:induction false} ScanAttribute(s: Sensor, samples: seq<Sample>, k: string)
    ensures var r := Scan(s, samples);
      match LastWriter(s.id, samples, k)
      case None =>
        && (k in r.attributes <==> k in s.attributes)
        && (k in s.attributes ==> r.attributes[k] == s.attributes[k])
      case Some(i) =>
        && k in r.attributes
        && r.attributes[k] == (if k == TypeKey then samples[i].kind
                               else if k == ModifiedKey then samples[i].updated
                               else samples[i].extra[k])
    decreases |samples|
  {
    if samples != [] {
      var init := samples[..|samples| - 1];
      var d := samples[|samples| - 1];
      assert samples == init + [d];
      ScanSnoc(s, init, d);
      ScanAttribute(s, init, k);
      if Matches(s.id, d) {
        assert TypeKey !in Copied(d) && ModifiedKey !in Copied(d);
      }
    }
  }

  /** Scanning the same samples a second time changes nothing. */
  lemma ScanIdempotent(s: Sensor, samples: seq<Sample>)
    ensures Scan(Scan(s, samples), samples) == Scan(s, samples)
  {
    var r1 := Scan(s, samples);
    var r2 := Scan(r1, samples);
    ScanLastMatch(s, samples);
    ScanLastMatch(r1, samples);
    forall k
      ensures k in r2.attributes <==> k in r1.attributes
      ensures k in r1.attributes ==> r2.attributes[k] == r1.attributes[k]
    {
      ScanAttribute(s, samples, k);
      ScanAttribute(r1, samples, k);
    }
    assert r2.attributes == r1.attributes;
  }

  // The properties of one poll, stated on Update.

  /** With no polled sample of the sensor's name, state, unit and attributes
      are left unchanged. */
  lemma UpdateNoMatch(s: Sensor, station: StationRecord)
    requires forall j :: 0 <= j < |station.samples| ==> station.samples[j].name != s.id.data.name
    ensures var r := Update(s, Some(station));
      r.state == s.state && r.unit == s.unit && r.attributes == s.attributes
  {
    var s1 := s.(name := Some(SensorName(s.id)));
    forall j | 0 <= j < |station.samples| ensures !Matches(s.id, station.samples[j]) {
      MatchesIff(s.id, station.samples[j]);
    }
    ScanLastMatch(s1, station.samples);
  }

  /** When several polled samples carry the sensor's name, the last one sets
      state, unit, `type` and `last_modified`. */
  lemma UpdateLastMatch(s: Sensor, station: StationRecord, i: nat)
    requires i < |station.samples| && station.samples[i].name == s.id.data.name
    requires forall j :: i < j < |station.samples| ==> station.samples[j].name != s.id.data.name
    ensures var r := Update(s, Some(station));
      && r.state == Some(station.samples[i].value)
      && r.unit == Some(station.samples[i].unit)
      && TypeKey in r.attributes && r.attributes[TypeKey] == station.samples[i].kind
      && ModifiedKey in r.attributes && r.attributes[ModifiedKey] == station.samples[i].updated
  {
    var s1 := s.(name := Some(SensorName(s.id)));
    MatchesIff(s.id, station.samples[i]);
    forall j | i < j < |station.samples| ensures !Matches(s.id, station.samples[j]) {
      MatchesIff(s.id, station.samples[j]);
    }
    ScanLastMatch(s1, station.samples);
  }

  /** A whitelisted field is written only from a sample of the sensor's name
      where it is truthy, the last such sample winning; otherwise the old
      value, or its absence, is kept. */
  lemma UpdateOptionalAttribute(s: Sensor, station: StationRecord, k: string)
    requires k in Whitelist
    ensures var r := Update(s, Some(station));
      match LastWriter(s.id, station.samples, k)
      case None =>
        && (k in r.attributes <==> k in s.attributes)
        && (k in s.attributes ==> r.attributes[k] == s.attributes[k])
      case Some(i) =>
        && station.samples[i].name == s.id.data.name
        && k in station.samples[i].extra && Truthy(station.samples[i].extra[k])
        && k in r.attributes && r.attributes[k] == station.samples[i].extra[k]
  {
    var s1 := s.(name := Some(SensorName(s.id)));
    assert Update(s, Some(station)) == Scan(s1, station.samples);
    ScanAttribute(s1, station.samples, k);
    match LastWriter(s.id, station.samples, k)
    case None =>
    case Some(i) =>
      var d := station.samples[i];
      MatchesIff(s.id, d);
      assert k in Copied(d);
      assert k in d.extra && Truthy(d.extra[k]);
  }

  /** A key outside `type`, `last_modified` and the whitelist is never added,
      changed or removed. */
  lemma UpdateOtherKeys(s: Sensor, body: Option<StationRecord>, k: string)
    requires k != TypeKey && k != ModifiedKey && k !in Whitelist
    ensures var r := Update(s, body);
      && (k in r.attributes <==> k in s.attributes)
      && (k in s.attributes ==> r.attributes[k] == s.attributes[k])
  {
    if body.Some? {
      var s1 := s.(name := Some(SensorName(s.id)));
      ScanAttribute(s1, body.value.samples, k);
    }
  }

  /** Polling the same body twice yields the same sensor as polling it once. */
  lemma UpdateIdempotent(s: Sensor, body: Option<StationRecord>)
    ensures Update(Update(s, body), body) == Update(s, body)
  {
    if body.Some? {
      var s1 := s.(name := Some(SensorName(s.id)));
      ScanIdempotent(s1, body.value.samples);
    }
  }

  /** The station name a poll reports is not consulted: a renamed station is
      still matched through the name fixed at construction. */
  lemma UpdateIgnoresStationName(s: Sensor, samples: seq<Sample>, name1: string, name2: string)
    ensures Update(s, Some(StationRecord(name1, samples))) == Update(s, Some(StationRecord(name2, samples)))
  {
  }
}
