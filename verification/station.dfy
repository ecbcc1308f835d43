/**
 This module holds the already-decoded payload of one station poll: the
 `GetSingleStationResult` object of the Sjöfartsverket VIVA service.
 */
module Station {

  /** One entry of `Samples`. The five fields the update reads from a matching
      sample are typed and required here (`kind` is the JSON `Type` field); every other field of the sample, the
      optional ones such as `Trend` or `Heading` among them, stays in `extra`
      under its JSON name. */
  datatype Sample = Sample(
    name: string,
    value: string,
    unit: string,
    kind: string,
    updated: string,
    extra: map<string, string>)

  /** A station as the service reports it: its display `Name` and its samples in list order. */
  datatype StationRecord = StationRecord(name: string, samples: seq<Sample>)
}
