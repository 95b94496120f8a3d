/** Flight-vector records as the scripts see them: loosely typed dictionaries
    from field names to JSON values. */
module Records {

  /** A JSON value held in a record. Floats are modelled as reals: the core
      only ever compares them. */
  datatype Value = Null | Flag(b: bool) | Num(x: real) | Str(s: string)

  /** One plane's state vector, a Python dict keyed by field name. */
  type Record = map<string, Value>

  datatype Option<T> = None | Some(value: T)

  /** The exceptions the core raises: ValueError from max/min on an empty
      list, KeyError from a missing dictionary key. */
  datatype Error = EmptySequence | MissingKey(key: string)

  datatype Result<T> = Ok(value: T) | Err(error: Error)

  const Icao24 := "icao24"
  const Callsign := "callsign"
  const Longitude := "longitude"
  const Latitude := "latitude"
  const Velocity := "velocity"
  const VerticalRate := "vertical_rate"
  const GeoAltitude := "geo_altitude"

  /** The record holds a number under key k. */
  predicate HasNumber(r: Record, k: string) {
    k in r && r[k].Num?
  }

  /** The number under key k; the fallback 0.0 is never used where the
      callers' preconditions hold (HasNumber). */
  function NumberAt(r: Record, k: string): real {
    if HasNumber(r, k) then r[k].x else 0.0
  }

  /** The key of the altitude queries, `d['geo_altitude']`. */
  function Altitude(r: Record): (a: real)
    ensures HasNumber(r, GeoAltitude) ==> a == r[GeoAltitude].x
  {
    NumberAt(r, GeoAltitude)
  }

  /** The key of the vertical-rate queries, `d['vertical_rate']`. */
  function ClimbRate(r: Record): (v: real)
    ensures HasNumber(r, VerticalRate) ==> v == r[VerticalRate].x
  {
    NumberAt(r, VerticalRate)
  }
}
