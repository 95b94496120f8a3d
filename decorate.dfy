/** enhance and customize: decorate each cleaned record with derived
    attributes. */
module Decorate {
  import opened Records

  const Manufacturer := "Manufacturer"
  const Type := "Type"
  const RegisteredOwners := "RegisteredOwners"

  /** The metadata keys, in the order the comprehension reads them. */
  const MetadataKeys: seq<string> := [Manufacturer, Type, RegisteredOwners]
  const MetadataKeySet: set<string> := {Manufacturer, Type, RegisteredOwners}

  /** The record merged in when nothing is known about an aircraft. */
  const Unknown: Record :=
    map[Manufacturer := Str("unknown"), Type := Str("unknown"), RegisteredOwners := Str("unknown")]

  /** The metadata lookup by ICAO 24-bit address (aircraft_info): it may
      answer None, an empty dictionary or a dictionary of details. */
  type AircraftInfo = Value -> Option<Record>

  /** MetadataKeys[i] is the first metadata key that info lacks. */
  ghost predicate IsFirstMissing(info: Record, i: int) {
    && 0 <= i < |MetadataKeys|
    && MetadataKeys[i] !in info
    && forall j :: 0 <= j < i ==> MetadataKeys[j] in info
  }

  /** `{x: add_info[x] for x in add_key}`: the three keys are read in order
      and the first one missing raises KeyError. */
  function SelectMetadata(info: Record): (r: Result<Record>)
    ensures r.Ok? <==> MetadataKeySet <= info.Keys
    ensures r.Ok? ==> r.value.Keys == MetadataKeySet
    ensures r.Ok? ==> forall k :: k in MetadataKeySet ==> r.value[k] == info[k]
    ensures r.Err? ==> exists i :: IsFirstMissing(info, i) && r.error == MissingKey(MetadataKeys[i])
  {
    if Manufacturer !in info then
      assert IsFirstMissing(info, 0);
      Err(MissingKey(Manufacturer))
    else if Type !in info then
      assert IsFirstMissing(info, 1);
      Err(MissingKey(Type))
    else if RegisteredOwners !in info then
      assert IsFirstMissing(info, 2);
      Err(MissingKey(RegisteredOwners))
    else Ok(map[Manufacturer := info[Manufacturer], Type := info[Type],
                RegisteredOwners := info[RegisteredOwners]])
  }

  /** One iteration of enhance's loop: the record updated with the looked-up
      metadata, or with the all-"unknown" default when the lookup gave None
      or an empty dictionary. */
  function EnhanceRecord(p: Record, info: Option<Record>): Result<Record> {
    match info
    case None => Ok(p + Unknown)
    case Some(m) =>
      if m == map[] then Ok(p + Unknown)
      else
        match SelectMetadata(m)
        case Err(e) => Err(e)
        case Ok(s) => Ok(p + s)
  }

  /** What one update does, branch by branch: the default, the copied
      metadata, the KeyError on the first missing key, and every other key
      left alone. */
  lemma EnhanceRecordBranches(p: Record, info: Option<Record>)
    ensures var r := EnhanceRecord(p, info);
      && (r.Err? <==> info.Some? && info.value != map[] && !(MetadataKeySet <= info.value.Keys))
      && (r.Err? ==> info.Some? && exists i :: IsFirstMissing(info.value, i) && r.error == MissingKey(MetadataKeys[i]))
      && (r.Ok? ==> r.value.Keys == p.Keys + MetadataKeySet)
      && (r.Ok? ==> forall k :: k in p && k !in MetadataKeySet ==> r.value[k] == p[k])
      && (r.Ok? && (info.None? || info.value == map[]) ==>
            forall k :: k in MetadataKeySet ==> r.value[k] == Str("unknown"))
      && (r.Ok? && info.Some? && info.value != map[] ==>
            forall k :: k in MetadataKeySet ==> r.value[k] == info.value[k])
  {
  }

  /** The lookup goes through the record's own `icao24` value; a record
      without it makes `p['icao24']` raise KeyError. */
  function Enhanced(p: Record, aircraftInfo: AircraftInfo): (r: Result<Record>)
    requires Icao24 in p
    ensures r.Err? <==> var info := aircraftInfo(p[Icao24]);
      info.Some? && info.value != map[] && !(MetadataKeySet <= info.value.Keys)
    ensures r.Ok? ==> Icao24 in r.value && r.value[Icao24] == p[Icao24]
  {
    EnhanceRecordBranches(p, aircraftInfo(p[Icao24]));
    EnhanceRecord(p, aircraftInfo(p[Icao24]))
  }

  /** Enhancing never touches `icao24`, so enhancing a record twice gives
      what enhancing it once gives: in a run that raises nothing, a
      dictionary that sits twice in the list ends up as if updated once. */
  lemma EnhancedIdempotent(p: Record, aircraftInfo: AircraftInfo)
    requires Icao24 in p && Enhanced(p, aircraftInfo).Ok?
    ensures var q := Enhanced(p, aircraftInfo).value;
      Icao24 in q && q[Icao24] == p[Icao24] && Enhanced(q, aircraftInfo) == Enhanced(p, aircraftInfo)
  {
    var q := Enhanced(p, aircraftInfo).value;
    assert Icao24 !in MetadataKeySet;
    EnhanceRecordBranches(p, aircraftInfo(p[Icao24]));
    EnhanceRecordBranches(q, aircraftInfo(p[Icao24]));
    var r := Enhanced(q, aircraftInfo).value;
    assert r.Keys == q.Keys;
    assert forall k :: k in r ==> r[k] == q[k];
    assert r == q;
  }

  /** The number of leading records whose update succeeds: where enhance
      stops on a KeyError, or the length of the list. */
  function FirstFailing(ps: seq<Record>, aircraftInfo: AircraftInfo): (n: nat)
    requires forall i :: 0 <= i < |ps| ==> Icao24 in ps[i]
    ensures n <= |ps|
    ensures forall i :: 0 <= i < n ==> Enhanced(ps[i], aircraftInfo).Ok?
    ensures n < |ps| ==> Enhanced(ps[n], aircraftInfo).Err?
  {
    if ps == [] then 0
    else if Enhanced(ps[0], aircraftInfo).Err? then 0
    else 1 + FirstFailing(ps[1..], aircraftInfo)
  }

  /** enhance: every record of the list is updated in place, front to back;
      a KeyError from a malformed lookup answer stops the loop with the
      records before it already updated and the rest untouched. */
  method Enhance(planes: array<Record>, aircraftInfo: AircraftInfo) returns (raised: Option<Error>)
    requires forall i :: 0 <= i < planes.Length ==> Icao24 in planes[i]
    modifies planes
    ensures var stop := FirstFailing(old(planes[..]), aircraftInfo);
      && (raised.None? <==> stop == planes.Length)
      && (raised.Some? ==> stop < planes.Length && raised.value == Enhanced(old(planes[stop]), aircraftInfo).error)
      && (forall i :: 0 <= i < stop ==> planes[i] == Enhanced(old(planes[i]), aircraftInfo).value)
      && (forall i :: stop <= i < planes.Length ==> planes[i] == old(planes[i]))
  {
    ghost var before := planes[..];
    ghost var stop := FirstFailing(before, aircraftInfo);
    var i := 0;
    while i < planes.Length
      invariant 0 <= i <= stop
      invariant forall j :: 0 <= j < i ==> planes[j] == Enhanced(before[j], aircraftInfo).value
      invariant forall j :: i <= j < planes.Length ==> planes[j] == before[j]
    {
      var r := Enhanced(planes[i], aircraftInfo);
      if r.Err? {
        assert planes[i] == before[i];
        assert stop == i;
        return Some(r.error);
      }
      planes[i] := r.value;
      i := i + 1;
    }
    raised := None;
  }

  /** customize: the center distance its documentation describes is never
      added; the list comes back unchanged. */
  function Customize(lat: real, lon: real, planes: seq<Record>): (r: seq<Record>)
    ensures r == planes
  {
    planes
  }
}
