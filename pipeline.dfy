/** How the stages fit together: `customize(lat, lon, enhance(cleanup(vectors)))`. */
module Pipeline {
  import opened Records
  import opened Cleaning
  import opened Decorate

  /** Every cleaned record can be handed to enhance (it holds `icao24`), and
      a successful update leaves it with exactly the seven analysed fields
      and the three metadata keys. */
  lemma CleanedThenEnhanced(planes: seq<Record>, aircraftInfo: AircraftInfo, i: int)
    requires forall j :: 0 <= j < |planes| ==> HasFields(planes[j])
    requires 0 <= i < |Cleanup(planes)|
    ensures Icao24 in Cleanup(planes)[i]
    ensures Enhanced(Cleanup(planes)[i], aircraftInfo).Ok? ==>
      Enhanced(Cleanup(planes)[i], aircraftInfo).value.Keys == FieldNames + MetadataKeySet
  {
  }
}
