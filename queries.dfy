/** The four extremum queries of the analysis: each is `max` or `min` over the
    list of planes with one numeric field as key. */
module Queries {
  import opened Records
  import opened Extrema

  /** Every record holds a number under key k; a missing key raises KeyError
      and a None or string value makes the comparison raise TypeError. */
  predicate AllHaveNumber(planes: seq<Record>, k: string) {
    forall i :: 0 <= i < |planes| ==> HasNumber(planes[i], k)
  }

  /** `max(airplanes, key=lambda d: d['geo_altitude'])` */
  function HighestPlane(planes: seq<Record>): (r: Result<Record>)
    requires AllHaveNumber(planes, GeoAltitude)
    ensures r.Err? <==> planes == []
    ensures r.Err? ==> r.error == EmptySequence
    ensures r.Ok? ==> r.value in planes
    ensures r.Ok? ==> forall p: Record :: p in planes ==> p[GeoAltitude].x <= r.value[GeoAltitude].x
    ensures r.Ok? ==> exists i :: IsFirstMax(planes, Altitude, i) && r.value == planes[i]
  {
    if planes == [] then Err(EmptySequence) else Ok(planes[ArgMax(planes, Altitude)])
  }

  /** `min(airplanes, key=lambda d: d['geo_altitude'])` */
  function LowestPlane(planes: seq<Record>): (r: Result<Record>)
    requires AllHaveNumber(planes, GeoAltitude)
    ensures r.Err? <==> planes == []
    ensures r.Err? ==> r.error == EmptySequence
    ensures r.Ok? ==> r.value in planes
    ensures r.Ok? ==> forall p: Record :: p in planes ==> r.value[GeoAltitude].x <= p[GeoAltitude].x
    ensures r.Ok? ==> exists i :: IsFirstMin(planes, Altitude, i) && r.value == planes[i]
  {
    if planes == [] then Err(EmptySequence) else Ok(planes[ArgMin(planes, Altitude)])
  }

  /** `max(airplanes, key=lambda d: d['vertical_rate'])` */
  function FastestClimber(planes: seq<Record>): (r: Result<Record>)
    requires AllHaveNumber(planes, VerticalRate)
    ensures r.Err? <==> planes == []
    ensures r.Err? ==> r.error == EmptySequence
    ensures r.Ok? ==> r.value in planes
    ensures r.Ok? ==> forall p: Record :: p in planes ==> p[VerticalRate].x <= r.value[VerticalRate].x
    ensures r.Ok? ==> exists i :: IsFirstMax(planes, ClimbRate, i) && r.value == planes[i]
  {
    if planes == [] then Err(EmptySequence) else Ok(planes[ArgMax(planes, ClimbRate)])
  }

  /** `min(airplanes, key=lambda d: d['vertical_rate'])` */
  function FastestDescender(planes: seq<Record>): (r: Result<Record>)
    requires AllHaveNumber(planes, VerticalRate)
    ensures r.Err? <==> planes == []
    ensures r.Err? ==> r.error == EmptySequence
    ensures r.Ok? ==> r.value in planes
    ensures r.Ok? ==> forall p: Record :: p in planes ==> r.value[VerticalRate].x <= p[VerticalRate].x
    ensures r.Ok? ==> exists i :: IsFirstMin(planes, ClimbRate, i) && r.value == planes[i]
  {
    if planes == [] then Err(EmptySequence) else Ok(planes[ArgMin(planes, ClimbRate)])
  }

  function PlaneAt(alt: real, rate: real): Record {
    map[GeoAltitude := Num(alt), VerticalRate := Num(rate)]
  }

  const Scenario: seq<Record> := [PlaneAt(1000.0, 2.0), PlaneAt(5000.0, 2.0), PlaneAt(3000.0, 2.0)]

  /** Altitudes 1000, 5000, 3000: the highest plane is the second record and
      the lowest the first. */
  lemma AltitudeScenario()
    ensures HighestPlane(Scenario) == Ok(Scenario[1])
    ensures LowestPlane(Scenario) == Ok(Scenario[0])
  {
    var planes := Scenario;
    assert Altitude(planes[0]) == 1000.0;
    assert Altitude(planes[1]) == 5000.0;
    assert Altitude(planes[2]) == 3000.0;
    FirstMaxUnique(planes, Altitude, 1, ArgMax(planes, Altitude));
    FirstMinUnique(planes, Altitude, 0, ArgMin(planes, Altitude));
  }

  /** With equal vertical rates the first record wins both rate queries. */
  lemma RateTieScenario()
    ensures FastestClimber(Scenario) == Ok(Scenario[0])
    ensures FastestDescender(Scenario) == Ok(Scenario[0])
  {
    var planes := Scenario;
    assert ClimbRate(planes[0]) == 2.0 && ClimbRate(planes[1]) == 2.0 && ClimbRate(planes[2]) == 2.0;
    FirstMaxUnique(planes, ClimbRate, 0, ArgMax(planes, ClimbRate));
    FirstMinUnique(planes, ClimbRate, 0, ArgMin(planes, ClimbRate));
  }
}
