/** cleanup: keep seven fields of every record, then drop the records in
    which one of them is None. */
module Cleaning {
  import opened Records

  /** The seven fields the analysis needs. */
  const FieldNames: set<string> :=
    {Icao24, Callsign, Longitude, Latitude, Velocity, VerticalRate, GeoAltitude}

  /** Projection needs every field: `d[k]` raises KeyError otherwise. */
  predicate HasFields(d: Record) {
    FieldNames <= d.Keys
  }

  /** `None not in d.values()`: the filter's test. */
  predicate Complete(d: Record) {
    Null !in d.Values
  }

  /** A record passes the filter exactly when none of its keys maps to None. */
  lemma CompleteIffNoNone(d: Record)
    ensures Complete(d) <==> forall k :: k in d ==> d[k] != Null
  {
  }

  /** The dictionary comprehension `{k: d[k] for k in lst}`. */
  function Project(d: Record): (r: Record)
    requires HasFields(d)
    ensures r.Keys == FieldNames
    ensures forall k :: k in FieldNames ==> r[k] == d[k]
  {
    map k | k in FieldNames :: d[k]
  }

  /** `list(map(lambda d: {k: d[k] for k in lst}, airplanes))`: one
      projected record per input record, in input order. */
  function ProjectAll(planes: seq<Record>): (r: seq<Record>)
    requires forall i :: 0 <= i < |planes| ==> HasFields(planes[i])
    ensures |r| == |planes|
    ensures forall i :: 0 <= i < |r| ==> r[i] == Project(planes[i])
  {
    if planes == [] then [] else [Project(planes[0])] + ProjectAll(planes[1..])
  }

  /** `list(filter(lambda d: None not in d.values(), clean_lst))` over the
      projected list. */
  function Cleanup(planes: seq<Record>): (r: seq<Record>)
    requires forall i :: 0 <= i < |planes| ==> HasFields(planes[i])
    ensures |r| <= |planes|
    ensures forall i :: 0 <= i < |r| ==> r[i].Keys == FieldNames && Complete(r[i])
    ensures forall x :: x in r ==> x in ProjectAll(planes)
    ensures forall x :: x in ProjectAll(planes) && Complete(x) ==> x in r
  {
    if planes == [] then []
    else
      var d := Project(planes[0]);
      var rest := Cleanup(planes[1..]);
      CleanupStep(planes, rest);
      (if Complete(d) then [d] else []) + rest
  }

  /** One step of the filter: what the recursive call promises about the
      tail extends to the whole list once the head is decided. */
  lemma CleanupStep(planes: seq<Record>, rest: seq<Record>)
    requires |planes| > 0 && forall i :: 0 <= i < |planes| ==> HasFields(planes[i])
    requires forall i :: 0 <= i < |rest| ==> rest[i].Keys == FieldNames && Complete(rest[i])
    requires forall x :: x in rest ==> x in ProjectAll(planes[1..])
    requires forall x :: x in ProjectAll(planes[1..]) && Complete(x) ==> x in rest
    ensures var d := Project(planes[0]);
      var r := (if Complete(d) then [d] else []) + rest;
      && (forall i :: 0 <= i < |r| ==> r[i].Keys == FieldNames && Complete(r[i]))
      && (forall x :: x in r ==> x in ProjectAll(planes))
      && (forall x :: x in ProjectAll(planes) && Complete(x) ==> x in r)
  {
    var d := Project(planes[0]);
    var head := if Complete(d) then [d] else [];
    var r := head + rest;
    assert ProjectAll(planes) == [d] + ProjectAll(planes[1..]);
    forall i | 0 <= i < |r| ensures r[i].Keys == FieldNames && Complete(r[i]) {
      if i >= |head| {
        assert r[i] == rest[i - |head|];
      }
    }
  }

  /** Cleaning keeps input order: it distributes over concatenation. */
  lemma {:induction false} CleanupAppend(a: seq<Record>, b: seq<Record>)
    requires forall i :: 0 <= i < |a| ==> HasFields(a[i])
    requires forall i :: 0 <= i < |b| ==> HasFields(b[i])
    ensures Cleanup(a + b) == Cleanup(a) + Cleanup(b)
  {
    if a == [] {
      assert a + b == b;
    } else {
      assert (a + b)[0] == a[0];
      assert (a + b)[1..] == a[1..] + b;
      CleanupAppend(a[1..], b);
    }
  }

  /** A cleaned list is left as it is by a second cleaning. */
  lemma {:induction false} CleanupIdempotent(planes: seq<Record>)
    requires forall i :: 0 <= i < |planes| ==> HasFields(planes[i])
    ensures Cleanup(Cleanup(planes)) == Cleanup(planes)
  {
    if planes != [] {
      var d := Project(planes[0]);
      var rest := Cleanup(planes[1..]);
      CleanupIdempotent(planes[1..]);
      if Complete(d) {
        assert Project(d) == d;
        assert Cleanup([d]) == [d];
        CleanupAppend([d], rest);
      } else {
        assert Cleanup(planes) == rest;
      }
    }
  }
}
