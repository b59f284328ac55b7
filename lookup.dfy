/** Name lookups against the indexes (app.py:165-186, 213-237). Every lookup normalises
    the caller's text, tests membership, and on a miss fails with a 404 whose detail
    carries the caller's text as given, not its normalised form. */
module Lookup {
  import opened Wrappers
  import opened Normalize
  import opened OrderedDict
  import opened Document
  import opened Index

  /** The level a lookup failed at. */
  datatype Level = RegionLevel | DistrictLevel | WardLevel

  /** An `HTTPException(status_code=404, ...)` raised by a lookup. */
  datatype NotFound = NotFound(level: Level, input: string)

  /** The `detail` text of the 404. */
  function Detail(e: NotFound): string {
    match e.level
    case RegionLevel => "Region not found: " + e.input
    case DistrictLevel => "District not found: " + e.input
    case WardLevel => "Ward not found: " + e.input
  }

  // ---- require_* (app.py:165-186) ----
  // The source tests `if not r`: an indexed record always has a non-empty name, so it is
  // never the empty dict, and the test comes down to a missing key.

  /** `require_region(region)` */
  function RequireRegion(idx: Idx, region: string): (r: Result<(string, Region), NotFound>)
    ensures r.Ok? <==> Norm(region) in idx.regions.m
    ensures r.Ok? ==> r.value.0 == Norm(region) && r.value.1 == idx.regions.m[Norm(region)]
    ensures r.Err? ==> r.error == NotFound(RegionLevel, region)
  {
    var rk := Norm(region);
    if rk in idx.regions.m then Ok((rk, idx.regions.m[rk])) else Err(NotFound(RegionLevel, region))
  }

  /** `require_district(r_norm, district)`: `_district_index.get(r_norm, {}).get(d_norm)` */
  function RequireDistrict(idx: Idx, rk: string, district: string): (r: Result<(string, District), NotFound>)
    ensures r.Ok? <==> Norm(district) in Get(idx.districts, rk, Empty()).m
    ensures r.Ok? ==> rk in idx.districts.m && r.value.0 == Norm(district) &&
                      r.value.1 == idx.districts.m[rk].m[Norm(district)]
    ensures r.Err? ==> r.error == NotFound(DistrictLevel, district)
  {
    var dk := Norm(district);
    var dr := Get(idx.districts, rk, Empty());
    if dk in dr.m then Ok((dk, dr.m[dk])) else Err(NotFound(DistrictLevel, district))
  }

  /** `require_ward(r_norm, d_norm, ward)`: `_ward_index.get(r_norm, {}).get(d_norm, {}).get(w_norm)` */
  function RequireWard(idx: Idx, rk: string, dk: string, ward: string): (r: Result<(string, Ward), NotFound>)
    ensures r.Ok? <==> Norm(ward) in Get(Get(idx.wards, rk, Empty()), dk, Empty()).m
    ensures r.Ok? ==> rk in idx.wards.m && dk in idx.wards.m[rk].m && r.value.0 == Norm(ward) &&
                      r.value.1 == idx.wards.m[rk].m[dk].m[Norm(ward)]
    ensures r.Err? ==> r.error == NotFound(WardLevel, ward)
  {
    var wk := Norm(ward);
    var wr := Get(Get(idx.wards, rk, Empty()), dk, Empty());
    if wk in wr.m then Ok((wk, wr.m[wk])) else Err(NotFound(WardLevel, ward))
  }

  /** A lookup does not depend on case or spacing: inputs with the same normal form
      find the same entry, or both fail. */
  lemma RequireInsensitive(idx: Idx, rk: string, dk: string, a: string, b: string)
    requires Norm(a) == Norm(b)
    ensures RequireRegion(idx, a).Ok? == RequireRegion(idx, b).Ok?
    ensures RequireRegion(idx, a).Ok? ==> RequireRegion(idx, a).value == RequireRegion(idx, b).value
    ensures RequireDistrict(idx, rk, a).Ok? == RequireDistrict(idx, rk, b).Ok?
    ensures RequireDistrict(idx, rk, a).Ok? ==> RequireDistrict(idx, rk, a).value == RequireDistrict(idx, rk, b).value
    ensures RequireWard(idx, rk, dk, a).Ok? == RequireWard(idx, rk, dk, b).Ok?
    ensures RequireWard(idx, rk, dk, a).Ok? ==> RequireWard(idx, rk, dk, a).value == RequireWard(idx, rk, dk, b).value
  {
  }

  /** The key a successful lookup returns looks up the same entry again: keys are fixed
      points of `norm`, so a path made of returned keys can be fed back in. */
  lemma RequireKeyRoundTrip(idx: Idx, rk: string, dk: string, s: string)
    ensures RequireRegion(idx, s).Ok? ==> RequireRegion(idx, RequireRegion(idx, s).value.0) == RequireRegion(idx, s)
    ensures RequireDistrict(idx, rk, s).Ok? ==>
              RequireDistrict(idx, rk, RequireDistrict(idx, rk, s).value.0).Ok? &&
              RequireDistrict(idx, rk, RequireDistrict(idx, rk, s).value.0).value == RequireDistrict(idx, rk, s).value
    ensures RequireWard(idx, rk, dk, s).Ok? ==>
              RequireWard(idx, rk, dk, RequireWard(idx, rk, dk, s).value.0).Ok? &&
              RequireWard(idx, rk, dk, RequireWard(idx, rk, dk, s).value.0).value == RequireWard(idx, rk, dk, s).value
  {
    NormIdempotent(s);
  }

  /** Every indexed entry can be reached by its own key. */
  lemma RequireFindsIndexed(idx: Idx, rk: string, dk: string, wk: string)
    requires Consistent(idx)
    ensures rk in idx.regions.m ==> RequireRegion(idx, rk) == Ok((rk, idx.regions.m[rk]))
    ensures rk in idx.districts.m && dk in idx.districts.m[rk].m ==>
              RequireDistrict(idx, rk, dk) == Ok((dk, idx.districts.m[rk].m[dk]))
    ensures rk in idx.wards.m && dk in idx.wards.m[rk].m && wk in idx.wards.m[rk].m[dk].m ==>
              RequireWard(idx, rk, dk, wk) == Ok((wk, idx.wards.m[rk].m[dk].m[wk]))
  {
    Containment(idx);
  }

  // ---- optional_* (app.py:213-237) ----

  /** `optional_region(region)`: no filter when the argument is missing or "". */
  function OptionalRegion(idx: Idx, region: Option<string>): (r: Result<Option<string>, NotFound>)
    ensures !Truthy(region) ==> r == Ok(None)
    ensures Truthy(region) ==> (r.Ok? <==> Norm(region.value) in idx.regions.m)
    ensures Truthy(region) && r.Ok? ==> r.value == Some(Norm(region.value))
    ensures Truthy(region) && r.Err? ==> r.error == NotFound(RegionLevel, region.value)
  {
    if !Truthy(region) then Ok(None)
    else
      var rk := Norm(region.value);
      if rk !in idx.regions.m then Err(NotFound(RegionLevel, region.value)) else Ok(Some(rk))
  }

  /** `optional_district(r_norm, district)` */
  function OptionalDistrict(idx: Idx, rk: string, district: Option<string>): (r: Result<Option<string>, NotFound>)
    ensures !Truthy(district) ==> r == Ok(None)
    ensures Truthy(district) ==> (r.Ok? <==> Norm(district.value) in Get(idx.districts, rk, Empty()).m)
    ensures Truthy(district) && r.Ok? ==> r.value == Some(Norm(district.value))
    ensures Truthy(district) && r.Err? ==> r.error == NotFound(DistrictLevel, district.value)
  {
    if !Truthy(district) then Ok(None)
    else
      var dk := Norm(district.value);
      if dk !in Get(idx.districts, rk, Empty()).m then Err(NotFound(DistrictLevel, district.value)) else Ok(Some(dk))
  }

  /** `optional_ward(r_norm, d_norm, ward)` */
  function OptionalWard(idx: Idx, rk: string, dk: string, ward: Option<string>): (r: Result<Option<string>, NotFound>)
    ensures !Truthy(ward) ==> r == Ok(None)
    ensures Truthy(ward) ==> (r.Ok? <==> Norm(ward.value) in Get(Get(idx.wards, rk, Empty()), dk, Empty()).m)
    ensures Truthy(ward) && r.Ok? ==> r.value == Some(Norm(ward.value))
    ensures Truthy(ward) && r.Err? ==> r.error == NotFound(WardLevel, ward.value)
  {
    if !Truthy(ward) then Ok(None)
    else
      var wk := Norm(ward.value);
      if wk !in Get(Get(idx.wards, rk, Empty()), dk, Empty()).m then Err(NotFound(WardLevel, ward.value))
      else Ok(Some(wk))
  }

  // ---- The filter cascade of the two subtree exports (app.py:425-463, 508-566) ----

  /** The subtree an export covers: the whole index, or one region, district or ward. */
  datatype Scope = Everywhere | InRegion(rk: string) | InDistrict(rk: string, dk: string)
                 | InWard(rk: string, dk: string, wk: string)

  /** A missing or empty region exports everything, whatever district and ward say;
      otherwise region, then district, then ward are validated in that order and the
      first one that is given and unknown is the error. */
  function Resolve(idx: Idx, region: Option<string>, district: Option<string>, ward: Option<string>)
    : Result<Scope, NotFound>
  {
    if !Truthy(region) then Ok(Everywhere)
    else
      var ro := OptionalRegion(idx, region);
      if ro.Err? then Err(ro.error)
      else
        var rk := ro.value.value;
        if !Truthy(district) then Ok(InRegion(rk))
        else
          var dro := OptionalDistrict(idx, rk, district);
          if dro.Err? then Err(dro.error)
          else
            var dk := dro.value.value;
            if !Truthy(ward) then Ok(InDistrict(rk, dk))
            else
              var wo := OptionalWard(idx, rk, dk, ward);
              if wo.Err? then Err(wo.error) else Ok(InWard(rk, dk, wo.value.value))
  }

  /** The order of validation: each outcome of `Resolve` in terms of the three inputs. */
  lemma ResolveCases(idx: Idx, region: Option<string>, district: Option<string>, ward: Option<string>)
    ensures !Truthy(region) ==> Resolve(idx, region, district, ward) == Ok(Everywhere)
    ensures Truthy(region) && Norm(region.value) !in idx.regions.m ==>
              Resolve(idx, region, district, ward) == Err(NotFound(RegionLevel, region.value))
    ensures Truthy(region) && Norm(region.value) in idx.regions.m && !Truthy(district) ==>
              Resolve(idx, region, district, ward) == Ok(InRegion(Norm(region.value)))
    ensures Truthy(region) && Norm(region.value) in idx.regions.m && Truthy(district) &&
            Norm(district.value) !in Get(idx.districts, Norm(region.value), Empty()).m ==>
              Resolve(idx, region, district, ward) == Err(NotFound(DistrictLevel, district.value))
    ensures Truthy(region) && Norm(region.value) in idx.regions.m && Truthy(district) &&
            Norm(district.value) in Get(idx.districts, Norm(region.value), Empty()).m && !Truthy(ward) ==>
              Resolve(idx, region, district, ward) == Ok(InDistrict(Norm(region.value), Norm(district.value)))
    ensures Truthy(region) && Norm(region.value) in idx.regions.m && Truthy(district) &&
            Norm(district.value) in Get(idx.districts, Norm(region.value), Empty()).m && Truthy(ward) ==>
              var wk := Norm(ward.value);
              var wr := Get(Get(idx.wards, Norm(region.value), Empty()), Norm(district.value), Empty());
              Resolve(idx, region, district, ward) ==
                if wk in wr.m then Ok(InWard(Norm(region.value), Norm(district.value), wk))
                else Err(NotFound(WardLevel, ward.value))
  {
  }

  /** A resolved scope names entries that exist at every level of the index it needs. */
  predicate InIndex(idx: Idx, s: Scope) {
    match s
    case Everywhere => true
    case InRegion(rk) => rk in idx.regions.m && rk in idx.districts.m && rk in idx.wards.m && rk in idx.streets.m
    case InDistrict(rk, dk) =>
      && rk in idx.regions.m && rk in idx.districts.m && rk in idx.wards.m && rk in idx.streets.m
      && dk in idx.districts.m[rk].m && dk in idx.wards.m[rk].m && dk in idx.streets.m[rk].m
    case InWard(rk, dk, wk) =>
      && rk in idx.regions.m && rk in idx.districts.m && rk in idx.wards.m && rk in idx.streets.m
      && dk in idx.districts.m[rk].m && dk in idx.wards.m[rk].m && dk in idx.streets.m[rk].m
      && wk in idx.wards.m[rk].m[dk].m && wk in idx.streets.m[rk].m[dk].m
  }

  lemma RegionAtEveryLevel(idx: Idx, rk: string)
    requires Consistent(idx) && rk in idx.regions.m
    ensures rk in idx.districts.m && rk in idx.wards.m && rk in idx.streets.m
  {
    assert idx.districts.m.Keys == idx.regions.m.Keys == idx.wards.m.Keys == idx.streets.m.Keys;
  }

  lemma DistrictAtEveryLevel(idx: Idx, rk: string, dk: string)
    requires Consistent(idx) && rk in idx.regions.m
    requires rk in idx.districts.m && dk in idx.districts.m[rk].m
    ensures rk in idx.wards.m && rk in idx.streets.m && dk in idx.wards.m[rk].m && dk in idx.streets.m[rk].m
  {
    RegionAtEveryLevel(idx, rk);
    assert RegionConsistent(idx.districts.m[rk], idx.wards.m[rk], idx.streets.m[rk]);
    assert idx.wards.m[rk].m.Keys == idx.districts.m[rk].m.Keys == idx.streets.m[rk].m.Keys;
  }

  lemma WardAtEveryLevel(idx: Idx, rk: string, dk: string, wk: string)
    requires Consistent(idx) && rk in idx.regions.m
    requires rk in idx.districts.m && dk in idx.districts.m[rk].m
    requires rk in idx.wards.m && dk in idx.wards.m[rk].m && wk in idx.wards.m[rk].m[dk].m
    ensures rk in idx.streets.m && dk in idx.streets.m[rk].m && wk in idx.streets.m[rk].m[dk].m
  {
    DistrictAtEveryLevel(idx, rk, dk);
    var ds, ws, ss := idx.districts.m[rk], idx.wards.m[rk], idx.streets.m[rk];
    assert RegionConsistent(ds, ws, ss);
    assert DistrictConsistent(ws.m[dk], ss.m[dk]);
    assert ss.m[dk].m.Keys == ws.m[dk].m.Keys;
  }

  /** What validation itself establishes about a resolved scope, before consistency. */
  lemma ResolveFound(idx: Idx, region: Option<string>, district: Option<string>, ward: Option<string>)
    ensures var r := Resolve(idx, region, district, ward);
      r.Ok? && !r.value.Everywhere? ==> r.value.rk in idx.regions.m
    ensures var r := Resolve(idx, region, district, ward);
      r.Ok? && (r.value.InDistrict? || r.value.InWard?) ==>
        r.value.rk in idx.districts.m && r.value.dk in idx.districts.m[r.value.rk].m
    ensures var r := Resolve(idx, region, district, ward);
      r.Ok? && r.value.InWard? ==>
        r.value.rk in idx.wards.m && r.value.dk in idx.wards.m[r.value.rk].m &&
        r.value.wk in idx.wards.m[r.value.rk].m[r.value.dk].m
  {
  }

  /** On consistent indexes a resolved scope exists at every level, so the direct
      subscripts the exports take after validation (`_region_index[r_norm]`,
      `_district_index[r_norm][d_norm]`, `_ward_index[r_norm][d_norm][w_norm]`) never fail. */
  lemma ResolveInIndex(idx: Idx, region: Option<string>, district: Option<string>, ward: Option<string>)
    requires Consistent(idx)
    ensures Resolve(idx, region, district, ward).Ok? ==> InIndex(idx, Resolve(idx, region, district, ward).value)
  {
    var r := Resolve(idx, region, district, ward);
    ResolveFound(idx, region, district, ward);
    if r.Ok? {
      match r.value
      case Everywhere =>
      case InRegion(rk) =>
        RegionAtEveryLevel(idx, rk);
      case InDistrict(rk, dk) =>
        DistrictAtEveryLevel(idx, rk, dk);
      case InWard(rk, dk, wk) =>
        DistrictAtEveryLevel(idx, rk, dk);
        WardAtEveryLevel(idx, rk, dk, wk);
    }
  }

}
