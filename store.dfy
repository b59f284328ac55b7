/** The module-level state of app.py:75-79: the parsed document `DATA` and the four
    index dicts, which `build_indexes` clears and refills in place. */
module Store {
  import opened Normalize
  import opened OrderedDict
  import opened Document
  import opened Index

  class Directory {
    var data: Doc
    var regionIndex: Dict<Region>
    var districtIndex: Dict<Dict<District>>
    var wardIndex: Dict<Dict<Dict<Ward>>>
    var streetIndex: Dict<Dict<Dict<Dict<Street>>>>

    /** The four indexes as one value. */
    function Snapshot(): Idx
      reads this
    {
      Idx(regionIndex, districtIndex, wardIndex, streetIndex)
    }

    ghost predicate Valid()
      reads this
    {
      Consistent(Snapshot())
    }

    /** The state at import time: `DATA = {}` and four empty dicts. */
    constructor ()
      ensures data == Doc(Absent) && Snapshot() == EmptyIdx() && Valid()
    {
      data := Doc(Absent);
      regionIndex, districtIndex, wardIndex, streetIndex := Empty(), Empty(), Empty(), Empty();
    }

    /** `build_indexes(doc)` (app.py:97-155). Returns false where the source raises
        because "regions" is not a list; the indexes are cleared either way. */
    method BuildIndexes(doc: Doc) returns (ok: bool)
      modifies this
      ensures data == old(data)
      ensures ok <==> !doc.regions.Other?
      ensures Snapshot() == Build(doc) && Valid()
    {
      regionIndex, districtIndex, wardIndex, streetIndex := Empty(), Empty(), Empty(), Empty();
      if doc.regions.Other? {
        BuildConsistent(doc);
        return false;
      }
      ok := true;
      var regions := doc.regions.AsList();
      var i := 0;
      while i < |regions|
        invariant 0 <= i <= |regions|
        invariant data == old(data)
        invariant Snapshot() == AddRegions(EmptyIdx(), regions[..i])
      {
        AddRegionStep(regions[i]);
        AddRegionsStep(EmptyIdx(), regions, i);
        i := i + 1;
      }
      assert regions[..i] == regions;
      BuildConsistent(doc);
    }

    /** One pass of the region loop (app.py:107-120). */
    method AddRegionStep(r: Region)
      modifies this
      ensures data == old(data)
      ensures Snapshot() == AddRegion(old(Snapshot()), r)
    {
      ghost var before := Snapshot();
      var rk := Norm(RegionIndexName(r));
      if rk != "" {
        regionIndex := Put(regionIndex, rk, r);
        districtIndex := SetDefault(districtIndex, rk, Empty());
        wardIndex := SetDefault(wardIndex, rk, Empty());
        streetIndex := SetDefault(streetIndex, rk, Empty());
        AddDistrictLoop(before, rk, r);
      }
    }

    /** The district loop of one region (app.py:118-134). */
    method AddDistrictLoop(ghost before: Idx, rk: string, r: Region)
      requires rk == RegionKey(r) && rk != ""
      requires Snapshot() == RegisterRegion(before, rk, r)
      modifies this
      ensures data == old(data)
      ensures Snapshot() == AddRegion(before, r)
    {
      var districts := r.distric;
      if districts.Other? {
        return;
      }
      var ds := districts.AsList();
      var j := 0;
      while j < |ds|
        invariant 0 <= j <= |ds|
        invariant data == old(data)
        invariant Snapshot() == AddDistricts(RegisterRegion(before, rk, r), rk, ds[..j])
      {
        AddDistrictStep(rk, ds[j]);
        AddDistrictsStep(RegisterRegion(before, rk, r), rk, ds, j);
        j := j + 1;
      }
      assert ds[..j] == ds;
    }

    /** One pass of the district loop (app.py:122-134). */
    method AddDistrictStep(rk: string, d: District)
      modifies this
      ensures data == old(data)
      ensures Snapshot() == AddDistrict(old(Snapshot()), rk, d)
    {
      ghost var prev := Snapshot();
      var dk := Norm(DistrictIndexName(d));
      if dk != "" {
        districtIndex := Put(districtIndex, rk, Put(Get(districtIndex, rk, Empty()), dk, d));
        wardIndex := Put(wardIndex, rk, SetDefault(Get(wardIndex, rk, Empty()), dk, Empty()));
        streetIndex := Put(streetIndex, rk, SetDefault(Get(streetIndex, rk, Empty()), dk, Empty()));
        AddWardLoop(prev, rk, dk, d);
      }
    }

    /** The ward loop of one district (app.py:132-147). */
    method AddWardLoop(ghost before: Idx, rk: string, dk: string, d: District)
      requires dk == Norm(DistrictIndexName(d)) && dk != ""
      requires Snapshot() == RegisterDistrict(before, rk, dk, d)
      modifies this
      ensures data == old(data)
      ensures Snapshot() == AddDistrict(before, rk, d)
    {
      var wards := d.ward;
      if wards.Other? {
        return;
      }
      var ws := wards.AsList();
      var k := 0;
      while k < |ws|
        invariant 0 <= k <= |ws|
        invariant data == old(data)
        invariant Snapshot() == AddWards(RegisterDistrict(before, rk, dk, d), rk, dk, ws[..k])
      {
        AddWardStep(rk, dk, ws[k]);
        AddWardsStep(RegisterDistrict(before, rk, dk, d), rk, dk, ws, k);
        k := k + 1;
      }
      assert ws[..k] == ws;
    }

    /** One pass of the ward loop (app.py:136-147). */
    method AddWardStep(rk: string, dk: string, w: Ward)
      modifies this
      ensures data == old(data)
      ensures Snapshot() == AddWard(old(Snapshot()), rk, dk, w)
    {
      ghost var prev := Snapshot();
      var wk := Norm(WardIndexName(w));
      if wk != "" {
        var wr := Get(wardIndex, rk, Empty());
        wardIndex := Put(wardIndex, rk, Put(wr, dk, Put(Get(wr, dk, Empty()), wk, w)));
        var sr := Get(streetIndex, rk, Empty());
        streetIndex := Put(streetIndex, rk, Put(sr, dk, SetDefault(Get(sr, dk, Empty()), wk, Empty())));
        AddStreetLoop(prev, rk, dk, wk, w);
      }
    }

    /** The street loop of one ward (app.py:145-155). */
    method AddStreetLoop(ghost before: Idx, rk: string, dk: string, wk: string, w: Ward)
      requires wk == Norm(WardIndexName(w)) && wk != ""
      requires Snapshot() == RegisterWard(before, rk, dk, wk, w)
      modifies this
      ensures data == old(data)
      ensures Snapshot() == AddWard(before, rk, dk, w)
    {
      var streets := w.streets;
      if streets.Other? {
        return;
      }
      var ss := streets.AsList();
      var l := 0;
      while l < |ss|
        invariant 0 <= l <= |ss|
        invariant data == old(data)
        invariant Snapshot() == AddStreets(RegisterWard(before, rk, dk, wk, w), rk, dk, wk, ss[..l])
      {
        AddStreetStep(rk, dk, wk, ss[l]);
        AddStreetsStep(RegisterWard(before, rk, dk, wk, w), rk, dk, wk, ss, l);
        l := l + 1;
      }
      assert ss[..l] == ss;
    }

    /** One pass of the street loop (app.py:149-155). */
    method AddStreetStep(rk: string, dk: string, wk: string, s: Street)
      modifies this
      ensures data == old(data)
      ensures Snapshot() == AddStreet(old(Snapshot()), rk, dk, wk, s)
    {
      var sk := Norm(StreetIndexName(s));
      if sk != "" {
        var sr := Get(streetIndex, rk, Empty());
        var srd := Get(sr, dk, Empty());
        streetIndex := Put(streetIndex, rk, Put(sr, dk, Put(srd, wk, Put(Get(srd, wk, Empty()), sk, s))));
      }
    }

    /** `load_data` (app.py:86-94) once the file is parsed: store the document, then
        index it. */
    method LoadData(doc: Doc) returns (ok: bool)
      modifies this
      ensures data == doc
      ensures ok <==> !doc.regions.Other?
      ensures Snapshot() == Build(doc) && Valid()
    {
      data := doc;
      ok := BuildIndexes(doc);
    }
  }

}
