/** The four nested indexes of app.py:76-79 as one value, and `build_indexes`
    (app.py:97-155) as a left-to-right fold over the regions, one function per group
    of statements. `Store.Directory.BuildIndexes` runs the same steps with loops. */
module Index {
  import opened Normalize
  import opened OrderedDict
  import opened Document

  datatype Idx = Idx(
    regions: Dict<Region>,                           // _region_index[r]
    districts: Dict<Dict<District>>,                 // _district_index[r][d]
    wards: Dict<Dict<Dict<Ward>>>,                   // _ward_index[r][d][w]
    streets: Dict<Dict<Dict<Dict<Street>>>>)         // _street_index[r][d][w][s]

  /** The indexes right after the four `.clear()` calls. */
  function EmptyIdx(): Idx {
    Idx(Empty(), Empty(), Empty(), Empty())
  }

  /** A lookup key: a non-empty output of `norm`. */
  predicate IsKey(k: string) {
    k != "" && Norm(k) == k
  }

  // The statement groups of build_indexes. Where the source indexes an outer dict
  // directly (`_district_index[r_norm][d_norm] = d`), `Get` with an empty default
  // stands for it: `Consistent` shows the outer key is always present there.

  /** app.py:113-116 */
  function RegisterRegion(idx: Idx, rk: string, r: Region): Idx {
    Idx(Put(idx.regions, rk, r),
        SetDefault(idx.districts, rk, Empty()),
        SetDefault(idx.wards, rk, Empty()),
        SetDefault(idx.streets, rk, Empty()))
  }

  /** app.py:128-130 */
  function RegisterDistrict(idx: Idx, rk: string, dk: string, d: District): Idx {
    var dr := Get(idx.districts, rk, Empty());
    var wr := Get(idx.wards, rk, Empty());
    var sr := Get(idx.streets, rk, Empty());
    idx.(districts := Put(idx.districts, rk, Put(dr, dk, d)),
         wards := Put(idx.wards, rk, SetDefault(wr, dk, Empty())),
         streets := Put(idx.streets, rk, SetDefault(sr, dk, Empty())))
  }

  /** app.py:142-143 */
  function RegisterWard(idx: Idx, rk: string, dk: string, wk: string, w: Ward): Idx {
    var wr := Get(idx.wards, rk, Empty());
    var sr := Get(idx.streets, rk, Empty());
    idx.(wards := Put(idx.wards, rk, Put(wr, dk, Put(Get(wr, dk, Empty()), wk, w))),
         streets := Put(idx.streets, rk, Put(sr, dk, SetDefault(Get(sr, dk, Empty()), wk, Empty()))))
  }

  /** app.py:155 */
  function RegisterStreet(idx: Idx, rk: string, dk: string, wk: string, sk: string, s: Street): Idx {
    var sr := Get(idx.streets, rk, Empty());
    var srd := Get(sr, dk, Empty());
    idx.(streets := Put(idx.streets, rk, Put(sr, dk, Put(srd, wk, Put(Get(srd, wk, Empty()), sk, s)))))
  }

  /** One pass of the street loop (app.py:149-155). */
  function AddStreet(idx: Idx, rk: string, dk: string, wk: string, s: Street): Idx {
    var sk := Norm(StreetIndexName(s));
    if sk == "" then idx else RegisterStreet(idx, rk, dk, wk, sk, s)
  }

  function AddStreets(idx: Idx, rk: string, dk: string, wk: string, ss: seq<Street>): Idx {
    if ss == [] then idx
    else AddStreet(AddStreets(idx, rk, dk, wk, ss[..|ss| - 1]), rk, dk, wk, ss[|ss| - 1])
  }

  /** One pass of the ward loop (app.py:136-147); a non-list "STREETS" adds no street. */
  function AddWard(idx: Idx, rk: string, dk: string, w: Ward): Idx {
    var wk := Norm(WardIndexName(w));
    if wk == "" then idx
    else AddStreets(RegisterWard(idx, rk, dk, wk, w), rk, dk, wk, w.streets.AsList())
  }

  function AddWards(idx: Idx, rk: string, dk: string, ws: seq<Ward>): Idx {
    if ws == [] then idx
    else AddWard(AddWards(idx, rk, dk, ws[..|ws| - 1]), rk, dk, ws[|ws| - 1])
  }

  /** One pass of the district loop (app.py:122-134), reading only "WARD". */
  function AddDistrict(idx: Idx, rk: string, d: District): Idx {
    var dk := Norm(DistrictIndexName(d));
    if dk == "" then idx
    else AddWards(RegisterDistrict(idx, rk, dk, d), rk, dk, d.ward.AsList())
  }

  function AddDistricts(idx: Idx, rk: string, ds: seq<District>): Idx {
    if ds == [] then idx
    else AddDistrict(AddDistricts(idx, rk, ds[..|ds| - 1]), rk, ds[|ds| - 1])
  }

  /** One pass of the region loop (app.py:107-120), reading only "DISTRIC". */
  /** `norm(r.get("REGION") or r.get("name") or "")` */
  function RegionKey(r: Region): string {
    Norm(RegionIndexName(r))
  }

  function AddRegion(idx: Idx, r: Region): Idx {
    var rk := RegionKey(r);
    if rk == "" then idx
    else AddDistricts(RegisterRegion(idx, rk, r), rk, r.distric.AsList())
  }

  function AddRegions(idx: Idx, rs: seq<Region>): Idx {
    if rs == [] then idx
    else AddRegion(AddRegions(idx, rs[..|rs| - 1]), rs[|rs| - 1])
  }

  /** The indexes `build_indexes(doc)` leaves behind. When "regions" is not a list the
      source raises after clearing, which leaves them empty: `AsList` gives `[]` then. */
  function Build(doc: Doc): Idx {
    AddRegions(EmptyIdx(), doc.regions.AsList())
  }

  // ---- The invariant the index keeps ----

  predicate DistrictConsistent(wd: Dict<Ward>, sd: Dict<Dict<Street>>) {
    && wd.Wf() && sd.Wf()
    && sd.keys == wd.keys
    && forall wk :: wk in wd.m ==> IsKey(wk) && sd.m[wk].Wf() && forall sk :: sk in sd.m[wk].m ==> IsKey(sk)
  }

  predicate RegionConsistent(ds: Dict<District>, ws: Dict<Dict<Ward>>, ss: Dict<Dict<Dict<Street>>>) {
    && ds.Wf() && ws.Wf() && ss.Wf()
    && ws.keys == ds.keys
    && ss.keys == ds.keys
    && forall dk :: dk in ds.m ==> IsKey(dk) && DistrictConsistent(ws.m[dk], ss.m[dk])
  }

  /** Every dict is well formed, every key is a non-empty normalised name, and the four
      indexes have the same keys level by level: each child dict sits under a key of its
      parent dict, and every parent key has a (possibly empty) child dict. */
  predicate Consistent(idx: Idx) {
    && idx.regions.Wf() && idx.districts.Wf() && idx.wards.Wf() && idx.streets.Wf()
    && idx.districts.keys == idx.regions.keys
    && idx.wards.keys == idx.regions.keys
    && idx.streets.keys == idx.regions.keys
    && forall rk :: rk in idx.regions.m ==>
         IsKey(rk) && RegionConsistent(idx.districts.m[rk], idx.wards.m[rk], idx.streets.m[rk])
  }

  lemma RegisterRegionConsistent(idx: Idx, rk: string, r: Region)
    requires Consistent(idx) && IsKey(rk)
    ensures Consistent(RegisterRegion(idx, rk, r))
    ensures rk in RegisterRegion(idx, rk, r).regions.m
  {
    PutWf(idx.regions, rk, r);
    SetDefaultWf(idx.districts, rk, Empty<District>());
    SetDefaultWf(idx.wards, rk, Empty<Dict<Ward>>());
    SetDefaultWf(idx.streets, rk, Empty<Dict<Dict<Street>>>());
    var idx' := RegisterRegion(idx, rk, r);
    forall rk' | rk' in idx'.regions.m
      ensures IsKey(rk') && RegionConsistent(idx'.districts.m[rk'], idx'.wards.m[rk'], idx'.streets.m[rk'])
    {
      if rk' != rk {
        assert rk' in idx.regions.m;
      }
    }
  }

  // Frame lemmas: each one changes a single level of the nesting.

  lemma UpdateRegionConsistent(idx: Idx, rk: string, ds: Dict<District>, ws: Dict<Dict<Ward>>,
                               ss: Dict<Dict<Dict<Street>>>)
    requires Consistent(idx) && rk in idx.regions.m && RegionConsistent(ds, ws, ss)
    ensures Consistent(idx.(districts := Put(idx.districts, rk, ds), wards := Put(idx.wards, rk, ws),
                            streets := Put(idx.streets, rk, ss)))
  {
    assert idx.districts.m.Keys == idx.regions.m.Keys == idx.wards.m.Keys == idx.streets.m.Keys;
    PutWf(idx.districts, rk, ds);
    PutWf(idx.wards, rk, ws);
    PutWf(idx.streets, rk, ss);
    var idx' := idx.(districts := Put(idx.districts, rk, ds), wards := Put(idx.wards, rk, ws),
                     streets := Put(idx.streets, rk, ss));
    forall rk' | rk' in idx'.regions.m
      ensures IsKey(rk') && RegionConsistent(idx'.districts.m[rk'], idx'.wards.m[rk'], idx'.streets.m[rk'])
    {
      if rk' != rk {
        PutOther(idx.districts, rk, ds, rk');
        PutOther(idx.wards, rk, ws, rk');
        PutOther(idx.streets, rk, ss, rk');
      }
    }
  }

  lemma AddDistrictKeyConsistent(ds: Dict<District>, ws: Dict<Dict<Ward>>, ss: Dict<Dict<Dict<Street>>>,
                                 dk: string, d: District)
    requires RegionConsistent(ds, ws, ss) && IsKey(dk)
    ensures RegionConsistent(Put(ds, dk, d), SetDefault(ws, dk, Empty()), SetDefault(ss, dk, Empty()))
  {
    PutWf(ds, dk, d);
    SetDefaultWf(ws, dk, Empty<Ward>());
    SetDefaultWf(ss, dk, Empty<Dict<Street>>());
    var ds', ws', ss' := Put(ds, dk, d), SetDefault(ws, dk, Empty()), SetDefault(ss, dk, Empty());
    forall dk' | dk' in ds'.m ensures IsKey(dk') && DistrictConsistent(ws'.m[dk'], ss'.m[dk']) {
      if dk' != dk {
        assert dk' in ds.m;
      }
    }
  }

  lemma UpdateDistrictConsistent(ds: Dict<District>, ws: Dict<Dict<Ward>>, ss: Dict<Dict<Dict<Street>>>,
                                 dk: string, wd: Dict<Ward>, sd: Dict<Dict<Street>>)
    requires RegionConsistent(ds, ws, ss) && dk in ds.m && DistrictConsistent(wd, sd)
    ensures RegionConsistent(ds, Put(ws, dk, wd), Put(ss, dk, sd))
  {
    assert ds.m.Keys == ws.m.Keys == ss.m.Keys;
    PutWf(ws, dk, wd);
    PutWf(ss, dk, sd);
    forall dk' | dk' in ds.m ensures IsKey(dk') && DistrictConsistent(Put(ws, dk, wd).m[dk'], Put(ss, dk, sd).m[dk']) {
      if dk' != dk {
        PutOther(ws, dk, wd, dk');
        PutOther(ss, dk, sd, dk');
      }
    }
  }

  lemma AddWardKeyConsistent(wd: Dict<Ward>, sd: Dict<Dict<Street>>, wk: string, w: Ward)
    requires DistrictConsistent(wd, sd) && IsKey(wk)
    ensures DistrictConsistent(Put(wd, wk, w), SetDefault(sd, wk, Empty()))
  {
    PutWf(wd, wk, w);
    SetDefaultWf(sd, wk, Empty<Street>());
    var wd', sd' := Put(wd, wk, w), SetDefault(sd, wk, Empty());
    forall wk' | wk' in wd'.m ensures IsKey(wk') && sd'.m[wk'].Wf() && forall sk :: sk in sd'.m[wk'].m ==> IsKey(sk) {
      if wk' != wk {
        assert wk' in wd.m;
      }
    }
  }

  lemma AddStreetKeyConsistent(wd: Dict<Ward>, sd: Dict<Dict<Street>>, wk: string, sk: string, s: Street)
    requires DistrictConsistent(wd, sd) && wk in wd.m && IsKey(sk)
    ensures DistrictConsistent(wd, Put(sd, wk, Put(Get(sd, wk, Empty()), sk, s)))
  {
    assert wk in sd.m;
    PutWf(sd.m[wk], sk, s);
    PutWf(sd, wk, Put(sd.m[wk], sk, s));
    var sd' := Put(sd, wk, Put(Get(sd, wk, Empty()), sk, s));
    assert wd.m.Keys == sd.m.Keys;
    forall wk' | wk' in wd.m ensures IsKey(wk') && sd'.m[wk'].Wf() && forall sk' :: sk' in sd'.m[wk'].m ==> IsKey(sk') {
      if wk' != wk {
        PutOther(sd, wk, Put(sd.m[wk], sk, s), wk');
      }
    }
  }

  lemma RegisterDistrictConsistent(idx: Idx, rk: string, dk: string, d: District)
    requires Consistent(idx) && rk in idx.regions.m && IsKey(dk)
    ensures Consistent(RegisterDistrict(idx, rk, dk, d))
    ensures RegisterDistrict(idx, rk, dk, d).regions == idx.regions
    ensures dk in RegisterDistrict(idx, rk, dk, d).districts.m[rk].m
  {
    AddDistrictKeyConsistent(idx.districts.m[rk], idx.wards.m[rk], idx.streets.m[rk], dk, d);
    UpdateRegionConsistent(idx, rk, Put(idx.districts.m[rk], dk, d),
                           SetDefault(idx.wards.m[rk], dk, Empty()), SetDefault(idx.streets.m[rk], dk, Empty()));
  }

  lemma RegisterWardConsistent(idx: Idx, rk: string, dk: string, wk: string, w: Ward)
    requires Consistent(idx) && rk in idx.regions.m && dk in idx.districts.m[rk].m && IsKey(wk)
    ensures Consistent(RegisterWard(idx, rk, dk, wk, w))
    ensures RegisterWard(idx, rk, dk, wk, w).regions == idx.regions
    ensures RegisterWard(idx, rk, dk, wk, w).districts == idx.districts
    ensures wk in RegisterWard(idx, rk, dk, wk, w).wards.m[rk].m[dk].m
  {
    var ds, ws, ss := idx.districts.m[rk], idx.wards.m[rk], idx.streets.m[rk];
    var wd', sd' := Put(ws.m[dk], wk, w), SetDefault(ss.m[dk], wk, Empty());
    assert idx.districts.m.Keys == idx.regions.m.Keys == idx.wards.m.Keys == idx.streets.m.Keys;
    assert ds.m.Keys == ws.m.Keys == ss.m.Keys;
    AddWardKeyConsistent(ws.m[dk], ss.m[dk], wk, w);
    UpdateDistrictConsistent(ds, ws, ss, dk, wd', sd');
    UpdateRegionConsistent(idx, rk, ds, Put(ws, dk, wd'), Put(ss, dk, sd'));
    PutSame(idx.districts, rk);
    assert RegisterWard(idx, rk, dk, wk, w) ==
      idx.(districts := Put(idx.districts, rk, ds), wards := Put(idx.wards, rk, Put(ws, dk, wd')),
           streets := Put(idx.streets, rk, Put(ss, dk, sd')));
    PutHere(idx.wards, rk, Put(ws, dk, wd'));
    PutHere(ws, dk, wd');
    PutHere(ws.m[dk], wk, w);
  }

  lemma RegisterStreetConsistent(idx: Idx, rk: string, dk: string, wk: string, sk: string, s: Street)
    requires Consistent(idx) && rk in idx.regions.m && dk in idx.districts.m[rk].m
    requires wk in idx.wards.m[rk].m[dk].m && IsKey(sk)
    ensures Consistent(RegisterStreet(idx, rk, dk, wk, sk, s))
    ensures RegisterStreet(idx, rk, dk, wk, sk, s).regions == idx.regions
    ensures RegisterStreet(idx, rk, dk, wk, sk, s).districts == idx.districts
    ensures RegisterStreet(idx, rk, dk, wk, sk, s).wards == idx.wards
  {
    var ds, ws, ss := idx.districts.m[rk], idx.wards.m[rk], idx.streets.m[rk];
    var sd' := Put(ss.m[dk], wk, Put(Get(ss.m[dk], wk, Empty()), sk, s));
    assert idx.districts.m.Keys == idx.regions.m.Keys == idx.wards.m.Keys == idx.streets.m.Keys;
    assert ds.m.Keys == ws.m.Keys == ss.m.Keys;
    AddStreetKeyConsistent(ws.m[dk], ss.m[dk], wk, sk, s);
    UpdateDistrictConsistent(ds, ws, ss, dk, ws.m[dk], sd');
    PutSame(ws, dk);
    UpdateRegionConsistent(idx, rk, ds, ws, Put(ss, dk, sd'));
    PutSame(idx.districts, rk);
    PutSame(idx.wards, rk);
  }

  lemma KeyOfNorm(s: string)
    requires Norm(s) != ""
    ensures IsKey(Norm(s))
  {
    NormIdempotent(s);
  }

  lemma {:induction false} AddStreetsConsistent(idx: Idx, rk: string, dk: string, wk: string, ss: seq<Street>)
    requires Consistent(idx) && rk in idx.regions.m && dk in idx.districts.m[rk].m
    requires wk in idx.wards.m[rk].m[dk].m
    ensures Consistent(AddStreets(idx, rk, dk, wk, ss))
    ensures AddStreets(idx, rk, dk, wk, ss).regions == idx.regions
    ensures AddStreets(idx, rk, dk, wk, ss).districts == idx.districts
    ensures AddStreets(idx, rk, dk, wk, ss).wards == idx.wards
  {
    if ss != [] {
      var prev := AddStreets(idx, rk, dk, wk, ss[..|ss| - 1]);
      AddStreetsConsistent(idx, rk, dk, wk, ss[..|ss| - 1]);
      var sk := Norm(StreetIndexName(ss[|ss| - 1]));
      if sk != "" {
        KeyOfNorm(StreetIndexName(ss[|ss| - 1]));
        RegisterStreetConsistent(prev, rk, dk, wk, sk, ss[|ss| - 1]);
      }
    }
  }

  lemma {:induction false} AddWardsConsistent(idx: Idx, rk: string, dk: string, ws: seq<Ward>)
    requires Consistent(idx) && rk in idx.regions.m && dk in idx.districts.m[rk].m
    ensures Consistent(AddWards(idx, rk, dk, ws))
    ensures AddWards(idx, rk, dk, ws).regions == idx.regions
    ensures AddWards(idx, rk, dk, ws).districts == idx.districts
  {
    if ws != [] {
      var prev := AddWards(idx, rk, dk, ws[..|ws| - 1]);
      AddWardsConsistent(idx, rk, dk, ws[..|ws| - 1]);
      var w := ws[|ws| - 1];
      var wk := Norm(WardIndexName(w));
      if wk != "" {
        KeyOfNorm(WardIndexName(w));
        RegisterWardConsistent(prev, rk, dk, wk, w);
        AddStreetsConsistent(RegisterWard(prev, rk, dk, wk, w), rk, dk, wk, w.streets.AsList());
      }
    }
  }

  lemma {:induction false} AddDistrictsConsistent(idx: Idx, rk: string, ds: seq<District>)
    requires Consistent(idx) && rk in idx.regions.m
    ensures Consistent(AddDistricts(idx, rk, ds))
    ensures AddDistricts(idx, rk, ds).regions == idx.regions
  {
    if ds != [] {
      var prev := AddDistricts(idx, rk, ds[..|ds| - 1]);
      AddDistrictsConsistent(idx, rk, ds[..|ds| - 1]);
      var d := ds[|ds| - 1];
      var dk := Norm(DistrictIndexName(d));
      if dk != "" {
        KeyOfNorm(DistrictIndexName(d));
        RegisterDistrictConsistent(prev, rk, dk, d);
        AddWardsConsistent(RegisterDistrict(prev, rk, dk, d), rk, dk, d.ward.AsList());
      }
    }
  }

  lemma {:induction false} AddRegionsConsistent(idx: Idx, rs: seq<Region>)
    requires Consistent(idx)
    ensures Consistent(AddRegions(idx, rs))
  {
    if rs != [] {
      var prev := AddRegions(idx, rs[..|rs| - 1]);
      AddRegionsConsistent(idx, rs[..|rs| - 1]);
      var r := rs[|rs| - 1];
      var rk := Norm(RegionIndexName(r));
      if rk != "" {
        KeyOfNorm(RegionIndexName(r));
        RegisterRegionConsistent(prev, rk, r);
        AddDistrictsConsistent(RegisterRegion(prev, rk, r), rk, r.distric.AsList());
      }
    }
  }

  /** `build_indexes` always leaves consistent indexes. */
  lemma BuildConsistent(doc: Doc)
    ensures Consistent(Build(doc))
  {
    AddRegionsConsistent(EmptyIdx(), doc.regions.AsList());
  }

  /** Containment and non-empty keys at every level: a district key sits under an indexed
      region, a ward key under an indexed district of that region, a street key under an
      indexed ward of that district, and no key is "". */
  lemma Containment(idx: Idx)
    requires Consistent(idx)
    ensures forall rk :: rk in idx.regions.m ==> rk != ""
    ensures forall rk, dk :: rk in idx.districts.m && dk in idx.districts.m[rk].m ==>
              rk in idx.regions.m && dk != ""
    ensures forall rk, dk, wk :: rk in idx.wards.m && dk in idx.wards.m[rk].m && wk in idx.wards.m[rk].m[dk].m ==>
              rk in idx.districts.m && dk in idx.districts.m[rk].m && wk != ""
    ensures forall rk, dk, wk, sk ::
              rk in idx.streets.m && dk in idx.streets.m[rk].m && wk in idx.streets.m[rk].m[dk].m &&
              sk in idx.streets.m[rk].m[dk].m[wk].m ==>
              rk in idx.wards.m && dk in idx.wards.m[rk].m && wk in idx.wards.m[rk].m[dk].m && sk != ""
  {
    forall rk, dk | rk in idx.districts.m && dk in idx.districts.m[rk].m ensures rk in idx.regions.m && dk != "" {
      assert idx.districts.m.Keys == idx.regions.m.Keys;
    }
    forall rk, dk, wk | rk in idx.wards.m && dk in idx.wards.m[rk].m && wk in idx.wards.m[rk].m[dk].m
      ensures rk in idx.districts.m && dk in idx.districts.m[rk].m && wk != ""
    {
      assert idx.wards.m.Keys == idx.regions.m.Keys == idx.districts.m.Keys;
      assert idx.wards.m[rk].m.Keys == idx.districts.m[rk].m.Keys;
    }
    forall rk, dk, wk, sk | rk in idx.streets.m && dk in idx.streets.m[rk].m && wk in idx.streets.m[rk].m[dk].m &&
                            sk in idx.streets.m[rk].m[dk].m[wk].m
      ensures rk in idx.wards.m && dk in idx.wards.m[rk].m && wk in idx.wards.m[rk].m[dk].m && sk != ""
    {
      assert idx.streets.m.Keys == idx.regions.m.Keys == idx.wards.m.Keys;
      assert idx.streets.m[rk].m.Keys == idx.wards.m[rk].m.Keys;
      assert idx.streets.m[rk].m[dk].m.Keys == idx.wards.m[rk].m[dk].m.Keys;
    }
  }

  // ---- What each index holds ----

  /** `d[key(x)] = x` for every `x` of `xs` in order, skipping empty keys: how every
      level of `build_indexes` fills the dict it writes to. */
  function PutAll<T>(d: Dict<T>, xs: seq<T>, key: T -> string): Dict<T> {
    if xs == [] then d
    else
      var prev := PutAll(d, xs[..|xs| - 1], key);
      var x := xs[|xs| - 1];
      if key(x) == "" then prev else Put(prev, key(x), x)
  }

  /** Some element of `xs` has key `k`. */
  predicate HasKey<T>(xs: seq<T>, k: string, key: T -> string) {
    exists i :: 0 <= i < |xs| && key(xs[i]) == k
  }

  /** `xs[i]` has a non-empty key that no later element of `xs` has. */
  predicate LastOfKey<T>(xs: seq<T>, i: int, key: T -> string) {
    0 <= i < |xs| && key(xs[i]) != "" && forall j :: i < j < |xs| ==> key(xs[j]) != key(xs[i])
  }

  /** A key occurs in `xs` when it occurs before the last element or is the last one's. */
  lemma HasKeySnoc<T>(xs: seq<T>, k: string, key: T -> string)
    requires xs != []
    ensures HasKey(xs, k, key) <==> HasKey(xs[..|xs| - 1], k, key) || key(xs[|xs| - 1]) == k
  {
    var init := xs[..|xs| - 1];
    if HasKey(init, k, key) {
      var i :| 0 <= i < |init| && key(init[i]) == k;
      assert key(xs[i]) == k;
    }
    if HasKey(xs, k, key) && key(xs[|xs| - 1]) != k {
      var i :| 0 <= i < |xs| && key(xs[i]) == k;
      assert key(init[i]) == k;
    }
    if key(xs[|xs| - 1]) == k {
      assert key(xs[|xs| - 1]) == k;
    }
  }

  /** The keys after the fold are the earlier keys plus the non-empty keys of `xs`. */
  lemma {:induction false} PutAllKeys<T>(d: Dict<T>, xs: seq<T>, key: T -> string)
    ensures forall k :: k in PutAll(d, xs, key).m <==> k in d.m || (k != "" && HasKey(xs, k, key))
  {
    if xs != [] {
      PutAllKeys(d, xs[..|xs| - 1], key);
      forall k ensures k in PutAll(d, xs, key).m <==> k in d.m || (k != "" && HasKey(xs, k, key)) {
        HasKeySnoc(xs, k, key);
      }
    }
  }

  /** The last element with a given key is the one the key maps to. */
  lemma {:induction false} PutAllLastWins<T>(d: Dict<T>, xs: seq<T>, key: T -> string, i: int)
    requires LastOfKey(xs, i, key)
    ensures key(xs[i]) in PutAll(d, xs, key).m
    ensures PutAll(d, xs, key).m[key(xs[i])] == xs[i]
    decreases |xs|
  {
    var init := xs[..|xs| - 1];
    if i < |xs| - 1 {
      assert LastOfKey(init, i, key) by {
        assert forall j :: i < j < |init| ==> init[j] == xs[j];
      }
      PutAllLastWins(d, init, key, i);
    }
  }

  lemma PutAllSnoc<T>(d: Dict<T>, xs: seq<T>, key: T -> string)
    requires xs != []
    ensures var prev, x := PutAll(d, xs[..|xs| - 1], key), xs[|xs| - 1];
      PutAll(d, xs, key) == if key(x) == "" then prev else Put(prev, key(x), x)
  {
  }

  /** Folding over two lists in turn is folding over their concatenation. */
  lemma {:induction false} PutAllAppend<T>(d: Dict<T>, xs: seq<T>, ys: seq<T>, key: T -> string)
    ensures PutAll(PutAll(d, xs, key), ys, key) == PutAll(d, xs + ys, key)
    decreases |ys|
  {
    if ys != [] {
      var zs, init, y := xs + ys, ys[..|ys| - 1], ys[|ys| - 1];
      assert zs[..|zs| - 1] == xs + init;
      assert zs[|zs| - 1] == y;
      PutAllAppend(d, xs, init, key);
      PutAllSnoc(d, zs, key);
      PutAllSnoc(PutAll(d, xs, key), ys, key);
      var prev := PutAll(d, xs + init, key);
      assert PutAll(d, zs[..|zs| - 1], key) == prev;
      assert PutAll(PutAll(d, xs, key), init, key) == prev;
    } else {
      assert xs + ys == xs;
    }
  }

  /** The region index alone, as the region loop builds it. */
  lemma {:induction false} AddRegionsRegionFold(idx: Idx, rs: seq<Region>)
    ensures AddRegions(idx, rs).regions == PutAll(idx.regions, rs, RegionKey)
  {
    if rs != [] {
      var prev := AddRegions(idx, rs[..|rs| - 1]);
      AddRegionsRegionFold(idx, rs[..|rs| - 1]);
      var r := rs[|rs| - 1];
      var rk := RegionKey(r);
      if rk != "" {
        AddDistrictsFrame(RegisterRegion(prev, rk, r), rk, r.distric.AsList());
      }
    }
  }

  /** The region index holds exactly the non-empty normalised names of the document's
      regions, and under each key the last region with that key (a later duplicate
      overwrites the entry). */
  lemma BuildRegions(doc: Doc)
    ensures Build(doc).regions == PutAll(Empty(), doc.regions.AsList(), RegionKey)
    ensures forall rk :: rk in Build(doc).regions.m <==> rk != "" && HasKey(doc.regions.AsList(), rk, RegionKey)
    ensures forall i :: LastOfKey(doc.regions.AsList(), i, RegionKey) ==>
              RegionKey(doc.regions.AsList()[i]) in Build(doc).regions.m &&
              Build(doc).regions.m[RegionKey(doc.regions.AsList()[i])] == doc.regions.AsList()[i]
  {
    var rs := doc.regions.AsList();
    AddRegionsRegionFold(EmptyIdx(), rs);
    PutAllKeys(Empty(), rs, RegionKey);
    forall i | LastOfKey(rs, i, RegionKey)
      ensures RegionKey(rs[i]) in Build(doc).regions.m && Build(doc).regions.m[RegionKey(rs[i])] == rs[i]
    {
      PutAllLastWins(Empty(), rs, RegionKey, i);
    }
  }

  // The lower levels. `setdefault` keeps the children collected so far when a region,
  // district or ward key comes round again, so the dict under a key is filled from the
  // child lists of every record with that key, in document order.

  /** `norm(x.get("NAME") or x.get("name") or "")` for the three lower levels. */
  function DistrictKey(d: District): string {
    Norm(DistrictIndexName(d))
  }

  function WardKey(w: Ward): string {
    Norm(WardIndexName(w))
  }

  function StreetKey(s: Street): string {
    Norm(StreetIndexName(s))
  }

  /** `_district_index.get(rk, {})` */
  function DistrictsAt(idx: Idx, rk: string): Dict<District> {
    Get(idx.districts, rk, Empty())
  }

  /** `_ward_index.get(rk, {}).get(dk, {})` */
  function WardsAt(idx: Idx, rk: string, dk: string): Dict<Ward> {
    Get(Get(idx.wards, rk, Empty()), dk, Empty())
  }

  /** `_street_index.get(rk, {}).get(dk, {}).get(wk, {})` */
  function StreetsAt(idx: Idx, rk: string, dk: string, wk: string): Dict<Street> {
    Get(Get(Get(idx.streets, rk, Empty()), dk, Empty()), wk, Empty())
  }

  /** The "DISTRIC" lists of every region keyed `rk`, one after the other. */
  function DistrictsOf(rs: seq<Region>, rk: string): seq<District> {
    if rs == [] then []
    else
      var r := rs[|rs| - 1];
      DistrictsOf(rs[..|rs| - 1], rk) + if rk != "" && RegionKey(r) == rk then r.distric.AsList() else []
  }

  /** The "WARD" lists of every district keyed `dk` in `ds`. */
  function WardsOfDistricts(ds: seq<District>, dk: string): seq<Ward> {
    if ds == [] then []
    else
      var d := ds[|ds| - 1];
      WardsOfDistricts(ds[..|ds| - 1], dk) + if dk != "" && DistrictKey(d) == dk then d.ward.AsList() else []
  }

  /** The "WARD" lists of every district keyed `dk` under every region keyed `rk`. */
  function WardsOf(rs: seq<Region>, rk: string, dk: string): seq<Ward> {
    if rs == [] then []
    else
      var r := rs[|rs| - 1];
      WardsOf(rs[..|rs| - 1], rk, dk) + if rk != "" && RegionKey(r) == rk then WardsOfDistricts(r.distric.AsList(), dk) else []
  }

  /** The "STREETS" lists of every ward keyed `wk` in `ws`. */
  function StreetsOfWards(ws: seq<Ward>, wk: string): seq<Street> {
    if ws == [] then []
    else
      var w := ws[|ws| - 1];
      StreetsOfWards(ws[..|ws| - 1], wk) + if wk != "" && WardKey(w) == wk then w.streets.AsList() else []
  }

  function StreetsOfDistricts(ds: seq<District>, dk: string, wk: string): seq<Street> {
    if ds == [] then []
    else
      var d := ds[|ds| - 1];
      StreetsOfDistricts(ds[..|ds| - 1], dk, wk) + if dk != "" && DistrictKey(d) == dk then StreetsOfWards(d.ward.AsList(), wk) else []
  }

  /** The "STREETS" lists of every ward keyed `wk`, under every district keyed `dk`, under
      every region keyed `rk`. */
  function StreetsOf(rs: seq<Region>, rk: string, dk: string, wk: string): seq<Street> {
    if rs == [] then []
    else
      var r := rs[|rs| - 1];
      StreetsOf(rs[..|rs| - 1], rk, dk, wk) + if rk != "" && RegionKey(r) == rk then StreetsOfDistricts(r.distric.AsList(), dk, wk) else []
  }

  // Which levels each loop leaves alone.

  lemma {:induction false} AddStreetsFrame(idx: Idx, rk: string, dk: string, wk: string, ss: seq<Street>)
    ensures AddStreets(idx, rk, dk, wk, ss).regions == idx.regions
    ensures AddStreets(idx, rk, dk, wk, ss).districts == idx.districts
    ensures AddStreets(idx, rk, dk, wk, ss).wards == idx.wards
  {
    if ss != [] {
      AddStreetsFrame(idx, rk, dk, wk, ss[..|ss| - 1]);
    }
  }

  lemma {:induction false} AddWardsFrame(idx: Idx, rk: string, dk: string, ws: seq<Ward>)
    ensures AddWards(idx, rk, dk, ws).regions == idx.regions
    ensures AddWards(idx, rk, dk, ws).districts == idx.districts
  {
    if ws != [] {
      var prev := AddWards(idx, rk, dk, ws[..|ws| - 1]);
      AddWardsFrame(idx, rk, dk, ws[..|ws| - 1]);
      var w := ws[|ws| - 1];
      var wk := Norm(WardIndexName(w));
      if wk != "" {
        AddStreetsFrame(RegisterWard(prev, rk, dk, wk, w), rk, dk, wk, w.streets.AsList());
      }
    }
  }

  lemma {:induction false} AddDistrictsFrame(idx: Idx, rk: string, ds: seq<District>)
    ensures AddDistricts(idx, rk, ds).regions == idx.regions
  {
    if ds != [] {
      var prev := AddDistricts(idx, rk, ds[..|ds| - 1]);
      AddDistrictsFrame(idx, rk, ds[..|ds| - 1]);
      var d := ds[|ds| - 1];
      var dk := Norm(DistrictIndexName(d));
      if dk != "" {
        AddWardsFrame(RegisterDistrict(prev, rk, dk, d), rk, dk, d.ward.AsList());
      }
    }
  }

  /** `setdefault(k, {})` never changes what `.get(k', {})` gives. */
  lemma GetSetDefault<V>(d: Dict<Dict<V>>, k: string, k': string)
    ensures Get(SetDefault(d, k, Empty()), k', Empty()) == Get(d, k', Empty())
  {
  }

  /** Assignment changes what `.get(k', default)` gives only at `k`. */
  lemma GetPut<V>(d: Dict<V>, k: string, v: V, k': string, default: V)
    ensures Get(Put(d, k, v), k', default) == if k' == k then v else Get(d, k', default)
  {
  }

  // The district index.

  lemma {:induction false} AddDistrictsDistricts(idx: Idx, rk': string, ds: seq<District>, rk: string)
    ensures DistrictsAt(AddDistricts(idx, rk', ds), rk) ==
            if rk == rk' then PutAll(DistrictsAt(idx, rk), ds, DistrictKey) else DistrictsAt(idx, rk)
  {
    if ds != [] {
      var prev := AddDistricts(idx, rk', ds[..|ds| - 1]);
      AddDistrictsDistricts(idx, rk', ds[..|ds| - 1], rk);
      var d := ds[|ds| - 1];
      var dk := DistrictKey(d);
      if dk != "" {
        AddWardsFrame(RegisterDistrict(prev, rk', dk, d), rk', dk, d.ward.AsList());
      }
    }
  }

  lemma AddRegionDistricts(prev: Idx, r: Region, rk: string)
    ensures DistrictsAt(AddRegion(prev, r), rk) ==
            if rk != "" && RegionKey(r) == rk then PutAll(DistrictsAt(prev, rk), r.distric.AsList(), DistrictKey)
            else DistrictsAt(prev, rk)
  {
    var k := RegionKey(r);
    if k != "" {
      var reg := RegisterRegion(prev, k, r);
      GetSetDefault(prev.districts, k, rk);
      assert DistrictsAt(reg, rk) == DistrictsAt(prev, rk);
      AddDistrictsDistricts(reg, k, r.distric.AsList(), rk);
    }
  }

  lemma {:induction false} AddRegionsDistricts(idx: Idx, rs: seq<Region>, rk: string)
    ensures DistrictsAt(AddRegions(idx, rs), rk) == PutAll(DistrictsAt(idx, rk), DistrictsOf(rs, rk), DistrictKey)
  {
    if rs != [] {
      var init, r := rs[..|rs| - 1], rs[|rs| - 1];
      AddRegionsDistricts(idx, init, rk);
      AddRegionDistricts(AddRegions(idx, init), r, rk);
      var extra := if rk != "" && RegionKey(r) == rk then r.distric.AsList() else [];
      PutAllAppend(DistrictsAt(idx, rk), DistrictsOf(init, rk), extra, DistrictKey);
    }
  }

  /** The districts indexed under a region key are those of every region with that key,
      in document order: a repeated region adds its districts to those already indexed,
      and among districts sharing a key the last one is kept. */
  lemma BuildDistricts(doc: Doc, rk: string)
    ensures var ds := DistrictsOf(doc.regions.AsList(), rk);
      && DistrictsAt(Build(doc), rk) == PutAll(Empty(), ds, DistrictKey)
      && (forall dk :: dk in DistrictsAt(Build(doc), rk).m <==> dk != "" && HasKey(ds, dk, DistrictKey))
      && forall i :: LastOfKey(ds, i, DistrictKey) ==> DistrictsAt(Build(doc), rk).m[DistrictKey(ds[i])] == ds[i]
  {
    var ds := DistrictsOf(doc.regions.AsList(), rk);
    AddRegionsDistricts(EmptyIdx(), doc.regions.AsList(), rk);
    PutAllKeys(Empty(), ds, DistrictKey);
    forall i | LastOfKey(ds, i, DistrictKey) ensures DistrictsAt(Build(doc), rk).m[DistrictKey(ds[i])] == ds[i] {
      PutAllLastWins(Empty(), ds, DistrictKey, i);
    }
  }

  // The ward index.

  lemma {:induction false} AddWardsWards(idx: Idx, rk': string, dk': string, ws: seq<Ward>, rk: string, dk: string)
    ensures WardsAt(AddWards(idx, rk', dk', ws), rk, dk) ==
            if rk == rk' && dk == dk' then PutAll(WardsAt(idx, rk, dk), ws, WardKey) else WardsAt(idx, rk, dk)
  {
    if ws != [] {
      var prev := AddWards(idx, rk', dk', ws[..|ws| - 1]);
      AddWardsWards(idx, rk', dk', ws[..|ws| - 1], rk, dk);
      var w := ws[|ws| - 1];
      var wk := WardKey(w);
      if wk != "" {
        AddStreetsFrame(RegisterWard(prev, rk', dk', wk, w), rk', dk', wk, w.streets.AsList());
      }
    }
  }

  lemma AddDistrictWards(prev: Idx, rk': string, d: District, rk: string, dk: string)
    ensures WardsAt(AddDistrict(prev, rk', d), rk, dk) ==
            if rk == rk' && dk != "" && DistrictKey(d) == dk then PutAll(WardsAt(prev, rk, dk), d.ward.AsList(), WardKey)
            else WardsAt(prev, rk, dk)
  {
    var k := DistrictKey(d);
    if k != "" {
      var reg := RegisterDistrict(prev, rk', k, d);
      GetSetDefault(Get(prev.wards, rk', Empty()), k, dk);
      assert WardsAt(reg, rk, dk) == WardsAt(prev, rk, dk);
      AddWardsWards(reg, rk', k, d.ward.AsList(), rk, dk);
    }
  }

  lemma {:induction false} AddDistrictsWards(idx: Idx, rk': string, ds: seq<District>, rk: string, dk: string)
    ensures WardsAt(AddDistricts(idx, rk', ds), rk, dk) ==
            if rk == rk' then PutAll(WardsAt(idx, rk, dk), WardsOfDistricts(ds, dk), WardKey) else WardsAt(idx, rk, dk)
  {
    if ds != [] {
      var init, d := ds[..|ds| - 1], ds[|ds| - 1];
      AddDistrictsWards(idx, rk', init, rk, dk);
      AddDistrictWards(AddDistricts(idx, rk', init), rk', d, rk, dk);
      var extra := if dk != "" && DistrictKey(d) == dk then d.ward.AsList() else [];
      PutAllAppend(WardsAt(idx, rk, dk), WardsOfDistricts(init, dk), extra, WardKey);
    }
  }

  lemma AddRegionWards(prev: Idx, r: Region, rk: string, dk: string)
    ensures WardsAt(AddRegion(prev, r), rk, dk) ==
            if rk != "" && RegionKey(r) == rk then PutAll(WardsAt(prev, rk, dk), WardsOfDistricts(r.distric.AsList(), dk), WardKey)
            else WardsAt(prev, rk, dk)
  {
    var k := RegionKey(r);
    if k != "" {
      var reg := RegisterRegion(prev, k, r);
      GetSetDefault(prev.wards, k, rk);
      assert WardsAt(reg, rk, dk) == WardsAt(prev, rk, dk);
      AddDistrictsWards(reg, k, r.distric.AsList(), rk, dk);
    }
  }

  lemma {:induction false} AddRegionsWards(idx: Idx, rs: seq<Region>, rk: string, dk: string)
    ensures WardsAt(AddRegions(idx, rs), rk, dk) == PutAll(WardsAt(idx, rk, dk), WardsOf(rs, rk, dk), WardKey)
  {
    if rs != [] {
      var init, r := rs[..|rs| - 1], rs[|rs| - 1];
      AddRegionsWards(idx, init, rk, dk);
      AddRegionWards(AddRegions(idx, init), r, rk, dk);
      var extra := if rk != "" && RegionKey(r) == rk then WardsOfDistricts(r.distric.AsList(), dk) else [];
      PutAllAppend(WardsAt(idx, rk, dk), WardsOf(init, rk, dk), extra, WardKey);
    }
  }

  /** The wards indexed under a region and district key are those of every district with
      that key under every region with that key, in document order, the last of each
      ward key winning. */
  lemma BuildWards(doc: Doc, rk: string, dk: string)
    ensures var ws := WardsOf(doc.regions.AsList(), rk, dk);
      && WardsAt(Build(doc), rk, dk) == PutAll(Empty(), ws, WardKey)
      && (forall wk :: wk in WardsAt(Build(doc), rk, dk).m <==> wk != "" && HasKey(ws, wk, WardKey))
      && forall i :: LastOfKey(ws, i, WardKey) ==> WardsAt(Build(doc), rk, dk).m[WardKey(ws[i])] == ws[i]
  {
    var ws := WardsOf(doc.regions.AsList(), rk, dk);
    AddRegionsWards(EmptyIdx(), doc.regions.AsList(), rk, dk);
    PutAllKeys(Empty(), ws, WardKey);
    forall i | LastOfKey(ws, i, WardKey) ensures WardsAt(Build(doc), rk, dk).m[WardKey(ws[i])] == ws[i] {
      PutAllLastWins(Empty(), ws, WardKey, i);
    }
  }

  // The street index.

  lemma {:induction false} AddStreetsStreets(idx: Idx, rk': string, dk': string, wk': string, ss: seq<Street>,
                                             rk: string, dk: string, wk: string)
    ensures StreetsAt(AddStreets(idx, rk', dk', wk', ss), rk, dk, wk) ==
            if rk == rk' && dk == dk' && wk == wk' then PutAll(StreetsAt(idx, rk, dk, wk), ss, StreetKey)
            else StreetsAt(idx, rk, dk, wk)
  {
    if ss != [] {
      AddStreetsStreets(idx, rk', dk', wk', ss[..|ss| - 1], rk, dk, wk);
      var s := ss[|ss| - 1];
      if StreetKey(s) != "" {
        RegisterStreetStreets(AddStreets(idx, rk', dk', wk', ss[..|ss| - 1]), rk', dk', wk', StreetKey(s), s, rk, dk, wk);
      }
    }
  }

  lemma RegisterStreetStreets(prev: Idx, rk': string, dk': string, wk': string, sk: string, s: Street,
                              rk: string, dk: string, wk: string)
    ensures StreetsAt(RegisterStreet(prev, rk', dk', wk', sk, s), rk, dk, wk) ==
            if rk == rk' && dk == dk' && wk == wk' then Put(StreetsAt(prev, rk, dk, wk), sk, s)
            else StreetsAt(prev, rk, dk, wk)
  {
    var sr := Get(prev.streets, rk', Empty());
    var srd := Get(sr, dk', Empty());
    var inner := Put(Get(srd, wk', Empty()), sk, s);
    GetPut(prev.streets, rk', Put(sr, dk', Put(srd, wk', inner)), rk, Empty());
    GetPut(sr, dk', Put(srd, wk', inner), dk, Empty());
    GetPut(srd, wk', inner, wk, Empty());
  }

  /** Registering a ward only adds an empty street dict, so no `.get` changes. */
  lemma RegisterWardStreets(prev: Idx, rk': string, dk': string, k: string, w: Ward, rk: string, dk: string, wk: string)
    ensures StreetsAt(RegisterWard(prev, rk', dk', k, w), rk, dk, wk) == StreetsAt(prev, rk, dk, wk)
  {
    var sr := Get(prev.streets, rk', Empty());
    var srd := Get(sr, dk', Empty());
    GetPut(prev.streets, rk', Put(sr, dk', SetDefault(srd, k, Empty())), rk, Empty());
    GetPut(sr, dk', SetDefault(srd, k, Empty()), dk, Empty());
    GetSetDefault(srd, k, wk);
  }

  lemma AddWardStreets(prev: Idx, rk': string, dk': string, w: Ward, rk: string, dk: string, wk: string)
    ensures StreetsAt(AddWard(prev, rk', dk', w), rk, dk, wk) ==
            if rk == rk' && dk == dk' && wk != "" && WardKey(w) == wk
            then PutAll(StreetsAt(prev, rk, dk, wk), w.streets.AsList(), StreetKey)
            else StreetsAt(prev, rk, dk, wk)
  {
    var k := WardKey(w);
    if k != "" {
      var reg := RegisterWard(prev, rk', dk', k, w);
      RegisterWardStreets(prev, rk', dk', k, w, rk, dk, wk);
      AddStreetsStreets(reg, rk', dk', k, w.streets.AsList(), rk, dk, wk);
    }
  }

  lemma {:induction false} AddWardsStreets(idx: Idx, rk': string, dk': string, ws: seq<Ward>, rk: string, dk: string, wk: string)
    ensures StreetsAt(AddWards(idx, rk', dk', ws), rk, dk, wk) ==
            if rk == rk' && dk == dk' then PutAll(StreetsAt(idx, rk, dk, wk), StreetsOfWards(ws, wk), StreetKey)
            else StreetsAt(idx, rk, dk, wk)
  {
    if ws != [] {
      var init, w := ws[..|ws| - 1], ws[|ws| - 1];
      AddWardsStreets(idx, rk', dk', init, rk, dk, wk);
      AddWardStreets(AddWards(idx, rk', dk', init), rk', dk', w, rk, dk, wk);
      var extra := if wk != "" && WardKey(w) == wk then w.streets.AsList() else [];
      PutAllAppend(StreetsAt(idx, rk, dk, wk), StreetsOfWards(init, wk), extra, StreetKey);
    }
  }

  lemma AddDistrictStreets(prev: Idx, rk': string, d: District, rk: string, dk: string, wk: string)
    ensures StreetsAt(AddDistrict(prev, rk', d), rk, dk, wk) ==
            if rk == rk' && dk != "" && DistrictKey(d) == dk
            then PutAll(StreetsAt(prev, rk, dk, wk), StreetsOfWards(d.ward.AsList(), wk), StreetKey)
            else StreetsAt(prev, rk, dk, wk)
  {
    var k := DistrictKey(d);
    if k != "" {
      var reg := RegisterDistrict(prev, rk', k, d);
      GetSetDefault(Get(prev.streets, rk', Empty()), k, dk);
      assert StreetsAt(reg, rk, dk, wk) == StreetsAt(prev, rk, dk, wk);
      AddWardsStreets(reg, rk', k, d.ward.AsList(), rk, dk, wk);
    }
  }

  lemma {:induction false} AddDistrictsStreets(idx: Idx, rk': string, ds: seq<District>, rk: string, dk: string, wk: string)
    ensures StreetsAt(AddDistricts(idx, rk', ds), rk, dk, wk) ==
            if rk == rk' then PutAll(StreetsAt(idx, rk, dk, wk), StreetsOfDistricts(ds, dk, wk), StreetKey)
            else StreetsAt(idx, rk, dk, wk)
  {
    if ds != [] {
      var init, d := ds[..|ds| - 1], ds[|ds| - 1];
      AddDistrictsStreets(idx, rk', init, rk, dk, wk);
      AddDistrictStreets(AddDistricts(idx, rk', init), rk', d, rk, dk, wk);
      var extra := if dk != "" && DistrictKey(d) == dk then StreetsOfWards(d.ward.AsList(), wk) else [];
      PutAllAppend(StreetsAt(idx, rk, dk, wk), StreetsOfDistricts(init, dk, wk), extra, StreetKey);
    }
  }

  lemma AddRegionStreets(prev: Idx, r: Region, rk: string, dk: string, wk: string)
    ensures StreetsAt(AddRegion(prev, r), rk, dk, wk) ==
            if rk != "" && RegionKey(r) == rk
            then PutAll(StreetsAt(prev, rk, dk, wk), StreetsOfDistricts(r.distric.AsList(), dk, wk), StreetKey)
            else StreetsAt(prev, rk, dk, wk)
  {
    var k := RegionKey(r);
    if k != "" {
      var reg := RegisterRegion(prev, k, r);
      GetSetDefault(prev.streets, k, rk);
      assert StreetsAt(reg, rk, dk, wk) == StreetsAt(prev, rk, dk, wk);
      AddDistrictsStreets(reg, k, r.distric.AsList(), rk, dk, wk);
    }
  }

  lemma {:induction false} AddRegionsStreets(idx: Idx, rs: seq<Region>, rk: string, dk: string, wk: string)
    ensures StreetsAt(AddRegions(idx, rs), rk, dk, wk) == PutAll(StreetsAt(idx, rk, dk, wk), StreetsOf(rs, rk, dk, wk), StreetKey)
  {
    if rs != [] {
      var init, r := rs[..|rs| - 1], rs[|rs| - 1];
      AddRegionsStreets(idx, init, rk, dk, wk);
      AddRegionStreets(AddRegions(idx, init), r, rk, dk, wk);
      var extra := if rk != "" && RegionKey(r) == rk then StreetsOfDistricts(r.distric.AsList(), dk, wk) else [];
      PutAllAppend(StreetsAt(idx, rk, dk, wk), StreetsOf(init, rk, dk, wk), extra, StreetKey);
    }
  }

  /** The streets indexed under a region, district and ward key are those of every ward
      with that key, under every district and region with theirs, in document order, the
      last of each street key winning. */
  lemma BuildStreets(doc: Doc, rk: string, dk: string, wk: string)
    ensures var ss := StreetsOf(doc.regions.AsList(), rk, dk, wk);
      && StreetsAt(Build(doc), rk, dk, wk) == PutAll(Empty(), ss, StreetKey)
      && (forall sk :: sk in StreetsAt(Build(doc), rk, dk, wk).m <==> sk != "" && HasKey(ss, sk, StreetKey))
      && forall i :: LastOfKey(ss, i, StreetKey) ==> StreetsAt(Build(doc), rk, dk, wk).m[StreetKey(ss[i])] == ss[i]
  {
    var ss := StreetsOf(doc.regions.AsList(), rk, dk, wk);
    AddRegionsStreets(EmptyIdx(), doc.regions.AsList(), rk, dk, wk);
    PutAllKeys(Empty(), ss, StreetKey);
    forall i | LastOfKey(ss, i, StreetKey) ensures StreetsAt(Build(doc), rk, dk, wk).m[StreetKey(ss[i])] == ss[i] {
      PutAllLastWins(Empty(), ss, StreetKey, i);
    }
  }

  // One more element of each loop, in the form the loops of `Store` use.

  lemma AddStreetsStep(idx: Idx, rk: string, dk: string, wk: string, ss: seq<Street>, l: nat)
    requires l < |ss|
    ensures AddStreets(idx, rk, dk, wk, ss[..l + 1]) == AddStreet(AddStreets(idx, rk, dk, wk, ss[..l]), rk, dk, wk, ss[l])
  {
    assert ss[..l + 1][..l] == ss[..l];
  }

  lemma AddWardsStep(idx: Idx, rk: string, dk: string, ws: seq<Ward>, k: nat)
    requires k < |ws|
    ensures AddWards(idx, rk, dk, ws[..k + 1]) == AddWard(AddWards(idx, rk, dk, ws[..k]), rk, dk, ws[k])
  {
    assert ws[..k + 1][..k] == ws[..k];
  }

  lemma AddDistrictsStep(idx: Idx, rk: string, ds: seq<District>, j: nat)
    requires j < |ds|
    ensures AddDistricts(idx, rk, ds[..j + 1]) == AddDistrict(AddDistricts(idx, rk, ds[..j]), rk, ds[j])
  {
    assert ds[..j + 1][..j] == ds[..j];
  }

  lemma AddRegionsStep(idx: Idx, rs: seq<Region>, i: nat)
    requires i < |rs|
    ensures AddRegions(idx, rs[..i + 1]) == AddRegion(AddRegions(idx, rs[..i]), rs[i])
  {
    assert rs[..i + 1][..i] == rs[..i];
  }

}
