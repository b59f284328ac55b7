/** The four list endpoints (app.py:252-336). Each one collects the entries of one level,
    keeps those with a name, sorts them stably by the normalised name and returns one
    page of the result. */
module Listing {
  import opened Wrappers
  import opened Text
  import opened Normalize
  import opened Sorting
  import opened OrderedDict
  import opened Document
  import opened Index
  import opened Lookup

  function AtLeast(x: int, lo: int): int {
    if x < lo then lo else x
  }

  function Min(a: int, b: int): int {
    if a < b then a else b
  }

  /** The positions `i` of `s` with `p(s[i])`, in increasing order: which entries a
      filter keeps, and in which order. */
  function Positions<T>(s: seq<T>, p: T -> bool): seq<nat> {
    if s == [] then [] else Positions(s[..|s| - 1], p) + if p(s[|s| - 1]) then [|s| - 1] else []
  }

  /** Every listed position is in range and satisfies `p`, the positions strictly
      increase, and every position that satisfies `p` is listed. */
  lemma {:induction false} PositionsFacts<T>(s: seq<T>, p: T -> bool)
    ensures forall k :: 0 <= k < |Positions(s, p)| ==> Positions(s, p)[k] < |s| && p(s[Positions(s, p)[k]])
    ensures forall j, k :: 0 <= j < k < |Positions(s, p)| ==> Positions(s, p)[j] < Positions(s, p)[k]
    ensures forall i :: 0 <= i < |s| && p(s[i]) ==> i in Positions(s, p)
  {
    if s != [] {
      var init, last := s[..|s| - 1], s[|s| - 1];
      PositionsFacts(init, p);
      var prev, r := Positions(init, p), Positions(s, p);
      assert r == prev + if p(last) then [|s| - 1] else [];
      forall k | 0 <= k < |r| ensures r[k] < |s| && p(s[r[k]]) {
        if k < |prev| {
          assert r[k] == prev[k] && init[prev[k]] == s[prev[k]];
        }
      }
      forall j, k | 0 <= j < k < |r| ensures r[j] < r[k] {
        assert r[j] == prev[j];
        if k < |prev| {
          assert r[k] == prev[k];
        }
      }
      forall i | 0 <= i < |s| && p(s[i]) ensures i in r {
        if i < |init| {
          assert init[i] == s[i];
          assert i in prev;
        } else {
          assert r[|r| - 1] == i;
        }
      }
    }
  }

  // ---- paginate (app.py:189-194) ----

  /** `paginate(items, limit, offset)`: the slice `items[o : o + l]` where a negative
      offset counts as 0 and a limit below 1 counts as 1. */
  function Paginate<T>(items: seq<T>, limit: int, offset: int): (r: seq<T>)
    ensures var o, l := AtLeast(offset, 0), AtLeast(limit, 1);
      && |r| == (if o >= |items| then 0 else Min(l, |items| - o))
      && forall i :: 0 <= i < |r| ==> r[i] == items[o + i]
  {
    var o, l := AtLeast(offset, 0), AtLeast(limit, 1);
    if o >= |items| then [] else items[o..Min(o + l, |items|)]
  }

  /** Two consecutive pages of size `l` make up the page of size `2 * l` that starts
      where the first one does: paging through a list neither skips nor repeats. */
  lemma PaginateTiles<T>(items: seq<T>, l: int, o: int)
    requires l >= 1 && o >= 0
    ensures Paginate(items, l, o) + Paginate(items, l, o + l) == Paginate(items, 2 * l, o)
  {
    var a, b, c := Paginate(items, l, o), Paginate(items, l, o + l), Paginate(items, 2 * l, o);
    assert |a + b| == |c|;
    forall i | 0 <= i < |c| ensures (a + b)[i] == c[i] {
      if i >= |a| {
        assert (a + b)[i] == b[i - |a|];
      }
    }
  }

  /** A page large enough for the whole list, starting at 0, is the whole list. */
  lemma PaginateWhole<T>(items: seq<T>, limit: int)
    requires limit >= |items|
    ensures Paginate(items, limit, 0) == items
  {
    if items != [] {
      assert Paginate(items, limit, 0) == items[0..|items|];
    }
  }

  // ---- The shared tail of the four endpoints: `out.sort(key=...)`, `paginate` ----

  /** Sort stably by `key`, then take one page. */
  function Page<T>(all: seq<T>, key: T -> string, limit: int, offset: int): seq<T> {
    Paginate(SortBy(all, ByKey(key)), limit, offset)
  }

  /** A page is the slice of the sorted list that starts at the offset. */
  lemma PageSlice<T>(all: seq<T>, key: T -> string, limit: int, offset: int)
    ensures var sorted, o, page := SortBy(all, ByKey(key)), AtLeast(offset, 0), Page(all, key, limit, offset);
      && |sorted| == |all|
      && |page| == (if o >= |all| then 0 else Min(AtLeast(limit, 1), |all| - o))
      && forall i :: 0 <= i < |page| ==> o + i < |sorted| && page[i] == sorted[o + i]
  {
    SortPermutes(all, ByKey(key));
    assert |multiset(SortBy(all, ByKey(key)))| == |multiset(all)|;
  }

  /** The sorted list is ordered by the key, is a permutation of the input, and keeps
      entries with equal keys in input order; the page is ordered, holds at most
      `max(1, limit)` entries, and draws them from the input. */
  lemma PageFacts<T(!new)>(all: seq<T>, key: T -> string, limit: int, offset: int)
    ensures SortedBy(SortBy(all, ByKey(key)), ByKey(key))
    ensures multiset(SortBy(all, ByKey(key))) == multiset(all)
    ensures |SortBy(all, ByKey(key))| == |all|
    ensures forall x :: Run(SortBy(all, ByKey(key)), x, ByKey(key)) == Run(all, x, ByKey(key))
    ensures SortedBy(Page(all, key, limit, offset), ByKey(key))
    ensures |Page(all, key, limit, offset)| <= AtLeast(limit, 1)
    ensures forall y :: y in Page(all, key, limit, offset) ==> y in all
  {
    var le := ByKey(key);
    var sorted := SortBy(all, le);
    ByKeyPreorder(key);
    SortSorted(all, le);
    SortPermutes(all, le);
    assert |multiset(sorted)| == |multiset(all)|;
    forall x ensures Run(sorted, x, le) == Run(all, x, le) {
      SortStable(all, x, le);
    }
    var page := Page(all, key, limit, offset);
    var o, l := AtLeast(offset, 0), AtLeast(limit, 1);
    if o < |sorted| {
      SliceSorted(sorted, o, Min(o + l, |sorted|), le);
    }
    forall y | y in page ensures y in all {
      var i :| 0 <= i < |page| && page[i] == y;
      assert y in multiset(sorted);
    }
  }

  // ---- list_regions (app.py:252-270) ----

  datatype RegionOut = RegionOut(name: string, postcode: Option<int>)

  /** `RegionOut(name=r.get("REGION") or "", postcode=r.get("POSTCODE"))`: only the
      "REGION" key, unlike the index, which falls back to "name". */
  function RegionOutOf(r: Region): RegionOut {
    RegionOut(FirstName(r.regionName, None), r.postcode)
  }

  function RegionOutKey(x: RegionOut): string {
    Norm(x.name)
  }

  /** `qn = norm(q) if q else None`, tested with `if qn and ...`: a missing, empty or
      all-whitespace query filters nothing; "" stands for "no filter". */
  function QueryKey(q: Option<string>): string {
    if Truthy(q) then Norm(q.value) else ""
  }

  predicate RegionMatches(qn: string, r: Region) {
    qn == "" || Contains(Norm(RegionOutOf(r).name), qn)
  }

  /** `RegionMatches(qn, _)` as a value, for `Positions`. */
  function Matcher(qn: string): Region -> bool {
    r => RegionMatches(qn, r)
  }

  /** The entries the loop of app.py:263-267 appends, in input order: one per matching
      region, at the matching positions of `rs`. */
  function MatchingRegions(rs: seq<Region>, qn: string): (r: seq<RegionOut>)
    ensures |r| <= |rs|
    ensures forall x :: x in r <==> exists i :: 0 <= i < |rs| && RegionMatches(qn, rs[i]) && x == RegionOutOf(rs[i])
    ensures qn == "" ==> |r| == |rs| && forall i :: 0 <= i < |rs| ==> r[i] == RegionOutOf(rs[i])
  {
    if rs == [] then []
    else
      var init, last := rs[..|rs| - 1], rs[|rs| - 1];
      var prev := MatchingRegions(init, qn);
      assert forall i :: 0 <= i < |init| ==> init[i] == rs[i];
      prev + if RegionMatches(qn, last) then [RegionOutOf(last)] else []
  }

  /** The matching regions come out once each, in input order: the `k`-th entry is the
      region at the `k`-th matching position. */
  lemma {:induction false} MatchingRegionsOrder(rs: seq<Region>, qn: string)
    ensures var r, pos := MatchingRegions(rs, qn), Positions(rs, Matcher(qn));
      |r| == |pos| && forall k :: 0 <= k < |r| ==> pos[k] < |rs| && r[k] == RegionOutOf(rs[pos[k]])
  {
    if rs != [] {
      var init, last := rs[..|rs| - 1], rs[|rs| - 1];
      MatchingRegionsOrder(init, qn);
      var prev, pos0 := MatchingRegions(init, qn), Positions(init, Matcher(qn));
      var r, pos := MatchingRegions(rs, qn), Positions(rs, Matcher(qn));
      var hit := RegionMatches(qn, last);
      assert Matcher(qn)(last) == hit;
      assert r == prev + if hit then [RegionOutOf(last)] else [];
      assert pos == pos0 + if hit then [|rs| - 1] else [];
      forall k | 0 <= k < |r| ensures pos[k] < |rs| && r[k] == RegionOutOf(rs[pos[k]]) {
        if k < |prev| {
          assert r[k] == prev[k] && pos[k] == pos0[k];
          assert init[pos0[k]] == rs[pos0[k]];
        }
      }
    }
  }

  lemma MatchingRegionsStep(rs: seq<Region>, qn: string, i: nat)
    requires i < |rs|
    ensures MatchingRegions(rs[..i + 1], qn)
      == MatchingRegions(rs[..i], qn) + if RegionMatches(qn, rs[i]) then [RegionOutOf(rs[i])] else []
  {
    assert rs[..i + 1][..i] == rs[..i];
  }

  /** The loop of app.py:263-267: keep each region whose normalised "REGION" contains
      `qn`, or every region when there is no query. */
  method CollectRegions(regions: seq<Region>, qn: string) returns (out: seq<RegionOut>)
    ensures out == MatchingRegions(regions, qn)
  {
    out := [];
    var i := 0;
    while i < |regions|
      invariant 0 <= i <= |regions|
      invariant out == MatchingRegions(regions[..i], qn)
    {
      var r := regions[i];
      var name := FirstName(r.regionName, None);
      MatchingRegionsStep(regions, qn, i);
      assert RegionMatches(qn, r) == (qn == "" || Contains(Norm(name), qn));
      if qn == "" || Contains(Norm(name), qn) {
        out := out + [RegionOut(name, r.postcode)];
      }
      i := i + 1;
    }
    assert regions[..i] == regions;
  }

  /** `list_regions(q, limit, offset)` over the loaded document. "regions" is a list
      here: otherwise `build_indexes` raised at startup and the service never ran. */
  method ListRegions(data: Doc, q: Option<string>, limit: int, offset: int) returns (page: seq<RegionOut>)
    requires !data.regions.Other?
    ensures page == Page(MatchingRegions(data.regions.AsList(), QueryKey(q)), RegionOutKey, limit, offset)
  {
    var out := CollectRegions(data.regions.AsList(), QueryKey(q));
    out := SortBy(out, ByKey(RegionOutKey));
    page := Paginate(out, limit, offset);
  }

  /** A page of `list_regions` is sorted by normalised name, and with a query every
      entry on it is a region whose normalised "REGION" contains the normalised query. */
  lemma ListRegionsPage(rs: seq<Region>, q: Option<string>, limit: int, offset: int)
    ensures var page := Page(MatchingRegions(rs, QueryKey(q)), RegionOutKey, limit, offset);
      && SortedBy(page, ByKey(RegionOutKey))
      && |page| <= AtLeast(limit, 1)
      && forall y :: y in page ==>
           (QueryKey(q) != "" ==> Contains(Norm(y.name), QueryKey(q))) &&
           exists i :: 0 <= i < |rs| && y == RegionOutOf(rs[i])
  {
    PageFacts(MatchingRegions(rs, QueryKey(q)), RegionOutKey, limit, offset);
  }

  // ---- list_districts, list_wards (app.py:284-309) ----

  datatype DistrictOut = DistrictOut(name: string)

  function DistrictOutKey(x: DistrictOut): string {
    Norm(x.name)
  }

  /** `d.get("NAME")` is truthy. */
  predicate DistrictNamed(d: District) {
    Truthy(d.upperName)
  }

  /** `[DistrictOut(name=d.get("NAME", "")) for d in ds if d.get("NAME")]`: a raw
      non-empty "NAME" is enough, even one that normalises to "". One entry per named
      district, in input order. */
  function NamedDistricts(ds: seq<District>): (r: seq<DistrictOut>)
    ensures |r| <= |ds|
    ensures var pos := Positions(ds, DistrictNamed);
      |r| == |pos| && forall k :: 0 <= k < |r| ==> pos[k] < |ds| && DistrictNamed(ds[pos[k]]) && r[k] == DistrictOut(ds[pos[k]].upperName.value)
  {
    if ds == [] then []
    else
      var init, last := ds[..|ds| - 1], ds[|ds| - 1];
      assert forall i :: 0 <= i < |init| ==> init[i] == ds[i];
      NamedDistricts(init) + if DistrictNamed(last) then [DistrictOut(last.upperName.value)] else []
  }

  /** `list_districts(region, limit, offset)`: the region must exist; its districts are
      read from "DISTRIC", "DISTRICT" or "DISTRICTS", whichever is first a list. */
  function ListDistricts(idx: Idx, region: string, limit: int, offset: int): (r: Result<seq<DistrictOut>, NotFound>)
    ensures r.Err? <==> Norm(region) !in idx.regions.m
    ensures r.Err? ==> r.error == NotFound(RegionLevel, region)
    ensures r.Ok? ==>
      var all, o := NamedDistricts(DistrictAliases(idx.regions.m[Norm(region)])), AtLeast(offset, 0);
      var sorted := SortBy(all, ByKey(DistrictOutKey));
      && |r.value| == (if o >= |all| then 0 else Min(AtLeast(limit, 1), |all| - o))
      && (forall i :: 0 <= i < |r.value| ==> o + i < |sorted| && r.value[i] == sorted[o + i])
  {
    match RequireRegion(idx, region)
    case Err(e) => Err(e)
    case Ok((_, reg)) =>
      var all := NamedDistricts(DistrictAliases(reg));
      PageSlice(all, DistrictOutKey, limit, offset);
      Ok(Page(all, DistrictOutKey, limit, offset))
  }

  /** A page of `list_districts` is sorted by normalised name and lists named districts
      of the region. */
  lemma ListDistrictsPage(reg: Region, limit: int, offset: int)
    ensures var page := Page(NamedDistricts(DistrictAliases(reg)), DistrictOutKey, limit, offset);
      && SortedBy(page, ByKey(DistrictOutKey))
      && |page| <= AtLeast(limit, 1)
      && forall y :: y in page ==>
           (y.name != "" && exists d :: d in DistrictAliases(reg) && d.upperName == Some(y.name))
  {
    var all := NamedDistricts(DistrictAliases(reg));
    PageFacts(all, DistrictOutKey, limit, offset);
    forall y | y in Page(all, DistrictOutKey, limit, offset)
      ensures y.name != "" && exists d :: d in DistrictAliases(reg) && d.upperName == Some(y.name)
    {
      var ds := DistrictAliases(reg);
      var k :| 0 <= k < |all| && all[k] == y;
      var pos := Positions(ds, DistrictNamed);
      PositionsFacts(ds, DistrictNamed);
      assert DistrictNamed(ds[pos[k]]) && ds[pos[k]] in ds;
    }
  }

  datatype WardOut = WardOut(name: string)

  function WardOutKey(x: WardOut): string {
    Norm(x.name)
  }

  predicate WardNamed(w: Ward) {
    Truthy(w.upperName)
  }

  /** `[WardOut(name=w.get("NAME", "")) for w in ws if w.get("NAME")]`: one entry per
      named ward, in input order. */
  function NamedWards(ws: seq<Ward>): (r: seq<WardOut>)
    ensures |r| <= |ws|
    ensures var pos := Positions(ws, WardNamed);
      |r| == |pos| && forall k :: 0 <= k < |r| ==> pos[k] < |ws| && WardNamed(ws[pos[k]]) && r[k] == WardOut(ws[pos[k]].upperName.value)
  {
    if ws == [] then []
    else
      var init, last := ws[..|ws| - 1], ws[|ws| - 1];
      assert forall i :: 0 <= i < |init| ==> init[i] == ws[i];
      NamedWards(init) + if WardNamed(last) then [WardOut(last.upperName.value)] else []
  }

  /** `require_region` then `require_district`: the region is validated first. */
  function FindDistrict(idx: Idx, region: string, district: string): Result<District, NotFound> {
    match RequireRegion(idx, region)
    case Err(e) => Err(e)
    case Ok((rk, _)) =>
      match RequireDistrict(idx, rk, district)
      case Err(e) => Err(e)
      case Ok((_, d)) => Ok(d)
  }

  /** `list_wards(region, district, limit, offset)`: wards from "WARD" or "WARDS". */
  function ListWards(idx: Idx, region: string, district: string, limit: int, offset: int)
    : (r: Result<seq<WardOut>, NotFound>)
    ensures r.Err? <==> FindDistrict(idx, region, district).Err?
    ensures r.Err? ==> r.error == FindDistrict(idx, region, district).error
    ensures r.Ok? ==>
      var all, o := NamedWards(WardAliases(FindDistrict(idx, region, district).value)), AtLeast(offset, 0);
      var sorted := SortBy(all, ByKey(WardOutKey));
      && |r.value| == (if o >= |all| then 0 else Min(AtLeast(limit, 1), |all| - o))
      && (forall i :: 0 <= i < |r.value| ==> o + i < |sorted| && r.value[i] == sorted[o + i])
  {
    match FindDistrict(idx, region, district)
    case Err(e) => Err(e)
    case Ok(d) =>
      var all := NamedWards(WardAliases(d));
      PageSlice(all, WardOutKey, limit, offset);
      Ok(Page(all, WardOutKey, limit, offset))
  }

  /** A page of `list_wards` is sorted by normalised name and lists named wards of the
      district. */
  lemma ListWardsPage(d: District, limit: int, offset: int)
    ensures var page := Page(NamedWards(WardAliases(d)), WardOutKey, limit, offset);
      && SortedBy(page, ByKey(WardOutKey))
      && |page| <= AtLeast(limit, 1)
      && forall y :: y in page ==>
           (y.name != "" && exists w :: w in WardAliases(d) && w.upperName == Some(y.name))
  {
    var all := NamedWards(WardAliases(d));
    PageFacts(all, WardOutKey, limit, offset);
    forall y | y in Page(all, WardOutKey, limit, offset)
      ensures y.name != "" && exists w :: w in WardAliases(d) && w.upperName == Some(y.name)
    {
      var ws := WardAliases(d);
      var k :| 0 <= k < |all| && all[k] == y;
      var pos := Positions(ws, WardNamed);
      PositionsFacts(ws, WardNamed);
      assert WardNamed(ws[pos[k]]) && ws[pos[k]] in ws;
    }
  }

  // ---- list_streets (app.py:312-336) ----

  datatype StreetOut = StreetOut(name: string, places: seq<string>)

  function StreetOutKey(x: StreetOut): string {
    Norm(x.name)
  }

  predicate StreetNamed(s: Street) {
    Truthy(s.upperName)
  }

  /** The loop of app.py:326-333: streets with a non-empty "NAME", each with its
      "PLACES" list, or `[]` when "PLACES" is not a list; one entry per named street, in
      input order. */
  function NamedStreets(ss: seq<Street>): (r: seq<StreetOut>)
    ensures |r| <= |ss|
    ensures var pos := Positions(ss, StreetNamed);
      |r| == |pos| && forall k :: 0 <= k < |r| ==>
        pos[k] < |ss| && StreetNamed(ss[pos[k]]) && r[k] == StreetOut(ss[pos[k]].upperName.value, ss[pos[k]].places.AsList())
  {
    if ss == [] then []
    else
      var init, last := ss[..|ss| - 1], ss[|ss| - 1];
      assert forall i :: 0 <= i < |init| ==> init[i] == ss[i];
      NamedStreets(init) + if StreetNamed(last) then [StreetOut(last.upperName.value, last.places.AsList())] else []
  }

  /** `require_region`, `require_district`, `require_ward`, in that order. */
  function FindWard(idx: Idx, region: string, district: string, ward: string): Result<Ward, NotFound> {
    match RequireRegion(idx, region)
    case Err(e) => Err(e)
    case Ok((rk, _)) =>
      match RequireDistrict(idx, rk, district)
      case Err(e) => Err(e)
      case Ok((dk, _)) =>
        match RequireWard(idx, rk, dk, ward)
        case Err(e) => Err(e)
        case Ok((_, w)) => Ok(w)
  }

  /** The first lookup that misses decides the error: region, then district, then ward. */
  lemma FindWardOrder(idx: Idx, region: string, district: string, ward: string)
    ensures Norm(region) !in idx.regions.m ==>
              FindWard(idx, region, district, ward) == Err(NotFound(RegionLevel, region))
    ensures Norm(region) in idx.regions.m && Norm(district) !in Get(idx.districts, Norm(region), Empty()).m ==>
              FindWard(idx, region, district, ward) == Err(NotFound(DistrictLevel, district))
    ensures Norm(region) in idx.regions.m && Norm(district) in Get(idx.districts, Norm(region), Empty()).m ==>
              var wr := Get(Get(idx.wards, Norm(region), Empty()), Norm(district), Empty());
              FindWard(idx, region, district, ward) ==
                if Norm(ward) in wr.m then Ok(wr.m[Norm(ward)]) else Err(NotFound(WardLevel, ward))
  {
  }

  /** `list_streets(region, district, ward, limit, offset)`: streets from "STREETS",
      "STREET" or "ROADS". */
  method ListStreets(idx: Idx, region: string, district: string, ward: string, limit: int, offset: int)
    returns (r: Result<seq<StreetOut>, NotFound>)
    ensures r.Err? <==> FindWard(idx, region, district, ward).Err?
    ensures r.Err? ==> r.error == FindWard(idx, region, district, ward).error
    ensures r.Ok? ==>
      r.value == Page(NamedStreets(StreetAliases(FindWard(idx, region, district, ward).value)), StreetOutKey, limit, offset)
  {
    var rr := RequireRegion(idx, region);
    if rr.Err? {
      return Err(rr.error);
    }
    var dr := RequireDistrict(idx, rr.value.0, district);
    if dr.Err? {
      return Err(dr.error);
    }
    var wr := RequireWard(idx, rr.value.0, dr.value.0, ward);
    if wr.Err? {
      return Err(wr.error);
    }
    var streets := StreetAliases(wr.value.1);
    var out: seq<StreetOut> := [];
    var i := 0;
    while i < |streets|
      invariant 0 <= i <= |streets|
      invariant out == NamedStreets(streets[..i])
    {
      var s := streets[i];
      var name := FirstName(s.upperName, None);
      if name != "" {
        out := out + [StreetOut(name, s.places.AsList())];
      }
      assert streets[..i + 1][..i] == streets[..i];
      i := i + 1;
    }
    assert streets[..i] == streets;
    out := SortBy(out, ByKey(StreetOutKey));
    r := Ok(Paginate(out, limit, offset));
  }

  /** A page of `list_streets` is sorted by normalised name and lists named streets of
      the ward, each with its own places. */
  lemma ListStreetsPage(w: Ward, limit: int, offset: int)
    ensures var page := Page(NamedStreets(StreetAliases(w)), StreetOutKey, limit, offset);
      && SortedBy(page, ByKey(StreetOutKey))
      && |page| <= AtLeast(limit, 1)
      && forall y :: y in page ==>
           (y.name != "" && exists s :: s in StreetAliases(w) && s.upperName == Some(y.name) && y.places == s.places.AsList())
  {
    var all := NamedStreets(StreetAliases(w));
    PageFacts(all, StreetOutKey, limit, offset);
    var page := Page(all, StreetOutKey, limit, offset);
    forall y | y in page
      ensures exists s :: s in StreetAliases(w) && s.upperName == Some(y.name) && y.places == s.places.AsList()
    {
      var ss := StreetAliases(w);
      var k :| 0 <= k < |all| && all[k] == y;
      var pos := Positions(ss, StreetNamed);
      PositionsFacts(ss, StreetNamed);
      assert StreetNamed(ss[pos[k]]) && ss[pos[k]] in ss;
    }
  }

}
