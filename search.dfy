/** Cross-level search (app.py:339-400): substring match of the normalised query against
    the index keys of each requested level, with " / "-joined display paths; then the
    first hit of each (level, normalised path) is kept, the hits are sorted stably by
    (path length, normalised path), and the first `limit` are returned. */
module Search {
  import opened Text
  import opened Normalize
  import opened Sorting
  import opened OrderedDict
  import opened Document
  import opened Index

  /** `SearchHit(level, path, name)` */
  datatype Hit = Hit(level: string, path: string, name: string)

  /** An index entry as search sees it before the `qn in key` test: the key it is tested
      against and the hit it yields when the test passes. */
  datatype Candidate = Candidate(key: string, hit: Hit)

  /** `level in ("all", lvl)` */
  predicate Allows(level: string, lvl: string) {
    level == "all" || level == lvl
  }

  // ---- Display names. The source subscripts the other indexes directly
  // (`_region_index[r_norm]`); on consistent indexes those keys are present (see
  // `Index.Containment`), and a missing key would give "" here where the source raises. ----

  function RegionNameAt(idx: Idx, rk: string): string {
    if rk in idx.regions.m then RegionDisplay(idx.regions.m[rk]) else ""
  }

  function DistrictNameAt(idx: Idx, rk: string, dk: string): string {
    if rk in idx.districts.m && dk in idx.districts.m[rk].m then OrEmpty(idx.districts.m[rk].m[dk].upperName) else ""
  }

  function WardNameAt(idx: Idx, rk: string, dk: string, wk: string): string {
    if rk in idx.wards.m && dk in idx.wards.m[rk].m && wk in idx.wards.m[rk].m[dk].m
    then OrEmpty(idx.wards.m[rk].m[dk].m[wk].upperName) else ""
  }

  /** `d.get("NAME", "")`, `w.get("NAME", "")`, `s.get("NAME", "")` */
  function DistrictNameOf(d: District): string { OrEmpty(d.upperName) }
  function WardNameOf(w: Ward): string { OrEmpty(w.upperName) }
  function StreetNameOf(s: Street): string { OrEmpty(s.upperName) }

  // ---- The candidates of each level, in the order the nested loops visit them ----

  /** Region level: the path and the name are both `r.get("REGION", "")`. */
  function RegionCands(items: seq<(string, Region)>): seq<Candidate> {
    if items == [] then []
    else
      var (rk, reg) := items[|items| - 1];
      RegionCands(items[..|items| - 1]) + [Candidate(rk, Hit("region", RegionDisplay(reg), RegionDisplay(reg)))]
  }

  /** The innermost loop of each level: `prefix + " / " + name` for every entry. */
  function LeafCands<V>(level: string, prefix: string, items: seq<(string, V)>, name: V -> string)
    : seq<Candidate>
  {
    if items == [] then []
    else
      var (k, v) := items[|items| - 1];
      LeafCands(level, prefix, items[..|items| - 1], name) + [Candidate(k, Hit(level, prefix + " / " + name(v), name(v)))]
  }

  /** District level: the outer loop over `_district_index.items()`. */
  function DistrictCands(idx: Idx, items: seq<(string, Dict<District>)>): seq<Candidate> {
    if items == [] then []
    else
      var (rk, dd) := items[|items| - 1];
      DistrictCands(idx, items[..|items| - 1]) + LeafCands("district", RegionNameAt(idx, rk), Items(dd), DistrictNameOf)
  }

  /** Ward level: regions of `_ward_index`, then their districts, then their wards. */
  function WardCands(idx: Idx, items: seq<(string, Dict<Dict<Ward>>)>): seq<Candidate> {
    if items == [] then []
    else
      var (rk, wdd) := items[|items| - 1];
      WardCands(idx, items[..|items| - 1]) + WardCandsIn(idx, rk, RegionNameAt(idx, rk), Items(wdd))
  }

  function WardCandsIn(idx: Idx, rk: string, rName: string, items: seq<(string, Dict<Ward>)>): seq<Candidate> {
    if items == [] then []
    else
      var (dk, wd) := items[|items| - 1];
      WardCandsIn(idx, rk, rName, items[..|items| - 1]) +
        LeafCands("ward", rName + " / " + DistrictNameAt(idx, rk, dk), Items(wd), WardNameOf)
  }

  /** Street level: regions of `_street_index`, districts, wards, then streets. */
  function StreetCands(idx: Idx, items: seq<(string, Dict<Dict<Dict<Street>>>)>): seq<Candidate> {
    if items == [] then []
    else
      var (rk, sdd) := items[|items| - 1];
      StreetCands(idx, items[..|items| - 1]) + StreetCandsIn(idx, rk, RegionNameAt(idx, rk), Items(sdd))
  }

  function StreetCandsIn(idx: Idx, rk: string, rName: string, items: seq<(string, Dict<Dict<Street>>)>)
    : seq<Candidate>
  {
    if items == [] then []
    else
      var (dk, sd) := items[|items| - 1];
      StreetCandsIn(idx, rk, rName, items[..|items| - 1]) +
        StreetCandsAt(idx, rk, dk, rName + " / " + DistrictNameAt(idx, rk, dk), Items(sd))
  }

  function StreetCandsAt(idx: Idx, rk: string, dk: string, prefix: string, items: seq<(string, Dict<Street>)>)
    : seq<Candidate>
  {
    if items == [] then []
    else
      var (wk, ss) := items[|items| - 1];
      StreetCandsAt(idx, rk, dk, prefix, items[..|items| - 1]) +
        LeafCands("street", prefix + " / " + WardNameAt(idx, rk, dk, wk), Items(ss), StreetNameOf)
  }

  /** Every candidate of the levels that `level` asks for, in the order of the four blocks. */
  function Candidates(idx: Idx, level: string): seq<Candidate> {
    (if Allows(level, "region") then RegionCands(Items(idx.regions)) else []) +
    (if Allows(level, "district") then DistrictCands(idx, Items(idx.districts)) else []) +
    (if Allows(level, "ward") then WardCands(idx, Items(idx.wards)) else []) +
    (if Allows(level, "street") then StreetCands(idx, Items(idx.streets)) else [])
  }

  /** Every candidate in `cs` is at level `lvl`. */
  predicate AtLevel(cs: seq<Candidate>, lvl: string) {
    forall c :: c in cs ==> c.hit.level == lvl
  }

  lemma {:induction false} RegionCandsLevel(items: seq<(string, Region)>)
    ensures |RegionCands(items)| == |items|
    ensures AtLevel(RegionCands(items), "region")
  {
    if items != [] {
      RegionCandsLevel(items[..|items| - 1]);
    }
  }

  lemma {:induction false} LeafCandsLevel<V>(level: string, prefix: string, items: seq<(string, V)>, name: V -> string)
    ensures |LeafCands(level, prefix, items, name)| == |items|
    ensures AtLevel(LeafCands(level, prefix, items, name), level)
  {
    if items != [] {
      LeafCandsLevel(level, prefix, items[..|items| - 1], name);
    }
  }

  lemma {:induction false} DistrictCandsLevel(idx: Idx, items: seq<(string, Dict<District>)>)
    ensures AtLevel(DistrictCands(idx, items), "district")
  {
    if items != [] {
      var (rk, dd) := items[|items| - 1];
      DistrictCandsLevel(idx, items[..|items| - 1]);
      LeafCandsLevel("district", RegionNameAt(idx, rk), Items(dd), DistrictNameOf);
    }
  }

  lemma {:induction false} WardCandsLevel(idx: Idx, items: seq<(string, Dict<Dict<Ward>>)>)
    ensures AtLevel(WardCands(idx, items), "ward")
  {
    if items != [] {
      var (rk, wdd) := items[|items| - 1];
      WardCandsLevel(idx, items[..|items| - 1]);
      WardCandsInLevel(idx, rk, RegionNameAt(idx, rk), Items(wdd));
    }
  }

  lemma {:induction false} WardCandsInLevel(idx: Idx, rk: string, rName: string, items: seq<(string, Dict<Ward>)>)
    ensures AtLevel(WardCandsIn(idx, rk, rName, items), "ward")
  {
    if items != [] {
      var (dk, wd) := items[|items| - 1];
      WardCandsInLevel(idx, rk, rName, items[..|items| - 1]);
      LeafCandsLevel("ward", rName + " / " + DistrictNameAt(idx, rk, dk), Items(wd), WardNameOf);
    }
  }

  lemma {:induction false} StreetCandsLevel(idx: Idx, items: seq<(string, Dict<Dict<Dict<Street>>>)>)
    ensures AtLevel(StreetCands(idx, items), "street")
  {
    if items != [] {
      var (rk, sdd) := items[|items| - 1];
      StreetCandsLevel(idx, items[..|items| - 1]);
      StreetCandsInLevel(idx, rk, RegionNameAt(idx, rk), Items(sdd));
    }
  }

  lemma {:induction false} StreetCandsInLevel(idx: Idx, rk: string, rName: string, items: seq<(string, Dict<Dict<Street>>)>)
    ensures AtLevel(StreetCandsIn(idx, rk, rName, items), "street")
  {
    if items != [] {
      var (dk, sd) := items[|items| - 1];
      StreetCandsInLevel(idx, rk, rName, items[..|items| - 1]);
      StreetCandsAtLevel(idx, rk, dk, rName + " / " + DistrictNameAt(idx, rk, dk), Items(sd));
    }
  }

  lemma {:induction false} StreetCandsAtLevel(idx: Idx, rk: string, dk: string, prefix: string, items: seq<(string, Dict<Street>)>)
    ensures AtLevel(StreetCandsAt(idx, rk, dk, prefix, items), "street")
  {
    if items != [] {
      var (wk, ss) := items[|items| - 1];
      StreetCandsAtLevel(idx, rk, dk, prefix, items[..|items| - 1]);
      LeafCandsLevel("street", prefix + " / " + WardNameAt(idx, rk, dk, wk), Items(ss), StreetNameOf);
    }
  }

  /** Only the requested levels produce candidates. */
  lemma CandidatesAllowed(idx: Idx, level: string)
    ensures forall c :: c in Candidates(idx, level) ==> Allows(level, c.hit.level)
  {
    RegionCandsLevel(Items(idx.regions));
    DistrictCandsLevel(idx, Items(idx.districts));
    WardCandsLevel(idx, Items(idx.wards));
    StreetCandsLevel(idx, Items(idx.streets));
  }

  // ---- The `if qn in key` test ----

  /** The hits of the candidates whose key contains `qn`, in order. */
  function FilterHits(qn: string, cs: seq<Candidate>): seq<Hit> {
    if cs == [] then []
    else
      var c := cs[|cs| - 1];
      FilterHits(qn, cs[..|cs| - 1]) + if Contains(c.key, qn) then [c.hit] else []
  }

  /** A hit is produced exactly when some candidate yields it and its key contains `qn`. */
  lemma {:induction false} FilterHitsMembers(qn: string, cs: seq<Candidate>)
    ensures |FilterHits(qn, cs)| <= |cs|
    ensures forall h :: h in FilterHits(qn, cs) <==> exists c :: c in cs && Contains(c.key, qn) && c.hit == h
  {
    if cs != [] {
      var init, c := cs[..|cs| - 1], cs[|cs| - 1];
      FilterHitsMembers(qn, init);
      assert cs == init + [c];
      assert forall d :: d in cs <==> d in init || d == c;
    }
  }

  lemma {:induction false} FilterHitsAppend(qn: string, a: seq<Candidate>, b: seq<Candidate>)
    ensures FilterHits(qn, a + b) == FilterHits(qn, a) + FilterHits(qn, b)
  {
    if b == [] {
      assert a + b == a;
    } else {
      var ab := a + b;
      assert ab[..|ab| - 1] == a + b[..|b| - 1];
      assert ab[|ab| - 1] == b[|b| - 1];
      FilterHitsAppend(qn, a, b[..|b| - 1]);
    }
  }

  /** The `hits` list after the four blocks. */
  function RawHits(idx: Idx, qn: string, level: string): seq<Hit> {
    FilterHits(qn, Candidates(idx, level))
  }

  // ---- Deduplication on (level, norm(path)), first occurrence wins ----

  function HitKey(h: Hit): (string, string) {
    (h.level, Norm(h.path))
  }

  /** The `seen` / `uniq` loop, started with `seen` already holding some keys. */
  function DedupFrom(hs: seq<Hit>, seen: set<(string, string)>): seq<Hit> {
    if hs == [] then []
    else if HitKey(hs[0]) in seen then DedupFrom(hs[1..], seen)
    else [hs[0]] + DedupFrom(hs[1..], seen + {HitKey(hs[0])})
  }

  function Dedup(hs: seq<Hit>): seq<Hit> {
    DedupFrom(hs, {})
  }

  /** No two kept hits share a key, and no kept hit has a key that was already seen. */
  lemma {:induction false} DedupUnique(hs: seq<Hit>, seen: set<(string, string)>)
    ensures NoDupBy(DedupFrom(hs, seen), HitKey)
    ensures forall o :: o in DedupFrom(hs, seen) ==> HitKey(o) !in seen
  {
    if hs != [] {
      if HitKey(hs[0]) in seen {
        DedupUnique(hs[1..], seen);
      } else {
        DedupUnique(hs[1..], seen + {HitKey(hs[0])});
        var rest := DedupFrom(hs[1..], seen + {HitKey(hs[0])});
        assert forall k :: 0 <= k < |rest| ==> rest[k] in rest;
      }
    }
  }

  /** Every kept hit is the first hit in the input with its key. */
  lemma {:induction false} DedupFirst(hs: seq<Hit>, seen: set<(string, string)>)
    ensures forall o :: o in DedupFrom(hs, seen) ==>
              exists i :: 0 <= i < |hs| && hs[i] == o && forall k :: 0 <= k < i ==> HitKey(hs[k]) != HitKey(o)
  {
    if hs != [] {
      var seen' := if HitKey(hs[0]) in seen then seen else seen + {HitKey(hs[0])};
      DedupFirst(hs[1..], seen');
      DedupUnique(hs[1..], seen');
      forall o | o in DedupFrom(hs, seen)
        ensures exists i :: 0 <= i < |hs| && hs[i] == o && forall k :: 0 <= k < i ==> HitKey(hs[k]) != HitKey(o)
      {
        if HitKey(hs[0]) !in seen && o == hs[0] {
          assert hs[0] == o;
        } else {
          assert o in DedupFrom(hs[1..], seen');
          var i :| 0 <= i < |hs[1..]| && hs[1..][i] == o && forall k :: 0 <= k < i ==> HitKey(hs[1..][k]) != HitKey(o);
          assert HitKey(o) != HitKey(hs[0]);
          assert hs[i + 1] == o;
          assert forall k :: 1 <= k < i + 1 ==> hs[k] == hs[1..][k - 1];
        }
      }
    }
  }

  /** Every key of the input that was not already seen is kept. */
  lemma {:induction false} DedupCovers(hs: seq<Hit>, seen: set<(string, string)>)
    ensures forall h :: h in hs && HitKey(h) !in seen ==> exists o :: o in DedupFrom(hs, seen) && HitKey(o) == HitKey(h)
  {
    if hs != [] {
      var seen' := if HitKey(hs[0]) in seen then seen else seen + {HitKey(hs[0])};
      DedupCovers(hs[1..], seen');
      forall h | h in hs && HitKey(h) !in seen ensures exists o :: o in DedupFrom(hs, seen) && HitKey(o) == HitKey(h) {
        if HitKey(h) == HitKey(hs[0]) {
          assert hs[0] in DedupFrom(hs, seen);
        } else {
          assert h in hs[1..];
        }
      }
    }
  }

  /** Every kept hit comes from the input. */
  lemma {:induction false} DedupSub(hs: seq<Hit>, seen: set<(string, string)>)
    ensures forall o :: o in DedupFrom(hs, seen) ==> o in hs
  {
    if hs != [] {
      var seen' := if HitKey(hs[0]) in seen then seen else seen + {HitKey(hs[0])};
      DedupSub(hs[1..], seen');
    }
  }

  // ---- Ordering: `key=lambda x: (len(x.path), norm(x.path))` ----

  /** The tuple order on (length of the path, normalised path). */
  function HitLe(a: Hit, b: Hit): bool {
    |a.path| < |b.path| || (|a.path| == |b.path| && StrLe(Norm(a.path), Norm(b.path)))
  }

  lemma HitLePreorder()
    ensures TotalPreorder(HitLe)
  {
    forall a: Hit, b: Hit ensures HitLe(a, b) || HitLe(b, a) {
      StrLeTotal(Norm(a.path), Norm(b.path));
    }
    forall a: Hit, b: Hit, c: Hit | HitLe(a, b) && HitLe(b, c) ensures HitLe(a, c) {
      if |a.path| == |b.path| == |c.path| {
        StrLeTransitive(Norm(a.path), Norm(b.path), Norm(c.path));
      }
    }
  }

  /** `uniq[:limit]` */
  function Take(s: seq<Hit>, limit: nat): seq<Hit> {
    if limit < |s| then s[..limit] else s
  }

  /** The list `search(q, level, limit)` returns. */
  function Results(idx: Idx, q: string, level: string, limit: nat): seq<Hit> {
    Take(SortBy(Dedup(RawHits(idx, Norm(q), level)), HitLe), limit)
  }

  /** What a search result promises: at most `limit` hits, ordered by (path length,
      normalised path), no two with the same level and normalised path, every hit at a
      requested level and produced by an index entry whose key contains the normalised
      query. */
  lemma ResultsFacts(idx: Idx, q: string, level: string, limit: nat)
    ensures var r := Results(idx, q, level, limit);
      && |r| <= limit
      && SortedBy(r, HitLe)
      && NoDupBy(r, HitKey)
      && forall h :: h in r ==>
           Allows(level, h.level) &&
           exists c :: c in Candidates(idx, level) && Contains(c.key, Norm(q)) && c.hit == h
  {
    var raw := RawHits(idx, Norm(q), level);
    var uniq := Dedup(raw);
    var sorted := SortBy(uniq, HitLe);
    var r := Results(idx, q, level, limit);
    HitLePreorder();
    SortSorted(uniq, HitLe);
    SortPermutes(uniq, HitLe);
    DedupUnique(raw, {});
    DedupSub(raw, {});
    FilterHitsMembers(Norm(q), Candidates(idx, level));
    CandidatesAllowed(idx, level);
    SortNoDup(uniq, HitLe, HitKey);
    PrefixSorted(sorted, |r|, HitLe);
    assert r == sorted[..|r|];
    forall i, j | 0 <= i < j < |r| ensures HitKey(r[i]) != HitKey(r[j]) {
      assert r[i] == sorted[i] && r[j] == sorted[j];
    }
    forall h | h in r
      ensures Allows(level, h.level) && exists c :: c in Candidates(idx, level) && Contains(c.key, Norm(q)) && c.hit == h
    {
      assert h in sorted;
      assert h in multiset(uniq);
      assert h in raw;
    }
  }

  /** The cut keeps the best hits: the result is the first `min(limit, n)` of the `n`
      ordered unique hits, and every unique hit it leaves out ranks at or after every hit
      it keeps. */
  lemma ResultsCut(idx: Idx, q: string, level: string, limit: nat)
    ensures var uniq := Dedup(RawHits(idx, Norm(q), level));
      var sorted, r := SortBy(uniq, HitLe), Results(idx, q, level, limit);
      && |r| == (if limit < |uniq| then limit else |uniq|)
      && |r| <= |sorted| && r == sorted[..|r|]
      && forall h, x :: h in r && x in uniq && x !in r ==> HitLe(h, x)
  {
    var uniq := Dedup(RawHits(idx, Norm(q), level));
    var sorted, r := SortBy(uniq, HitLe), Results(idx, q, level, limit);
    HitLePreorder();
    SortSorted(uniq, HitLe);
    SortPermutes(uniq, HitLe);
    assert |multiset(sorted)| == |multiset(uniq)|;
    forall h, x | h in r && x in uniq && x !in r ensures HitLe(h, x) {
      var i :| 0 <= i < |r| && r[i] == h;
      assert x in multiset(sorted);
      var j :| 0 <= j < |sorted| && sorted[j] == x;
      assert sorted[i] == h;
    }
  }

  /** Nothing that matches is lost before the cut: when the result is not truncated,
      every matching entry of a requested level is represented by a hit with its level
      and normalised path. */
  lemma ResultsComplete(idx: Idx, q: string, level: string, limit: nat, c: Candidate)
    requires c in Candidates(idx, level) && Contains(c.key, Norm(q))
    requires limit >= |Dedup(RawHits(idx, Norm(q), level))|
    ensures exists h :: h in Results(idx, q, level, limit) && HitKey(h) == HitKey(c.hit)
  {
    var raw := RawHits(idx, Norm(q), level);
    var uniq := Dedup(raw);
    FilterHitsMembers(Norm(q), Candidates(idx, level));
    assert c.hit in raw;
    DedupCovers(raw, {});
    var o :| o in uniq && HitKey(o) == HitKey(c.hit);
    SortPermutes(uniq, HitLe);
    assert o in multiset(SortBy(uniq, HitLe));
    assert Results(idx, q, level, limit) == SortBy(uniq, HitLe);
  }

  // ---- One more item: how each level's hit list grows by one outer-loop pass ----

  lemma AppendAssoc(a: seq<Hit>, b: seq<Hit>, c: seq<Hit>)
    ensures (a + b) + c == a + (b + c)
  {
  }


  /** One candidate on its own passes the filter exactly when its key contains `qn`. */
  lemma FilterHitsOne(qn: string, c: Candidate)
    ensures FilterHits(qn, [c]) == if Contains(c.key, qn) then [c.hit] else []
  {
    assert [c][..0] == [];
  }

  lemma RegionCandsStep(qn: string, hits0: seq<Hit>, items: seq<(string, Region)>, i: int)
    requires 0 <= i < |items|
    ensures var rName := RegionDisplay(items[i].1);
      hits0 + FilterHits(qn, RegionCands(items[..i + 1])) ==
      (hits0 + FilterHits(qn, RegionCands(items[..i]))) + if Contains(items[i].0, qn) then [Hit("region", rName, rName)] else []
  {
    var rName := RegionDisplay(items[i].1);
    var c := Candidate(items[i].0, Hit("region", rName, rName));
    assert items[..i + 1][..i] == items[..i];
    FilterHitsAppend(qn, RegionCands(items[..i]), [c]);
    FilterHitsOne(qn, c);
    AppendAssoc(hits0, FilterHits(qn, RegionCands(items[..i])), FilterHits(qn, [c]));
  }

  lemma LeafCandsStep<V>(level: string, prefix: string, name: V -> string, qn: string, hits0: seq<Hit>,
                         items: seq<(string, V)>, i: int)
    requires 0 <= i < |items|
    ensures var nm := name(items[i].1);
      hits0 + FilterHits(qn, LeafCands(level, prefix, items[..i + 1], name)) ==
      (hits0 + FilterHits(qn, LeafCands(level, prefix, items[..i], name))) +
        if Contains(items[i].0, qn) then [Hit(level, prefix + " / " + nm, nm)] else []
  {
    var nm := name(items[i].1);
    var c := Candidate(items[i].0, Hit(level, prefix + " / " + nm, nm));
    assert items[..i + 1][..i] == items[..i];
    FilterHitsAppend(qn, LeafCands(level, prefix, items[..i], name), [c]);
    FilterHitsOne(qn, c);
    AppendAssoc(hits0, FilterHits(qn, LeafCands(level, prefix, items[..i], name)), FilterHits(qn, [c]));
  }


  lemma DistrictCandsStep(idx: Idx, qn: string, hits0: seq<Hit>, items: seq<(string, Dict<District>)>, i: int)
    requires 0 <= i < |items|
    ensures hits0 + FilterHits(qn, DistrictCands(idx, items[..i + 1])) ==
            (hits0 + FilterHits(qn, DistrictCands(idx, items[..i]))) + FilterHits(qn, LeafCands("district", RegionNameAt(idx, items[i].0), Items(items[i].1), DistrictNameOf))
  {
    assert items[..i + 1] == items[..i] + [items[i]];
    assert items[..i + 1][..i] == items[..i];
    FilterHitsAppend(qn, DistrictCands(idx, items[..i]), LeafCands("district", RegionNameAt(idx, items[i].0), Items(items[i].1), DistrictNameOf));
    AppendAssoc(hits0, FilterHits(qn, DistrictCands(idx, items[..i])), FilterHits(qn, LeafCands("district", RegionNameAt(idx, items[i].0), Items(items[i].1), DistrictNameOf)));
  }

  lemma WardCandsStep(idx: Idx, qn: string, hits0: seq<Hit>, items: seq<(string, Dict<Dict<Ward>>)>, i: int)
    requires 0 <= i < |items|
    ensures hits0 + FilterHits(qn, WardCands(idx, items[..i + 1])) ==
            (hits0 + FilterHits(qn, WardCands(idx, items[..i]))) + FilterHits(qn, WardCandsIn(idx, items[i].0, RegionNameAt(idx, items[i].0), Items(items[i].1)))
  {
    assert items[..i + 1] == items[..i] + [items[i]];
    assert items[..i + 1][..i] == items[..i];
    FilterHitsAppend(qn, WardCands(idx, items[..i]), WardCandsIn(idx, items[i].0, RegionNameAt(idx, items[i].0), Items(items[i].1)));
    AppendAssoc(hits0, FilterHits(qn, WardCands(idx, items[..i])), FilterHits(qn, WardCandsIn(idx, items[i].0, RegionNameAt(idx, items[i].0), Items(items[i].1))));
  }

  lemma WardCandsInStep(idx: Idx, rk: string, rName: string, qn: string, hits0: seq<Hit>, items: seq<(string, Dict<Ward>)>, i: int)
    requires 0 <= i < |items|
    ensures hits0 + FilterHits(qn, WardCandsIn(idx, rk, rName, items[..i + 1])) ==
            (hits0 + FilterHits(qn, WardCandsIn(idx, rk, rName, items[..i]))) + FilterHits(qn, LeafCands("ward", rName + " / " + DistrictNameAt(idx, rk, items[i].0), Items(items[i].1), WardNameOf))
  {
    assert items[..i + 1] == items[..i] + [items[i]];
    assert items[..i + 1][..i] == items[..i];
    FilterHitsAppend(qn, WardCandsIn(idx, rk, rName, items[..i]), LeafCands("ward", rName + " / " + DistrictNameAt(idx, rk, items[i].0), Items(items[i].1), WardNameOf));
    AppendAssoc(hits0, FilterHits(qn, WardCandsIn(idx, rk, rName, items[..i])), FilterHits(qn, LeafCands("ward", rName + " / " + DistrictNameAt(idx, rk, items[i].0), Items(items[i].1), WardNameOf)));
  }

  lemma StreetCandsStep(idx: Idx, qn: string, hits0: seq<Hit>, items: seq<(string, Dict<Dict<Dict<Street>>>)>, i: int)
    requires 0 <= i < |items|
    ensures hits0 + FilterHits(qn, StreetCands(idx, items[..i + 1])) ==
            (hits0 + FilterHits(qn, StreetCands(idx, items[..i]))) + FilterHits(qn, StreetCandsIn(idx, items[i].0, RegionNameAt(idx, items[i].0), Items(items[i].1)))
  {
    assert items[..i + 1] == items[..i] + [items[i]];
    assert items[..i + 1][..i] == items[..i];
    FilterHitsAppend(qn, StreetCands(idx, items[..i]), StreetCandsIn(idx, items[i].0, RegionNameAt(idx, items[i].0), Items(items[i].1)));
    AppendAssoc(hits0, FilterHits(qn, StreetCands(idx, items[..i])), FilterHits(qn, StreetCandsIn(idx, items[i].0, RegionNameAt(idx, items[i].0), Items(items[i].1))));
  }

  lemma StreetCandsInStep(idx: Idx, rk: string, rName: string, qn: string, hits0: seq<Hit>, items: seq<(string, Dict<Dict<Street>>)>, i: int)
    requires 0 <= i < |items|
    ensures hits0 + FilterHits(qn, StreetCandsIn(idx, rk, rName, items[..i + 1])) ==
            (hits0 + FilterHits(qn, StreetCandsIn(idx, rk, rName, items[..i]))) + FilterHits(qn, StreetCandsAt(idx, rk, items[i].0, rName + " / " + DistrictNameAt(idx, rk, items[i].0), Items(items[i].1)))
  {
    assert items[..i + 1] == items[..i] + [items[i]];
    assert items[..i + 1][..i] == items[..i];
    FilterHitsAppend(qn, StreetCandsIn(idx, rk, rName, items[..i]), StreetCandsAt(idx, rk, items[i].0, rName + " / " + DistrictNameAt(idx, rk, items[i].0), Items(items[i].1)));
    AppendAssoc(hits0, FilterHits(qn, StreetCandsIn(idx, rk, rName, items[..i])), FilterHits(qn, StreetCandsAt(idx, rk, items[i].0, rName + " / " + DistrictNameAt(idx, rk, items[i].0), Items(items[i].1))));
  }

  lemma StreetCandsAtStep(idx: Idx, rk: string, dk: string, prefix: string, qn: string, hits0: seq<Hit>, items: seq<(string, Dict<Street>)>, i: int)
    requires 0 <= i < |items|
    ensures hits0 + FilterHits(qn, StreetCandsAt(idx, rk, dk, prefix, items[..i + 1])) ==
            (hits0 + FilterHits(qn, StreetCandsAt(idx, rk, dk, prefix, items[..i]))) + FilterHits(qn, LeafCands("street", prefix + " / " + WardNameAt(idx, rk, dk, items[i].0), Items(items[i].1), StreetNameOf))
  {
    assert items[..i + 1] == items[..i] + [items[i]];
    assert items[..i + 1][..i] == items[..i];
    FilterHitsAppend(qn, StreetCandsAt(idx, rk, dk, prefix, items[..i]), LeafCands("street", prefix + " / " + WardNameAt(idx, rk, dk, items[i].0), Items(items[i].1), StreetNameOf));
    AppendAssoc(hits0, FilterHits(qn, StreetCandsAt(idx, rk, dk, prefix, items[..i])), FilterHits(qn, LeafCands("street", prefix + " / " + WardNameAt(idx, rk, dk, items[i].0), Items(items[i].1), StreetNameOf)));
  }

  // ---- search (app.py:339-400) ----

  /** The region block (app.py:348-352), appending to `hits`. */
  method RegionHits(items: seq<(string, Region)>, qn: string, hits0: seq<Hit>) returns (hits: seq<Hit>)
    ensures hits == hits0 + FilterHits(qn, RegionCands(items))
  {
    hits := hits0;
    var i := 0;
    while i < |items|
      invariant 0 <= i <= |items|
      invariant hits == hits0 + FilterHits(qn, RegionCands(items[..i]))
    {
      var rk, r := items[i].0, items[i].1;
      var rName := RegionDisplay(r);
      if Contains(rk, qn) {
        hits := hits + [Hit("region", rName, rName)];
      }
      RegionCandsStep(qn, hits0, items, i);
      i := i + 1;
    }
    assert items[..i] == items;
  }

  /** An innermost loop: one entry per item, tested on its key. */
  method LeafHits<V>(level: string, prefix: string, items: seq<(string, V)>, name: V -> string, qn: string,
                     hits0: seq<Hit>) returns (hits: seq<Hit>)
    ensures hits == hits0 + FilterHits(qn, LeafCands(level, prefix, items, name))
  {
    hits := hits0;
    var i := 0;
    while i < |items|
      invariant 0 <= i <= |items|
      invariant hits == hits0 + FilterHits(qn, LeafCands(level, prefix, items[..i], name))
    {
      var k, v := items[i].0, items[i].1;
      var nm := name(v);
      if Contains(k, qn) {
        hits := hits + [Hit(level, prefix + " / " + nm, nm)];
      }
      LeafCandsStep(level, prefix, name, qn, hits0, items, i);
      i := i + 1;
    }
    assert items[..i] == items;
  }

  /** The district block (app.py:354-360). */
  method DistrictHits(idx: Idx, items: seq<(string, Dict<District>)>, qn: string, hits0: seq<Hit>) returns (hits: seq<Hit>)
    ensures hits == hits0 + FilterHits(qn, DistrictCands(idx, items))
  {
    hits := hits0;
    var i := 0;
    while i < |items|
      invariant 0 <= i <= |items|
      invariant hits == hits0 + FilterHits(qn, DistrictCands(idx, items[..i]))
    {
      var rk, dd := items[i].0, items[i].1;
      var rName := RegionNameAt(idx, rk);
      hits := LeafHits("district", rName, Items(dd), DistrictNameOf, qn, hits);
      DistrictCandsStep(idx, qn, hits0, items, i);
      i := i + 1;
    }
    assert items[..i] == items;
  }

  /** The ward block (app.py:362-370). */
  method WardHits(idx: Idx, items: seq<(string, Dict<Dict<Ward>>)>, qn: string, hits0: seq<Hit>) returns (hits: seq<Hit>)
    ensures hits == hits0 + FilterHits(qn, WardCands(idx, items))
  {
    hits := hits0;
    var i := 0;
    while i < |items|
      invariant 0 <= i <= |items|
      invariant hits == hits0 + FilterHits(qn, WardCands(idx, items[..i]))
    {
      var rk, wdd := items[i].0, items[i].1;
      var rName := RegionNameAt(idx, rk);
      hits := WardHitsIn(idx, rk, rName, Items(wdd), qn, hits);
      WardCandsStep(idx, qn, hits0, items, i);
      i := i + 1;
    }
    assert items[..i] == items;
  }

  method WardHitsIn(idx: Idx, rk: string, rName: string, items: seq<(string, Dict<Ward>)>, qn: string,
                    hits0: seq<Hit>) returns (hits: seq<Hit>)
    ensures hits == hits0 + FilterHits(qn, WardCandsIn(idx, rk, rName, items))
  {
    hits := hits0;
    var i := 0;
    while i < |items|
      invariant 0 <= i <= |items|
      invariant hits == hits0 + FilterHits(qn, WardCandsIn(idx, rk, rName, items[..i]))
    {
      var dk, wd := items[i].0, items[i].1;
      var prefix := rName + " / " + DistrictNameAt(idx, rk, dk);
      hits := LeafHits("ward", prefix, Items(wd), WardNameOf, qn, hits);
      WardCandsInStep(idx, rk, rName, qn, hits0, items, i);
      i := i + 1;
    }
    assert items[..i] == items;
  }

  /** The street block (app.py:372-388). */
  method StreetHits(idx: Idx, items: seq<(string, Dict<Dict<Dict<Street>>>)>, qn: string, hits0: seq<Hit>) returns (hits: seq<Hit>)
    ensures hits == hits0 + FilterHits(qn, StreetCands(idx, items))
  {
    hits := hits0;
    var i := 0;
    while i < |items|
      invariant 0 <= i <= |items|
      invariant hits == hits0 + FilterHits(qn, StreetCands(idx, items[..i]))
    {
      var rk, sdd := items[i].0, items[i].1;
      var rName := RegionNameAt(idx, rk);
      hits := StreetHitsIn(idx, rk, rName, Items(sdd), qn, hits);
      StreetCandsStep(idx, qn, hits0, items, i);
      i := i + 1;
    }
    assert items[..i] == items;
  }

  method StreetHitsIn(idx: Idx, rk: string, rName: string, items: seq<(string, Dict<Dict<Street>>)>, qn: string,
                      hits0: seq<Hit>) returns (hits: seq<Hit>)
    ensures hits == hits0 + FilterHits(qn, StreetCandsIn(idx, rk, rName, items))
  {
    hits := hits0;
    var i := 0;
    while i < |items|
      invariant 0 <= i <= |items|
      invariant hits == hits0 + FilterHits(qn, StreetCandsIn(idx, rk, rName, items[..i]))
    {
      var dk, sd := items[i].0, items[i].1;
      var prefix := rName + " / " + DistrictNameAt(idx, rk, dk);
      hits := StreetHitsAt(idx, rk, dk, prefix, Items(sd), qn, hits);
      StreetCandsInStep(idx, rk, rName, qn, hits0, items, i);
      i := i + 1;
    }
    assert items[..i] == items;
  }

  method StreetHitsAt(idx: Idx, rk: string, dk: string, prefix: string, items: seq<(string, Dict<Street>)>,
                      qn: string, hits0: seq<Hit>) returns (hits: seq<Hit>)
    ensures hits == hits0 + FilterHits(qn, StreetCandsAt(idx, rk, dk, prefix, items))
  {
    hits := hits0;
    var i := 0;
    while i < |items|
      invariant 0 <= i <= |items|
      invariant hits == hits0 + FilterHits(qn, StreetCandsAt(idx, rk, dk, prefix, items[..i]))
    {
      var wk, ss := items[i].0, items[i].1;
      var wPrefix := prefix + " / " + WardNameAt(idx, rk, dk, wk);
      hits := LeafHits("street", wPrefix, Items(ss), StreetNameOf, qn, hits);
      StreetCandsAtStep(idx, rk, dk, prefix, qn, hits0, items, i);
      i := i + 1;
    }
    assert items[..i] == items;
  }

  /** The `seen` / `uniq` loop (app.py:390-397). */
  method DedupHits(hits: seq<Hit>) returns (uniq: seq<Hit>)
    ensures uniq == Dedup(hits)
  {
    var seen: set<(string, string)> := {};
    uniq := [];
    var i := 0;
    while i < |hits|
      invariant 0 <= i <= |hits|
      invariant uniq + DedupFrom(hits[i..], seen) == Dedup(hits)
    {
      var h := hits[i];
      var key := (h.level, Norm(h.path));
      assert hits[i..][1..] == hits[i + 1..];
      if key !in seen {
        seen := seen + {key};
        uniq := uniq + [h];
      }
      i := i + 1;
    }
  }

  /** The four blocks of `search`, each run when `level` asks for it (app.py:345-388). */
  method CollectHits(idx: Idx, qn: string, level: string) returns (hits: seq<Hit>)
    ensures hits == RawHits(idx, qn, level)
  {
    hits := [];
    ghost var regionPart := if Allows(level, "region") then RegionCands(Items(idx.regions)) else [];
    ghost var districtPart := if Allows(level, "district") then DistrictCands(idx, Items(idx.districts)) else [];
    ghost var wardPart := if Allows(level, "ward") then WardCands(idx, Items(idx.wards)) else [];
    ghost var streetPart := if Allows(level, "street") then StreetCands(idx, Items(idx.streets)) else [];
    if level == "all" || level == "region" {
      hits := RegionHits(Items(idx.regions), qn, hits);
    }
    assert hits == FilterHits(qn, regionPart);
    if level == "all" || level == "district" {
      hits := DistrictHits(idx, Items(idx.districts), qn, hits);
    }
    FilterHitsAppend(qn, regionPart, districtPart);
    assert hits == FilterHits(qn, regionPart + districtPart);
    if level == "all" || level == "ward" {
      hits := WardHits(idx, Items(idx.wards), qn, hits);
    }
    FilterHitsAppend(qn, regionPart + districtPart, wardPart);
    assert hits == FilterHits(qn, regionPart + districtPart + wardPart);
    if level == "all" || level == "street" {
      hits := StreetHits(idx, Items(idx.streets), qn, hits);
    }
    FilterHitsAppend(qn, regionPart + districtPart + wardPart, streetPart);
  }

  /** `search(q, level, limit)`. The query's length bound (`min_length=2`) and the
      limit's range (1 to 200) are enforced by the web framework before the call. */
  method Search(idx: Idx, q: string, level: string, limit: nat) returns (result: seq<Hit>)
    ensures result == Results(idx, q, level, limit)
  {
    var hits := CollectHits(idx, Norm(q), level);
    var uniq := DedupHits(hits);
    uniq := SortBy(uniq, HitLe);
    result := if limit < |uniq| then uniq[..limit] else uniq;
  }

}
