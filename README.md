# Tanzania geographic directory — a Dafny model

The service (`app.py`) loads a JSON document of Tanzania's administrative divisions:
regions, their districts, their wards, and their streets, each street with a list of
places. At startup it builds four nested lookup indexes keyed by normalised names. It
then answers six kinds of request:

- list the regions, the districts of a region, the wards of a district or the streets of
  a ward, sorted by name and paginated;
- search every level for a substring of the normalised name;
- download a CSV of places or of streets for the whole country, a region, a district or
  a ward;
- download the search results as a CSV.

This project models that core as Dafny modules, one per concern:

- `Text` (text.dfy): Python's `in` on strings, `str.replace(" ", "_")`, string order, `str(n)`
- `Normalize` (normalize.dfy): `norm`: `" ".join(s.strip().lower().split())`
- `OrderedDict` (ordered_dict.dfy): insertion-ordered Python dicts: assignment, `setdefault`, `.get(k, {})`, `.items()`
- `Sorting` (sorting.dfy): Python's stable `list.sort(key=...)`
- `Document` (document.dfy): the parsed JSON as records; name truthiness; `pick_list`
- `Index` (index.dfy): `build_indexes` as a pure fold, and the consistency of the four indexes
- `Store` (store.dfy): the module-level state as a class whose methods rebuild the indexes with loops
- `Lookup` (lookup.dfy): `require_*`, `optional_*` and the region → district → ward validation cascade
- `Listing` (listing.dfy): `paginate` and the four list endpoints
- `Search` (search.dfy): `/search`: collect, filter, dedupe, sort, truncate
- `Export` (export.dfy): `/download/places`, `/download/streets`, `/download/search`

Several source functions change state step by step, and those are modelled as such:

- `build_indexes` fills dicts in place, so `Store.Directory` is a class whose fields the
  loop methods reassign.
- The list, search and export endpoints append to Python lists in loops, so they are
  methods with loop invariants.

Each such method is proved equal to a specification function. The properties the service
promises are then proved about those functions.

Python dicts keep insertion order, and that order decides the order of search hits and
export rows. The model therefore represents a dict as a key sequence plus a map
(`OrderedDict.Dict`).

Where a description of the service and its code differ, the model follows the code:

- `build_indexes` reads child lists only under `"DISTRIC"`, `"WARD"` and `"STREETS"`. The
  alias keys (`"DISTRICT"`, `"DISTRICTS"`, `"WARDS"`, `"STREET"`, `"ROADS"`) are honoured
  only by the list endpoints, through `pick_list`. A record whose children sit under an
  alias is therefore listed but never indexed, searched or exported.
- `list_regions` reads only the `"REGION"` name, while the index builder falls back to
  `"name"`. The list endpoints test `"NAME"` alone for districts, wards and streets.

## Model

| member | source | states |
|---|---|---|
| Text.ContainsAt | app.py:351 | Python's `qn in key` holds exactly when `qn` occurs at some offset of `key` |
| Text.ContainsEmpty | app.py:265 | every string contains the empty string, so an empty query matches every name |
| Text.ReplaceSpaces | app.py:447 | `replace(" ", "_")` keeps the length and changes each space to `_` and nothing else |
| Text.StrLeTotal | app.py:399 | Python's string order compares any two strings |
| Text.StrLeTransitive | app.py:399 | Python's string order is transitive |
| Text.StrLeAntisymmetric | app.py:399 | two strings that are each `<=` the other are equal |
| Text.NatToString | app.py:520 | `str(n)` of a count is a non-empty string of decimal digits |
| Text.ParseNatToString | app.py:520 | `str(len(places))` reads back as the count: int(str(n)) == n |
| Normalize.Lower | app.py:83 | `lower()` keeps the length and lowers each character on its own |
| Normalize.WordLen | app.py:83 | a word that `split()` cuts off is a maximal run of non-whitespace |
| Normalize.NormIsNormal | app.py:82-83 | `norm` output has no upper case, no whitespace but single inner spaces, and no space at either end |
| Normalize.NormFixpoint | app.py:82-83 | `norm(t) == t` exactly when `t` already has that normal shape |
| Normalize.NormIdempotent | app.py:82-83 | `norm(norm(s)) == norm(s)`, so a key looked up again finds itself |
| Normalize.NormEmpty | app.py:109-111 | `norm(s)` is empty exactly when `s` is all whitespace: those records are skipped |
| Normalize.JoinWordsNormal | app.py:83 | splitting a normal string and joining with single spaces gives it back |
| OrderedDict.Empty | app.py:98-101 | a cleared dict is well formed and holds nothing |
| OrderedDict.PutWf | app.py:113 | `d[k] = v` keeps the dict well formed; the map is updated at `k`; an existing key keeps its position, a new key goes last |
| OrderedDict.SetDefaultWf | app.py:114-116 | `setdefault` inserts at the end only when the key is absent, and leaves the key present |
| OrderedDict.Listed | app.py:349 | a key is in the dict exactly when it is in the iteration order |
| OrderedDict.PutSame | app.py:113 | assigning a key its current value changes nothing |
| OrderedDict.ItemsOfWf | app.py:349 | `.items()` lists every key once, in insertion order, with its value |
| Sorting.SortSorted | app.py:269 | the sort's output is in ascending key order |
| Sorting.SortPermutes | app.py:269 | the sort's output is a permutation of its input |
| Sorting.SortStable | app.py:269 | entries with equal keys keep their input order |
| Sorting.SortNoDup | app.py:399 | hits whose keys are pairwise distinct stay pairwise distinct after sorting |
| Sorting.ByKeyPreorder | app.py:269 | ordering by a string key is a total preorder |
| Document.FirstName | app.py:108 | `a or b or ""`: the first truthy name, else the empty string |
| Document.PickList | app.py:272-281 | `pick_list` returns the first alias whose value is a list, and `[]` when none is |
| Index.RegisterRegionConsistent | app.py:113-116 | registering a region keeps the indexes consistent and indexes the region |
| Index.RegisterDistrictConsistent | app.py:128-130 | registering a district keeps the indexes consistent, leaves regions alone and indexes the district |
| Index.RegisterWardConsistent | app.py:142-143 | registering a ward keeps the indexes consistent, leaves regions and districts alone and indexes the ward |
| Index.RegisterStreetConsistent | app.py:155 | registering a street keeps the indexes consistent and touches only the street index |
| Index.KeyOfNorm | app.py:109-111 | a non-empty `norm` output is a valid key: non-empty and normal |
| Index.AddStreetsConsistent | app.py:145-155 | the street loop keeps the indexes consistent and changes no other index |
| Index.AddWardsConsistent | app.py:132-155 | the ward loop keeps the indexes consistent and leaves regions and districts alone |
| Index.AddDistrictsConsistent | app.py:118-155 | the district loop keeps the indexes consistent and leaves regions alone |
| Index.AddRegionsConsistent | app.py:107-155 | the region loop keeps the indexes consistent |
| Index.BuildConsistent | app.py:97-155 | `build_indexes` always produces consistent indexes: keys are normal and non-empty, every index has the same regions, and each deeper index has the keys of the one above it |
| Index.Containment | app.py:356-378 | on consistent indexes every key is non-empty and has its parent keys in the level above, so the direct `_region_index[r_norm]` and similar subscripts never fail |
| Index.PutAllKeys | app.py:109-113 | after `d[key(x)] = x` for each `x` with a non-empty key, `d` holds exactly its earlier keys plus the non-empty keys of the list |
| Index.PutAllLastWins | app.py:113 | when several entries share a key, the last one listed is the one stored under it |
| Index.PutAllAppend | app.py:107-155 | assigning the entries of `xs + ys` is assigning those of `xs`, then those of `ys` |
| Index.AddRegionsRegionFold | app.py:107-116 | the region index after the loop is the result of `d[key] = r` for every region with a non-empty key, in list order |
| Index.BuildRegions | app.py:103-113 | the built region index is that sequence of assignments over the listed regions: it holds exactly their non-empty normalised names, each mapped to the last region with that name |
| Index.AddRegionsDistricts | app.py:107-130 | the district index of key `rk` after the region loop is the earlier one plus `d[key] = d` over the "DISTRIC" lists of every region keyed `rk`, in order |
| Index.BuildDistricts | app.py:107-130 | the district index of a region key is `d[key] = d` over the "DISTRIC" lists of all regions with that key, concatenated in order, because `setdefault` keeps the districts a repeated region already has: exactly their non-empty keys, each mapped to the last district with it |
| Index.AddRegionsWards | app.py:107-143 | the ward index of keys `rk`, `dk` after the region loop is the earlier one plus `d[key] = w` over the "WARD" lists of every district keyed `dk` of every region keyed `rk`, in order |
| Index.BuildWards | app.py:107-143 | the ward index of a region and district key is `d[key] = w` over the "WARD" lists of all such districts, across repeated regions and districts: exactly their non-empty keys, each mapped to the last ward with it |
| Index.AddRegionsStreets | app.py:107-155 | the street index of keys `rk`, `dk`, `wk` after the region loop is the earlier one plus `d[key] = s` over the "STREETS" lists of every matching ward, in order |
| Index.BuildStreets | app.py:107-155 | the street index of a region, district and ward key is `d[key] = s` over the "STREETS" lists of all such wards, across repeated keys: exactly their non-empty keys, each mapped to the last street with it |
| Store.Directory.constructor | app.py:75-79 | at import time the document is empty and the indexes are empty and consistent |
| Store.Directory.BuildIndexes | app.py:97-155 | the indexes become `Build(doc)`, which is consistent; the result is false exactly when "regions" is not a list; `DATA` is untouched |
| Store.Directory.AddRegionStep | app.py:107-120 | one pass of the region loop updates the indexes as `AddRegion` |
| Store.Directory.AddDistrictLoop | app.py:118-134 | the district loop of one region turns the registered region into `AddRegion` |
| Store.Directory.AddDistrictStep | app.py:122-134 | one pass of the district loop updates the indexes as `AddDistrict` |
| Store.Directory.AddWardLoop | app.py:132-147 | the ward loop of one district turns the registered district into `AddDistrict` |
| Store.Directory.AddWardStep | app.py:136-147 | one pass of the ward loop updates the indexes as `AddWard` |
| Store.Directory.AddStreetLoop | app.py:145-155 | the street loop of one ward turns the registered ward into `AddWard` |
| Store.Directory.AddStreetStep | app.py:149-155 | one pass of the street loop updates the indexes as `AddStreet` |
| Store.Directory.LoadData | app.py:86-94 | `DATA` becomes the document and the indexes become `Build(doc)`; the result is false exactly when the build raises |
| Lookup.RequireRegion | app.py:165-170 | found exactly when `norm(region)` is indexed, returning that key and record; otherwise a region 404 carrying the caller's text |
| Lookup.RequireDistrict | app.py:173-178 | found exactly when `norm(district)` is indexed under the region, returning key and record; otherwise a district 404 |
| Lookup.RequireWard | app.py:181-186 | found exactly when `norm(ward)` is indexed under the region and district, returning key and record; otherwise a ward 404 |
| Lookup.RequireInsensitive | app.py:165-186 | two spellings with the same `norm` give the same lookup outcome at every level |
| Lookup.RequireKeyRoundTrip | app.py:165-186 | looking up the key a lookup returned finds the same entry again |
| Lookup.RequireFindsIndexed | app.py:165-186 | on consistent indexes every indexed key is found by its own lookup |
| Lookup.OptionalRegion | app.py:213-219 | an absent or empty region gives no key; otherwise the key when indexed, and a region 404 when not |
| Lookup.OptionalDistrict | app.py:222-228 | an absent or empty district gives no key; otherwise the key when indexed under the region, and a district 404 when not |
| Lookup.OptionalWard | app.py:231-237 | an absent or empty ward gives no key; otherwise the key when indexed under the district, and a ward 404 when not |
| Lookup.ResolveCases | app.py:425-463 | the export filters resolve region first: no region means everything; each given, unknown filter is the first error; an absent district or ward stops the descent |
| Lookup.RegionAtEveryLevel | app.py:438-445 | an indexed region is present in all four indexes |
| Lookup.DistrictAtEveryLevel | app.py:452-457 | an indexed district is present in the ward and street indexes |
| Lookup.WardAtEveryLevel | app.py:464-466 | an indexed ward is present in the street index |
| Lookup.ResolveFound | app.py:436-463 | every key a successful resolution yields is indexed at its level |
| Lookup.ResolveInIndex | app.py:436-463 | on consistent indexes a resolved scope names an existing subtree |
| Listing.Paginate | app.py:189-194 | a page is the slice of `max(1, limit)` entries starting at `max(0, offset)`, cut at the end of the list |
| Listing.PaginateTiles | app.py:189-194 | two consecutive pages make up the double-size page: paging neither skips nor repeats |
| Listing.PaginateWhole | app.py:189-194 | a first page at least as long as the list is the whole list |
| Listing.PositionsFacts | app.py:263-267 | the positions kept by a filter are in range, satisfy the filter, strictly increase, and include every position that satisfies it |
| Listing.PageSlice | app.py:189-194 | a page has `min(max(1, limit), len - max(0, offset))` entries (none past the end), and its `i`-th entry is the sorted list's entry `max(0, offset) + i` |
| Listing.PageFacts | app.py:269-270 | the sorted list is ordered, a permutation and stable; the page is ordered, at most `max(1, limit)` long and drawn from the input |
| Listing.MatchingRegions | app.py:263-267 | an entry is collected exactly when it comes from a region whose "REGION" name contains the query; with no query every region is kept, one entry each, in order |
| Listing.MatchingRegionsOrder | app.py:263-267 | the collected entries are the matching regions, one per matching region, in input order: the `k`-th entry comes from the `k`-th matching position |
| Listing.CollectRegions | app.py:263-267 | the region loop appends exactly `MatchingRegions` |
| Listing.ListRegions | app.py:252-270 | the loop returns one sorted page of the matching regions |
| Listing.ListRegionsPage | app.py:252-270 | the regions page is sorted by normalised name, at most `max(1, limit)` long, and every entry is a listed region whose name contains the query |
| Listing.NamedDistricts | app.py:292 | one entry per district with a truthy "NAME", in input order, each as its name: the `k`-th entry is the `k`-th named district |
| Listing.ListDistricts | app.py:284-294 | a region 404 exactly when the region is unknown; otherwise exactly the slice `sorted[o:o + max(1, limit)]` of the named districts sorted by name, with `o = max(0, offset)` |
| Listing.ListDistrictsPage | app.py:284-294 | the districts page is sorted, at most `max(1, limit)` long, and each entry names a district of the region's first list-valued alias |
| Listing.NamedWards | app.py:307 | one entry per ward with a truthy "NAME", in input order, each as its name: the `k`-th entry is the `k`-th named ward |
| Listing.ListWards | app.py:297-309 | fails exactly as the region then district lookup fails; otherwise exactly the slice `sorted[o:o + max(1, limit)]` of the named wards sorted by name, with `o = max(0, offset)` |
| Listing.ListWardsPage | app.py:297-309 | the wards page is sorted, at most `max(1, limit)` long, and each entry names a ward of the district's first list-valued alias |
| Listing.FindWardOrder | app.py:320-322 | the street listing validates region, then district, then ward, and reports the first failure |
| Listing.NamedStreets | app.py:326-333 | one entry per street with a truthy "NAME", in input order: the `k`-th entry is the `k`-th named street with its places, or `[]` when "PLACES" is not a list |
| Listing.ListStreets | app.py:312-336 | fails exactly as the ward lookup fails; otherwise the loop returns one sorted page of the named streets |
| Listing.ListStreetsPage | app.py:324-336 | the streets page is sorted, at most `max(1, limit)` long, and each entry is a named street of the ward with its places |
| Search.RegionCandsLevel | app.py:348-352 | the region block yields one candidate per indexed region, all at level "region" |
| Search.LeafCandsLevel | app.py:357-360 | an innermost loop yields one candidate per entry, all at its level |
| Search.CandidatesAllowed | app.py:348-388 | every candidate comes from a block that `level` switches on |
| Search.FilterHitsMembers | app.py:351 | the kept hits are exactly those of candidates whose key contains the query, and never more than the candidates |
| Search.FilterHitsAppend | app.py:345-388 | filtering the four blocks one after the other is filtering their concatenation |
| Search.DedupUnique | app.py:390-397 | after the `seen` loop no two hits share (level, normalised path) |
| Search.DedupFirst | app.py:390-397 | every kept hit is the first hit in the list with its (level, normalised path) |
| Search.DedupCovers | app.py:390-397 | every (level, normalised path) among the hits survives the `seen` loop |
| Search.DedupSub | app.py:390-397 | the `seen` loop keeps only hits it was given |
| Search.HitLePreorder | app.py:399 | ordering by (path length, normalised path) is a total preorder |
| Search.ResultsFacts | app.py:339-400 | at most `limit` hits, sorted by (path length, normalised path), no duplicate (level, normalised path), each at a requested level and from an index entry whose key contains `norm(q)` |
| Search.ResultsCut | app.py:399-400 | exactly `min(limit, n)` of the `n` distinct hits are returned, they are the first ones in sorted order, and every hit left out ranks no lower than every hit returned |
| Search.ResultsComplete | app.py:339-400 | when `limit` is at least the number of distinct hits, every matching index entry is represented in the results |
| Search.RegionHits | app.py:348-352 | the region loop appends exactly the filtered region candidates |
| Search.LeafHits | app.py:357-360 | an innermost loop appends exactly its filtered candidates |
| Search.DistrictHits | app.py:354-360 | the district loops append exactly the filtered district candidates |
| Search.WardHits | app.py:362-370 | the ward loops append exactly the filtered ward candidates |
| Search.WardHitsIn | app.py:365-370 | the ward loops of one region append exactly its filtered ward candidates |
| Search.StreetHits | app.py:372-388 | the street loops append exactly the filtered street candidates |
| Search.StreetHitsIn | app.py:375-388 | the street loops of one region append exactly its filtered street candidates |
| Search.StreetHitsAt | app.py:377-388 | the street loops of one district append exactly its filtered street candidates |
| Search.DedupHits | app.py:390-397 | the `seen` loop computes `Dedup` |
| Search.CollectHits | app.py:345-388 | the four blocks build exactly the filtered candidates of the requested levels, in visiting order |
| Search.Search | app.py:339-400 | the endpoint returns `Results`, so every property of `ResultsFacts` and `ResultsComplete` holds of it |
| Export.PlaceRowsFacts | app.py:421-422 | one row per place: the street's four names followed by the place |
| Export.StreetRowsFacts | app.py:413-422 | a street without places gives one row ending in ""; otherwise one row per place; the streets export gives one five-column row whose count reads back as the number of places |
| Export.StreetsRowsFacts | app.py:515-520 | the streets export writes exactly one row per street of a ward, in index order |
| Export.StreetsRowsAgree | app.py:515-520 | for one ward, both exports write five-column rows, and the streets export writes no more rows than the places export |
| Export.WardsRowsAgree | app.py:513-520 | the same holds for the wards of a district |
| Export.DistrictsRowsAgree | app.py:511-520 | the same holds for the districts of a region |
| Export.RegionsRowsAgree | app.py:509-520 | the same holds for every region |
| Export.ScopeRowsAgree | app.py:425-467 | the same holds for any resolved scope |
| Export.NoSpaceAppend | app.py:469 | joining two space-free strings gives a space-free string |
| Export.FileStemNoSpace | app.py:447-469 | the filename stem has no spaces |
| Export.FileNameFacts | app.py:434-470 | a download filename has no spaces and ends in `_places.csv` or `_streets.csv` |
| Export.ExportFacts | app.py:402-581 | both exports fail exactly when and as the filter cascade fails; on success each starts with its header, every row has five columns, the streets CSV has no more rows than the places CSV, and the filename has no spaces |
| Export.WardStreetsExport | app.py:565-581 | a ward's streets export is the header plus one row per street: the region, district, ward and street names and `str(len(places))` |
| Export.StreetsRowsLen | app.py:413-422 | a ward writes one row per street in the streets export, and `max(1, len(places))` rows per street in the places export |
| Export.WardsRowsLen | app.py:513-520 | the wards of a district write, over all their indexed streets, the sum of each street's row count (one, or `max(1, len(places))`) |
| Export.DistrictsRowsLen | app.py:511-520 | the districts of a region write the same sum over all their indexed streets |
| Export.RegionsRowsLen | app.py:509-520 | all the regions write the same sum over every indexed street |
| Export.ExportRowCount | app.py:402-581 | a successful export has one header row plus, for the streets CSV, one row per indexed street of the scope, and for the places CSV, `max(1, len(places))` rows per such street |
| Export.AddStreet | app.py:413-422 | appending one street adds exactly its rows |
| Export.StreetsLoop | app.py:466-467 | the street loop appends exactly the rows of those streets, in order |
| Export.WardsLoop | app.py:455-458 | the ward loop appends exactly the rows of those wards, in order |
| Export.DistrictsLoop | app.py:441-446 | the district loop appends exactly the rows of those districts, in order |
| Export.RegionsLoop | app.py:426-433 | the region loop appends exactly the rows of every region, in order |
| Export.ScopeLoop | app.py:425-467 | the rows of a resolved scope are the header followed by that scope's rows |
| Export.Download | app.py:402-581 | both download endpoints return exactly `Export`: the 404 of the cascade, or the CSV and filename that `ExportFacts` describes |
| Export.SearchRowsFacts | app.py:483-484 | one `[level, name, path]` row per hit, in order |
| Export.SearchFileNameNoSpace | app.py:486 | the search download's filename has no spaces |
| Export.SearchCsvFacts | app.py:482-486 | the search CSV is the `["level", "name", "path"]` header then one row per hit |
| Export.DownloadSearch | app.py:472-487 | the search download writes exactly the CSV of `Search.Results` for the same query |

## Left out

- HTTP plumbing is not modelled: FastAPI routing, response models, `StreamingResponse`, `/health`, `/` and `/debug-paths`.
- Query-parameter validation is not modelled: `min_length=2`, and the `ge` and `le` bounds on `limit` and `offset`. Each operation takes the values it is given.
- `load_data`'s file access and `json.load` are not modelled. The document arrives already parsed, and a missing file is out of scope.
- CSV quoting and streaming in `csv_stream` are not modelled: a CSV is its list of rows plus its filename.
- JSON values are not modelled fully. A name is absent or a string, and a child collection is absent, a list or "something else". Non-string names and records that are not objects, which would make the source raise, are left out.
- Non-ASCII text is not modelled: `lower()` and whitespace cover ASCII only.
- Places are strings, and `str(p)` is the identity on them. Places of other JSON types are left out.
- `_startup`, the `on_event` hook, is not modelled: `Store.Directory.LoadData` is what it runs.
- Listing.ListRegions: requires "regions" to be a list. Otherwise `build_indexes` raises at startup and the endpoint can never be called.
- Search.RegionNameAt, DistrictNameAt and WardNameAt give "" where the source's direct subscript would raise `KeyError`. That happens only on inconsistent indexes, which `Index.BuildConsistent` rules out.
- Lookup.RequireRegion, RequireDistrict and RequireWard model `if not r` as a missing key. An indexed record always has a non-empty name, so it is never the falsy empty dict.
- Export.DownloadSearch: passes its `limit` straight to search. The source does the same, so its limit of up to 2000 bypasses the search endpoint's bound of 200.
- Concurrency between requests and the mutation of `DATA` after startup are not modelled.
