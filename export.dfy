/** The CSV downloads (app.py:402-581). The two subtree exports walk the indexes from
    the chosen scope downwards, reaching each level through `.get(key, {})` on the
    next index, and append one row per place or one row per street after a header;
    the search export writes one row per search hit. */
module Export {
  import opened Wrappers
  import opened Text
  import opened Normalize
  import opened OrderedDict
  import opened Document
  import opened Index
  import opened Lookup
  import opened Search

  /** `/download/places` or `/download/streets`. */
  datatype Kind = PlacesExport | StreetsExport

  type Row = seq<string>

  /** What `csv_stream(rows, filename)` is given. */
  datatype Csv = Csv(rows: seq<Row>, filename: string)

  function Header(kind: Kind): Row {
    match kind
    case PlacesExport => ["region", "district", "ward", "street", "place"]
    case StreetsExport => ["region", "district", "ward", "street", "places_count"]
  }

  /** The part of the file name after the scope. */
  function Suffix(kind: Kind): string {
    match kind
    case PlacesExport => "places.csv"
    case StreetsExport => "streets.csv"
  }

  // ---- The rows of one street ----

  /** `for p in places: rows.append([..., str(p)])` */
  function PlaceRows(prefix: Row, ps: seq<string>): seq<Row> {
    if ps == [] then [] else PlaceRows(prefix, ps[..|ps| - 1]) + [prefix + [ps[|ps| - 1]]]
  }

  /** `add_places` for the places export, the single row of the streets export.
      "PLACES" that is missing or not a list counts as an empty list. */
  function StreetRows(kind: Kind, rName: string, dName: string, wName: string, s: Street): seq<Row> {
    var prefix := [rName, dName, wName, StreetNameOf(s)];
    var ps := s.places.AsList();
    match kind
    case PlacesExport => if ps == [] then [prefix + [""]] else PlaceRows(prefix, ps)
    case StreetsExport => [prefix + [NatToString(|ps|)]]
  }

  // ---- The subtrees, reached through `.get(key, {})` ----

  /** The innermost loop: every street of one ward. */
  function StreetsRows(kind: Kind, rName: string, dName: string, wName: string, items: seq<(string, Street)>)
    : seq<Row>
  {
    if items == [] then []
    else StreetsRows(kind, rName, dName, wName, items[..|items| - 1]) + StreetRows(kind, rName, dName, wName, items[|items| - 1].1)
  }

  /** One ward: its streets, taken from the street index. */
  function WardRows(kind: Kind, idx: Idx, rk: string, dk: string, wk: string, rName: string, dName: string, wName: string)
    : seq<Row>
  {
    StreetsRows(kind, rName, dName, wName, Items(StreetsAt(idx, rk, dk, wk)))
  }

  function WardsRows(kind: Kind, idx: Idx, rk: string, dk: string, rName: string, dName: string,
                     items: seq<(string, Ward)>): seq<Row>
  {
    if items == [] then []
    else
      var wk, w := items[|items| - 1].0, items[|items| - 1].1;
      WardsRows(kind, idx, rk, dk, rName, dName, items[..|items| - 1]) + WardRows(kind, idx, rk, dk, wk, rName, dName, WardNameOf(w))
  }

  /** One district: its wards, taken from the ward index. */
  function DistrictRows(kind: Kind, idx: Idx, rk: string, dk: string, rName: string, dName: string): seq<Row> {
    WardsRows(kind, idx, rk, dk, rName, dName, Items(WardsAt(idx, rk, dk)))
  }

  function DistrictsRows(kind: Kind, idx: Idx, rk: string, rName: string, items: seq<(string, District)>): seq<Row> {
    if items == [] then []
    else
      var dk, d := items[|items| - 1].0, items[|items| - 1].1;
      DistrictsRows(kind, idx, rk, rName, items[..|items| - 1]) + DistrictRows(kind, idx, rk, dk, rName, DistrictNameOf(d))
  }

  /** One region: its districts, taken from the district index. */
  function RegionRows(kind: Kind, idx: Idx, rk: string, rName: string): seq<Row> {
    DistrictsRows(kind, idx, rk, rName, Items(DistrictsAt(idx, rk)))
  }

  /** Everything: the regions of the region index, in order. */
  function RegionsRows(kind: Kind, idx: Idx, items: seq<(string, Region)>): seq<Row> {
    if items == [] then []
    else
      var rk, r := items[|items| - 1].0, items[|items| - 1].1;
      RegionsRows(kind, idx, items[..|items| - 1]) + RegionRows(kind, idx, rk, RegionDisplay(r))
  }

  /** The data rows of a resolved scope. The names of the scope's own region, district
      and ward are read from the region, district and ward indexes. */
  function ScopeRows(kind: Kind, idx: Idx, scope: Scope): seq<Row> {
    match scope
    case Everywhere => RegionsRows(kind, idx, Items(idx.regions))
    case InRegion(rk) => RegionRows(kind, idx, rk, RegionNameAt(idx, rk))
    case InDistrict(rk, dk) => DistrictRows(kind, idx, rk, dk, RegionNameAt(idx, rk), DistrictNameAt(idx, rk, dk))
    case InWard(rk, dk, wk) =>
      WardRows(kind, idx, rk, dk, wk, RegionNameAt(idx, rk), DistrictNameAt(idx, rk, dk), WardNameAt(idx, rk, dk, wk))
  }

  /** The download's file name: "tanzania_..." for everything, otherwise the normalised
      filters given, joined with "_", with spaces turned into "_". */
  function FileName(kind: Kind, region: Option<string>, district: Option<string>, ward: Option<string>, scope: Scope)
    : string
  {
    FileStem(region, district, ward, scope) + ("_" + Suffix(kind))
  }

  /** The text a file name starts with, before "_places.csv" or "_streets.csv". */
  function FileStem(region: Option<string>, district: Option<string>, ward: Option<string>, scope: Scope): string {
    match scope
    case Everywhere => "tanzania"
    case InRegion(_) => ReplaceSpaces(Norm(OrEmpty(region)))
    case InDistrict(_, _) => ReplaceSpaces(Norm(OrEmpty(region)) + "_" + Norm(OrEmpty(district)))
    case InWard(_, _, _) => ReplaceSpaces(Norm(OrEmpty(region)) + "_" + Norm(OrEmpty(district)) + "_" + Norm(OrEmpty(ward)))
  }

  /** The response of `/download/places` or `/download/streets`: the 404 of the first
      unknown filter, or the header, the rows of the scope and the file name. */
  function Export(kind: Kind, idx: Idx, region: Option<string>, district: Option<string>, ward: Option<string>)
    : Result<Csv, NotFound>
  {
    match Resolve(idx, region, district, ward)
    case Err(e) => Err(e)
    case Ok(scope) => Ok(Csv([Header(kind)] + ScopeRows(kind, idx, scope), FileName(kind, region, district, ward, scope)))
  }

  // ---- What the rows say ----

  /** Every row has the header's five cells. */
  predicate Wide(rows: seq<Row>) {
    forall row :: row in rows ==> |row| == 5
  }

  lemma {:induction false} PlaceRowsFacts(prefix: Row, ps: seq<string>)
    ensures |PlaceRows(prefix, ps)| == |ps|
    ensures forall i :: 0 <= i < |ps| ==> PlaceRows(prefix, ps)[i] == prefix + [ps[i]]
  {
    if ps != [] {
      PlaceRowsFacts(prefix, ps[..|ps| - 1]);
    }
  }

  /** A street gives one places row per place (one with an empty place when it has
      none) and exactly one streets row, whose last cell reads back as its place count. */
  lemma StreetRowsFacts(rName: string, dName: string, wName: string, s: Street)
    ensures var ps, prefix := s.places.AsList(), [rName, dName, wName, StreetNameOf(s)];
      var places, streets := StreetRows(PlacesExport, rName, dName, wName, s), StreetRows(StreetsExport, rName, dName, wName, s);
      && (ps == [] ==> places == [prefix + [""]])
      && (ps != [] ==> |places| == |ps| && forall i :: 0 <= i < |ps| ==> places[i] == prefix + [ps[i]])
      && |streets| == 1 && streets[0][..4] == prefix
      && |streets[0]| == 5 && (forall i :: 0 <= i < |streets[0][4]| ==> IsDigit(streets[0][4][i]))
      && ParseNat(streets[0][4]) == |ps|
      && Wide(places) && Wide(streets)
      && |streets| <= |places|
  {
    var ps, prefix := s.places.AsList(), [rName, dName, wName, StreetNameOf(s)];
    PlaceRowsFacts(prefix, ps);
    ParseNatToString(|ps|);
    var streets := StreetRows(StreetsExport, rName, dName, wName, s);
    assert streets[0][..4] == prefix;
  }

  /** The streets export of one ward has one row per street, in index order. */
  lemma {:induction false} StreetsRowsFacts(rName: string, dName: string, wName: string, items: seq<(string, Street)>)
    ensures var streets := StreetsRows(StreetsExport, rName, dName, wName, items);
      && |streets| == |items|
      && forall i :: 0 <= i < |items| ==>
           streets[i] == [rName, dName, wName, StreetNameOf(items[i].1), NatToString(|items[i].1.places.AsList()|)]
  {
    if items != [] {
      var init := items[..|items| - 1];
      StreetsRowsFacts(rName, dName, wName, init);
      assert forall i :: 0 <= i < |init| ==> init[i] == items[i];
    }
  }

  /** Both exports of a subtree agree on shape: five cells per row, and no fewer places
      rows than streets rows. */
  predicate Agree(places: seq<Row>, streets: seq<Row>) {
    Wide(places) && Wide(streets) && |streets| <= |places|
  }

  lemma {:induction false} StreetsRowsAgree(rName: string, dName: string, wName: string, items: seq<(string, Street)>)
    ensures Agree(StreetsRows(PlacesExport, rName, dName, wName, items), StreetsRows(StreetsExport, rName, dName, wName, items))
  {
    if items != [] {
      StreetsRowsAgree(rName, dName, wName, items[..|items| - 1]);
      StreetRowsFacts(rName, dName, wName, items[|items| - 1].1);
    }
  }

  lemma WardRowsAgree(idx: Idx, rk: string, dk: string, wk: string, rName: string, dName: string, wName: string)
    ensures Agree(WardRows(PlacesExport, idx, rk, dk, wk, rName, dName, wName), WardRows(StreetsExport, idx, rk, dk, wk, rName, dName, wName))
  {
    StreetsRowsAgree(rName, dName, wName, Items(StreetsAt(idx, rk, dk, wk)));
  }

  lemma {:induction false} WardsRowsAgree(idx: Idx, rk: string, dk: string, rName: string, dName: string, items: seq<(string, Ward)>)
    ensures Agree(WardsRows(PlacesExport, idx, rk, dk, rName, dName, items), WardsRows(StreetsExport, idx, rk, dk, rName, dName, items))
  {
    if items != [] {
      var wk, w := items[|items| - 1].0, items[|items| - 1].1;
      WardsRowsAgree(idx, rk, dk, rName, dName, items[..|items| - 1]);
      WardRowsAgree(idx, rk, dk, wk, rName, dName, WardNameOf(w));
    }
  }

  lemma DistrictRowsAgree(idx: Idx, rk: string, dk: string, rName: string, dName: string)
    ensures Agree(DistrictRows(PlacesExport, idx, rk, dk, rName, dName), DistrictRows(StreetsExport, idx, rk, dk, rName, dName))
  {
    WardsRowsAgree(idx, rk, dk, rName, dName, Items(WardsAt(idx, rk, dk)));
  }

  lemma {:induction false} DistrictsRowsAgree(idx: Idx, rk: string, rName: string, items: seq<(string, District)>)
    ensures Agree(DistrictsRows(PlacesExport, idx, rk, rName, items), DistrictsRows(StreetsExport, idx, rk, rName, items))
  {
    if items != [] {
      var dk, d := items[|items| - 1].0, items[|items| - 1].1;
      DistrictsRowsAgree(idx, rk, rName, items[..|items| - 1]);
      DistrictRowsAgree(idx, rk, dk, rName, DistrictNameOf(d));
    }
  }

  lemma RegionRowsAgree(idx: Idx, rk: string, rName: string)
    ensures Agree(RegionRows(PlacesExport, idx, rk, rName), RegionRows(StreetsExport, idx, rk, rName))
  {
    DistrictsRowsAgree(idx, rk, rName, Items(DistrictsAt(idx, rk)));
  }

  lemma {:induction false} RegionsRowsAgree(idx: Idx, items: seq<(string, Region)>)
    ensures Agree(RegionsRows(PlacesExport, idx, items), RegionsRows(StreetsExport, idx, items))
  {
    if items != [] {
      var rk, r := items[|items| - 1].0, items[|items| - 1].1;
      RegionsRowsAgree(idx, items[..|items| - 1]);
      RegionRowsAgree(idx, rk, RegionDisplay(r));
    }
  }

  lemma ScopeRowsAgree(idx: Idx, scope: Scope)
    ensures Agree(ScopeRows(PlacesExport, idx, scope), ScopeRows(StreetsExport, idx, scope))
  {
    match scope
    case Everywhere => RegionsRowsAgree(idx, Items(idx.regions));
    case InRegion(rk) => RegionRowsAgree(idx, rk, RegionNameAt(idx, rk));
    case InDistrict(rk, dk) => DistrictRowsAgree(idx, rk, dk, RegionNameAt(idx, rk), DistrictNameAt(idx, rk, dk));
    case InWard(rk, dk, wk) =>
      WardRowsAgree(idx, rk, dk, wk, RegionNameAt(idx, rk), DistrictNameAt(idx, rk, dk), WardNameAt(idx, rk, dk, wk));
  }

  predicate NoSpace(s: string) {
    forall i :: 0 <= i < |s| ==> s[i] != ' '
  }

  lemma NoSpaceAppend(a: string, b: string)
    requires NoSpace(a) && NoSpace(b)
    ensures NoSpace(a + b)
  {
    assert forall i :: 0 <= i < |a + b| ==> (a + b)[i] == if i < |a| then a[i] else b[i - |a|];
  }

  lemma ReplaceSpacesNoSpace(s: string)
    ensures NoSpace(ReplaceSpaces(s))
  {
  }

  lemma FileStemNoSpace(region: Option<string>, district: Option<string>, ward: Option<string>, scope: Scope)
    ensures NoSpace(FileStem(region, district, ward, scope))
  {
    match scope {
      case Everywhere =>
      case InRegion(_) => ReplaceSpacesNoSpace(Norm(OrEmpty(region)));
      case InDistrict(_, _) => ReplaceSpacesNoSpace(Norm(OrEmpty(region)) + "_" + Norm(OrEmpty(district)));
      case InWard(_, _, _) => ReplaceSpacesNoSpace(Norm(OrEmpty(region)) + "_" + Norm(OrEmpty(district)) + "_" + Norm(OrEmpty(ward)));
    }
  }

  /** A file name never holds a space and always ends in "_places.csv" or "_streets.csv". */
  lemma FileNameFacts(kind: Kind, region: Option<string>, district: Option<string>, ward: Option<string>, scope: Scope)
    ensures var f := FileName(kind, region, district, ward, scope);
      && NoSpace(f)
      && |f| > |Suffix(kind)| && f[|f| - |Suffix(kind)| - 1..] == "_" + Suffix(kind)
  {
    var stem := FileStem(region, district, ward, scope);
    var tail := "_" + Suffix(kind);
    FileStemNoSpace(region, district, ward, scope);
    SuffixNoSpace(kind);
    NoSpaceAppend(stem, tail);
    EndsWith(stem, tail);
  }

  lemma SuffixNoSpace(kind: Kind)
    ensures NoSpace("_" + Suffix(kind))
  {
    match kind {
      case PlacesExport => assert "_" + Suffix(kind) == "_places.csv";
      case StreetsExport => assert "_" + Suffix(kind) == "_streets.csv";
    }
  }

  lemma EndsWith(stem: string, tail: string)
    ensures (stem + tail)[|stem + tail| - |tail|..] == tail
  {
  }

  /** What both downloads promise: the first filter that is given and unknown is the
      404; otherwise the header comes first, every row has five cells, the places file
      has at least as many rows as the streets file, and the file name has no space. */
  lemma ExportFacts(idx: Idx, region: Option<string>, district: Option<string>, ward: Option<string>)
    ensures var p, s := Export(PlacesExport, idx, region, district, ward), Export(StreetsExport, idx, region, district, ward);
      && p.Ok? == s.Ok? == Resolve(idx, region, district, ward).Ok?
      && (p.Err? ==> p.error == s.error == Resolve(idx, region, district, ward).error)
      && (p.Ok? ==>
            && p.value.rows[0] == Header(PlacesExport) && s.value.rows[0] == Header(StreetsExport)
            && Wide(p.value.rows) && Wide(s.value.rows)
            && |s.value.rows| <= |p.value.rows|
            && NoSpace(p.value.filename) && NoSpace(s.value.filename))
  {
    match Resolve(idx, region, district, ward)
    case Err(_) =>
    case Ok(scope) =>
      ScopeRowsAgree(idx, scope);
      FileNameFacts(PlacesExport, region, district, ward, scope);
      FileNameFacts(StreetsExport, region, district, ward, scope);
  }

  /** A ward's streets export lists each street of the ward once, in index order, with
      its place count. */
  lemma WardStreetsExport(idx: Idx, region: Option<string>, district: Option<string>, ward: Option<string>)
    requires Resolve(idx, region, district, ward).Ok? && Resolve(idx, region, district, ward).value.InWard?
    ensures var scope := Resolve(idx, region, district, ward).value;
      var items := Items(StreetsAt(idx, scope.rk, scope.dk, scope.wk));
      var rows := Export(StreetsExport, idx, region, district, ward).value.rows;
      && |rows| == |items| + 1
      && forall i :: 0 <= i < |items| ==>
           rows[i + 1] == [RegionNameAt(idx, scope.rk), DistrictNameAt(idx, scope.rk, scope.dk),
                           WardNameAt(idx, scope.rk, scope.dk, scope.wk), StreetNameOf(items[i].1),
                           NatToString(|items[i].1.places.AsList()|)]
  {
    var scope := Resolve(idx, region, district, ward).value;
    var items := Items(StreetsAt(idx, scope.rk, scope.dk, scope.wk));
    var rName, dName, wName := RegionNameAt(idx, scope.rk), DistrictNameAt(idx, scope.rk, scope.dk), WardNameAt(idx, scope.rk, scope.dk, scope.wk);
    StreetsRowsFacts(rName, dName, wName, items);
    assert Export(StreetsExport, idx, region, district, ward).value.rows
        == [Header(StreetsExport)] + StreetsRows(StreetsExport, rName, dName, wName, items);
  }

  // ---- How many rows a scope gives ----

  /** The rows one street gives: one per place, or one when it has none, in the places
      export; one in the streets export. */
  function StreetWeight(kind: Kind, s: Street): nat {
    match kind
    case PlacesExport => if s.places.AsList() == [] then 1 else |s.places.AsList()|
    case StreetsExport => 1
  }

  /** Sums of `StreetWeight` over the indexed streets of a ward, a district, a region and
      the whole index. For the streets export each is the number of indexed streets. */
  function StreetsWeight(kind: Kind, items: seq<(string, Street)>): nat {
    if items == [] then 0 else StreetsWeight(kind, items[..|items| - 1]) + StreetWeight(kind, items[|items| - 1].1)
  }

  function WardWeight(kind: Kind, idx: Idx, rk: string, dk: string, wk: string): nat {
    StreetsWeight(kind, Items(StreetsAt(idx, rk, dk, wk)))
  }

  function WardsWeight(kind: Kind, idx: Idx, rk: string, dk: string, items: seq<(string, Ward)>): nat {
    if items == [] then 0
    else WardsWeight(kind, idx, rk, dk, items[..|items| - 1]) + WardWeight(kind, idx, rk, dk, items[|items| - 1].0)
  }

  function DistrictWeight(kind: Kind, idx: Idx, rk: string, dk: string): nat {
    WardsWeight(kind, idx, rk, dk, Items(WardsAt(idx, rk, dk)))
  }

  function DistrictsWeight(kind: Kind, idx: Idx, rk: string, items: seq<(string, District)>): nat {
    if items == [] then 0
    else DistrictsWeight(kind, idx, rk, items[..|items| - 1]) + DistrictWeight(kind, idx, rk, items[|items| - 1].0)
  }

  function RegionWeight(kind: Kind, idx: Idx, rk: string): nat {
    DistrictsWeight(kind, idx, rk, Items(DistrictsAt(idx, rk)))
  }

  function RegionsWeight(kind: Kind, idx: Idx, items: seq<(string, Region)>): nat {
    if items == [] then 0 else RegionsWeight(kind, idx, items[..|items| - 1]) + RegionWeight(kind, idx, items[|items| - 1].0)
  }

  function ScopeWeight(kind: Kind, idx: Idx, scope: Scope): nat {
    match scope
    case Everywhere => RegionsWeight(kind, idx, Items(idx.regions))
    case InRegion(rk) => RegionWeight(kind, idx, rk)
    case InDistrict(rk, dk) => DistrictWeight(kind, idx, rk, dk)
    case InWard(rk, dk, wk) => WardWeight(kind, idx, rk, dk, wk)
  }

  lemma StreetRowsLen(kind: Kind, rName: string, dName: string, wName: string, s: Street)
    ensures |StreetRows(kind, rName, dName, wName, s)| == StreetWeight(kind, s)
  {
    StreetRowsFacts(rName, dName, wName, s);
  }

  lemma {:induction false} StreetsRowsLen(kind: Kind, rName: string, dName: string, wName: string, items: seq<(string, Street)>)
    ensures |StreetsRows(kind, rName, dName, wName, items)| == StreetsWeight(kind, items)
  {
    if items != [] {
      StreetsRowsLen(kind, rName, dName, wName, items[..|items| - 1]);
      StreetRowsLen(kind, rName, dName, wName, items[|items| - 1].1);
    }
  }

  lemma {:induction false} WardsRowsLen(kind: Kind, idx: Idx, rk: string, dk: string, rName: string, dName: string,
                                        items: seq<(string, Ward)>)
    ensures |WardsRows(kind, idx, rk, dk, rName, dName, items)| == WardsWeight(kind, idx, rk, dk, items)
  {
    if items != [] {
      var wk, w := items[|items| - 1].0, items[|items| - 1].1;
      WardsRowsLen(kind, idx, rk, dk, rName, dName, items[..|items| - 1]);
      StreetsRowsLen(kind, rName, dName, WardNameOf(w), Items(StreetsAt(idx, rk, dk, wk)));
    }
  }

  lemma {:induction false} DistrictsRowsLen(kind: Kind, idx: Idx, rk: string, rName: string, items: seq<(string, District)>)
    ensures |DistrictsRows(kind, idx, rk, rName, items)| == DistrictsWeight(kind, idx, rk, items)
  {
    if items != [] {
      var dk, d := items[|items| - 1].0, items[|items| - 1].1;
      DistrictsRowsLen(kind, idx, rk, rName, items[..|items| - 1]);
      WardsRowsLen(kind, idx, rk, dk, rName, DistrictNameOf(d), Items(WardsAt(idx, rk, dk)));
    }
  }

  lemma {:induction false} RegionsRowsLen(kind: Kind, idx: Idx, items: seq<(string, Region)>)
    ensures |RegionsRows(kind, idx, items)| == RegionsWeight(kind, idx, items)
  {
    if items != [] {
      var rk, r := items[|items| - 1].0, items[|items| - 1].1;
      RegionsRowsLen(kind, idx, items[..|items| - 1]);
      DistrictsRowsLen(kind, idx, rk, RegionDisplay(r), Items(DistrictsAt(idx, rk)));
    }
  }

  /** A download has the header plus, for every indexed street of the chosen subtree, one
      row in the streets file and one row per place (one when it has none) in the places
      file. */
  lemma ExportRowCount(kind: Kind, idx: Idx, region: Option<string>, district: Option<string>, ward: Option<string>)
    ensures Export(kind, idx, region, district, ward).Ok? ==>
      |Export(kind, idx, region, district, ward).value.rows| == 1 + ScopeWeight(kind, idx, Resolve(idx, region, district, ward).value)
  {
    match Resolve(idx, region, district, ward)
    case Err(_) =>
    case Ok(scope) =>
      match scope {
        case Everywhere => RegionsRowsLen(kind, idx, Items(idx.regions));
        case InRegion(rk) => DistrictsRowsLen(kind, idx, rk, RegionNameAt(idx, rk), Items(DistrictsAt(idx, rk)));
        case InDistrict(rk, dk) =>
          WardsRowsLen(kind, idx, rk, dk, RegionNameAt(idx, rk), DistrictNameAt(idx, rk, dk), Items(WardsAt(idx, rk, dk)));
        case InWard(rk, dk, wk) =>
          StreetsRowsLen(kind, RegionNameAt(idx, rk), DistrictNameAt(idx, rk, dk), WardNameAt(idx, rk, dk, wk),
                         Items(StreetsAt(idx, rk, dk, wk)));
      }
  }

  // ---- The loops of the two subtree exports ----

  lemma RowsAssoc(a: seq<Row>, b: seq<Row>, c: seq<Row>)
    ensures (a + b) + c == a + (b + c)
  {
  }

  lemma PlaceRowsStep(rows0: seq<Row>, prefix: Row, ps: seq<string>, i: int)
    requires 0 <= i < |ps|
    ensures rows0 + PlaceRows(prefix, ps[..i + 1]) == (rows0 + PlaceRows(prefix, ps[..i])) + [prefix + [ps[i]]]
  {
    assert ps[..i + 1][..i] == ps[..i];
    RowsAssoc(rows0, PlaceRows(prefix, ps[..i]), [prefix + [ps[i]]]);
  }

  /** `add_places` (app.py:413-422) and the body of the innermost streets loop
      (app.py:515-520), appending to `rows`. */
  method AddStreet(kind: Kind, rName: string, dName: string, wName: string, s: Street, rows0: seq<Row>)
    returns (rows: seq<Row>)
    ensures rows == rows0 + StreetRows(kind, rName, dName, wName, s)
  {
    var prefix := [rName, dName, wName, StreetNameOf(s)];
    var places := s.places.AsList();
    if kind == StreetsExport {
      rows := rows0 + [prefix + [NatToString(|places|)]];
      return;
    }
    if places == [] {
      rows := rows0 + [prefix + [""]];
      return;
    }
    rows := rows0;
    var i := 0;
    while i < |places|
      invariant 0 <= i <= |places|
      invariant rows == rows0 + PlaceRows(prefix, places[..i])
    {
      rows := rows + [prefix + [places[i]]];
      PlaceRowsStep(rows0, prefix, places, i);
      i := i + 1;
    }
    assert places[..i] == places;
  }

  lemma StreetsRowsStep(kind: Kind, rName: string, dName: string, wName: string, rows0: seq<Row>,
                        items: seq<(string, Street)>, i: int)
    requires 0 <= i < |items|
    ensures rows0 + StreetsRows(kind, rName, dName, wName, items[..i + 1]) ==
            (rows0 + StreetsRows(kind, rName, dName, wName, items[..i])) + StreetRows(kind, rName, dName, wName, items[i].1)
  {
    assert items[..i + 1][..i] == items[..i];
    RowsAssoc(rows0, StreetsRows(kind, rName, dName, wName, items[..i]), StreetRows(kind, rName, dName, wName, items[i].1));
  }

  method StreetsLoop(kind: Kind, rName: string, dName: string, wName: string, items: seq<(string, Street)>,
                     rows0: seq<Row>) returns (rows: seq<Row>)
    ensures rows == rows0 + StreetsRows(kind, rName, dName, wName, items)
  {
    rows := rows0;
    var i := 0;
    while i < |items|
      invariant 0 <= i <= |items|
      invariant rows == rows0 + StreetsRows(kind, rName, dName, wName, items[..i])
    {
      rows := AddStreet(kind, rName, dName, wName, items[i].1, rows);
      StreetsRowsStep(kind, rName, dName, wName, rows0, items, i);
      i := i + 1;
    }
    assert items[..i] == items;
  }

  lemma WardsRowsStep(kind: Kind, idx: Idx, rk: string, dk: string, rName: string, dName: string, rows0: seq<Row>,
                      items: seq<(string, Ward)>, i: int)
    requires 0 <= i < |items|
    ensures rows0 + WardsRows(kind, idx, rk, dk, rName, dName, items[..i + 1]) ==
            (rows0 + WardsRows(kind, idx, rk, dk, rName, dName, items[..i])) +
              WardRows(kind, idx, rk, dk, items[i].0, rName, dName, WardNameOf(items[i].1))
  {
    assert items[..i + 1][..i] == items[..i];
    RowsAssoc(rows0, WardsRows(kind, idx, rk, dk, rName, dName, items[..i]),
              WardRows(kind, idx, rk, dk, items[i].0, rName, dName, WardNameOf(items[i].1)));
  }

  method WardsLoop(kind: Kind, idx: Idx, rk: string, dk: string, rName: string, dName: string,
                   items: seq<(string, Ward)>, rows0: seq<Row>) returns (rows: seq<Row>)
    ensures rows == rows0 + WardsRows(kind, idx, rk, dk, rName, dName, items)
  {
    rows := rows0;
    var i := 0;
    while i < |items|
      invariant 0 <= i <= |items|
      invariant rows == rows0 + WardsRows(kind, idx, rk, dk, rName, dName, items[..i])
    {
      var wk, wName := items[i].0, WardNameOf(items[i].1);
      rows := StreetsLoop(kind, rName, dName, wName, Items(StreetsAt(idx, rk, dk, wk)), rows);
      WardsRowsStep(kind, idx, rk, dk, rName, dName, rows0, items, i);
      i := i + 1;
    }
    assert items[..i] == items;
  }

  lemma DistrictsRowsStep(kind: Kind, idx: Idx, rk: string, rName: string, rows0: seq<Row>,
                          items: seq<(string, District)>, i: int)
    requires 0 <= i < |items|
    ensures rows0 + DistrictsRows(kind, idx, rk, rName, items[..i + 1]) ==
            (rows0 + DistrictsRows(kind, idx, rk, rName, items[..i])) +
              DistrictRows(kind, idx, rk, items[i].0, rName, DistrictNameOf(items[i].1))
  {
    assert items[..i + 1][..i] == items[..i];
    RowsAssoc(rows0, DistrictsRows(kind, idx, rk, rName, items[..i]),
              DistrictRows(kind, idx, rk, items[i].0, rName, DistrictNameOf(items[i].1)));
  }

  method DistrictsLoop(kind: Kind, idx: Idx, rk: string, rName: string, items: seq<(string, District)>,
                       rows0: seq<Row>) returns (rows: seq<Row>)
    ensures rows == rows0 + DistrictsRows(kind, idx, rk, rName, items)
  {
    rows := rows0;
    var i := 0;
    while i < |items|
      invariant 0 <= i <= |items|
      invariant rows == rows0 + DistrictsRows(kind, idx, rk, rName, items[..i])
    {
      var dk, dName := items[i].0, DistrictNameOf(items[i].1);
      rows := WardsLoop(kind, idx, rk, dk, rName, dName, Items(WardsAt(idx, rk, dk)), rows);
      DistrictsRowsStep(kind, idx, rk, rName, rows0, items, i);
      i := i + 1;
    }
    assert items[..i] == items;
  }

  lemma RegionsRowsStep(kind: Kind, idx: Idx, rows0: seq<Row>, items: seq<(string, Region)>, i: int)
    requires 0 <= i < |items|
    ensures rows0 + RegionsRows(kind, idx, items[..i + 1]) ==
            (rows0 + RegionsRows(kind, idx, items[..i])) + RegionRows(kind, idx, items[i].0, RegionDisplay(items[i].1))
  {
    assert items[..i + 1][..i] == items[..i];
    RowsAssoc(rows0, RegionsRows(kind, idx, items[..i]), RegionRows(kind, idx, items[i].0, RegionDisplay(items[i].1)));
  }

  method RegionsLoop(kind: Kind, idx: Idx, items: seq<(string, Region)>, rows0: seq<Row>) returns (rows: seq<Row>)
    ensures rows == rows0 + RegionsRows(kind, idx, items)
  {
    rows := rows0;
    var i := 0;
    while i < |items|
      invariant 0 <= i <= |items|
      invariant rows == rows0 + RegionsRows(kind, idx, items[..i])
    {
      var rk, rName := items[i].0, RegionDisplay(items[i].1);
      rows := DistrictsLoop(kind, idx, rk, rName, Items(DistrictsAt(idx, rk)), rows);
      RegionsRowsStep(kind, idx, rows0, items, i);
      i := i + 1;
    }
    assert items[..i] == items;
  }

  /** The rows written for a resolved scope: the header, then the walk of app.py:425-467. */
  method ScopeLoop(kind: Kind, idx: Idx, scope: Scope) returns (rows: seq<Row>)
    ensures rows == [Header(kind)] + ScopeRows(kind, idx, scope)
  {
    rows := [Header(kind)];
    match scope {
      case Everywhere =>
        rows := RegionsLoop(kind, idx, Items(idx.regions), rows);
      case InRegion(rk) =>
        rows := DistrictsLoop(kind, idx, rk, RegionNameAt(idx, rk), Items(DistrictsAt(idx, rk)), rows);
      case InDistrict(rk, dk) =>
        rows := WardsLoop(kind, idx, rk, dk, RegionNameAt(idx, rk), DistrictNameAt(idx, rk, dk),
          Items(WardsAt(idx, rk, dk)), rows);
      case InWard(rk, dk, wk) =>
        rows := StreetsLoop(kind, RegionNameAt(idx, rk), DistrictNameAt(idx, rk, dk), WardNameAt(idx, rk, dk, wk),
          Items(StreetsAt(idx, rk, dk, wk)), rows);
    }
  }

  /** `download_places` (app.py:402-470) and `download_streets` (app.py:491-581): the
      filters are validated region first, and an absent or empty filter stops the
      descent at the level above it. */
  method Download(kind: Kind, idx: Idx, region: Option<string>, district: Option<string>, ward: Option<string>)
    returns (r: Result<Csv, NotFound>)
    ensures r == Export(kind, idx, region, district, ward)
  {
    var tail := "_" + Suffix(kind);
    if !Truthy(region) {
      assert Resolve(idx, region, district, ward) == Ok(Everywhere);
      var rows := ScopeLoop(kind, idx, Everywhere);
      return Ok(Csv(rows, "tanzania" + tail));
    }
    var ro := OptionalRegion(idx, region);
    if ro.Err? {
      return Err(ro.error);
    }
    var rk := ro.value.value;
    if !Truthy(district) {
      assert Resolve(idx, region, district, ward) == Ok(InRegion(rk));
      var rows := ScopeLoop(kind, idx, InRegion(rk));
      var safe := ReplaceSpaces(Norm(region.value));
      return Ok(Csv(rows, safe + tail));
    }
    var dro := OptionalDistrict(idx, rk, district);
    if dro.Err? {
      return Err(dro.error);
    }
    var dk := dro.value.value;
    if !Truthy(ward) {
      assert Resolve(idx, region, district, ward) == Ok(InDistrict(rk, dk));
      var rows := ScopeLoop(kind, idx, InDistrict(rk, dk));
      var safe := ReplaceSpaces(Norm(region.value) + "_" + Norm(district.value));
      return Ok(Csv(rows, safe + tail));
    }
    var wo := OptionalWard(idx, rk, dk, ward);
    if wo.Err? {
      return Err(wo.error);
    }
    var wk := wo.value.value;
    assert Resolve(idx, region, district, ward) == Ok(InWard(rk, dk, wk));
    var rows := ScopeLoop(kind, idx, InWard(rk, dk, wk));
    var safe := ReplaceSpaces(Norm(region.value) + "_" + Norm(district.value) + "_" + Norm(ward.value));
    return Ok(Csv(rows, safe + tail));
  }


  // ---- /download/search (app.py:472-487) ----

  function SearchRows(hits: seq<Hit>): seq<Row> {
    if hits == [] then []
    else
      var h := hits[|hits| - 1];
      SearchRows(hits[..|hits| - 1]) + [[h.level, h.name, h.path]]
  }

  function SearchCsv(hits: seq<Hit>, q: string): Csv {
    Csv([["level", "name", "path"]] + SearchRows(hits), "search_" + ReplaceSpaces(Norm(q)) + ".csv")
  }

  /** One row per hit, in the order `search` returned them, and a file name without spaces. */
  lemma {:induction false} SearchRowsFacts(hits: seq<Hit>)
    ensures |SearchRows(hits)| == |hits|
    ensures forall i :: 0 <= i < |hits| ==> SearchRows(hits)[i] == [hits[i].level, hits[i].name, hits[i].path]
  {
    if hits != [] {
      SearchRowsFacts(hits[..|hits| - 1]);
    }
  }

  /** The search file name never holds a space. */
  lemma SearchFileNameNoSpace(q: string)
    ensures NoSpace(SearchCsv([], q).filename)
  {
    ReplaceSpacesNoSpace(Norm(q));
    NoSpaceAppend("search_", ReplaceSpaces(Norm(q)));
    NoSpaceAppend("search_" + ReplaceSpaces(Norm(q)), ".csv");
  }

  /** The search download: the header, then one row per hit, in the order `search`
      returned them (so at most `limit` rows after the header, by `ResultsFacts`). */
  lemma SearchCsvFacts(hits: seq<Hit>, q: string)
    ensures var csv := SearchCsv(hits, q);
      && |csv.rows| == |hits| + 1
      && csv.rows[0] == ["level", "name", "path"]
      && (forall i :: 0 <= i < |hits| ==> csv.rows[i + 1] == [hits[i].level, hits[i].name, hits[i].path])
  {
    SearchRowsFacts(hits);
  }

  method DownloadSearch(idx: Idx, q: string, level: string, limit: nat) returns (csv: Csv)
    ensures csv == SearchCsv(Results(idx, q, level, limit), q)
  {
    var hits := Search.Search(idx, q, level, limit);
    var rows: seq<Row> := [];
    var i := 0;
    while i < |hits|
      invariant 0 <= i <= |hits|
      invariant rows == SearchRows(hits[..i])
    {
      rows := rows + [[hits[i].level, hits[i].name, hits[i].path]];
      assert hits[..i + 1][..i] == hits[..i];
      i := i + 1;
    }
    assert hits[..i] == hits;
    csv := Csv([["level", "name", "path"]] + rows, "search_" + ReplaceSpaces(Norm(q)) + ".csv");
  }

}
