/** The parsed dataset, as the directory reads it after `json.load`. A JSON object is
    a record holding the keys the service looks up: a name field is absent or a string,
    and a child collection is absent, a JSON array, or some other JSON value. */
module Document {
  import opened Wrappers

  /** The value stored under a key that should hold a JSON array. */
  datatype Field<T> = Absent | List(items: seq<T>) | Other {
    /** `v if isinstance(v, list) else []` */
    function AsList(): seq<T> {
      if List? then items else []
    }
  }

  /** A street object: keys "NAME", "name" and "PLACES". */
  datatype Street = Street(upperName: Option<string>, lowerName: Option<string>, places: Field<string>)

  /** A ward object: keys "NAME", "name", "STREETS", "STREET" and "ROADS". */
  datatype Ward = Ward(upperName: Option<string>, lowerName: Option<string>,
                       streets: Field<Street>, street: Field<Street>, roads: Field<Street>)

  /** A district object: keys "NAME", "name", "WARD" and "WARDS". */
  datatype District = District(upperName: Option<string>, lowerName: Option<string>,
                               ward: Field<Ward>, wards: Field<Ward>)

  /** A region object: keys "REGION", "name", "POSTCODE", "DISTRIC", "DISTRICT" and "DISTRICTS". */
  datatype Region = Region(regionName: Option<string>, lowerName: Option<string>, postcode: Option<int>,
                           distric: Field<District>, district: Field<District>, districts: Field<District>)

  /** The top-level object: key "regions". */
  datatype Doc = Doc(regions: Field<Region>)

  /** Truthiness of a name value: present and not the empty string. */
  predicate Truthy(v: Option<string>) {
    v.Some? && v.value != ""
  }

  /** `a or b or ""` over two name values. */
  function FirstName(a: Option<string>, b: Option<string>): (r: string)
    ensures Truthy(a) ==> r == a.value
    ensures !Truthy(a) && Truthy(b) ==> r == b.value
    ensures !Truthy(a) && !Truthy(b) ==> r == ""
  {
    if Truthy(a) then a.value else if Truthy(b) then b.value else ""
  }

  /** `obj.get(key, "")` for a name value. */
  function OrEmpty(v: Option<string>): string {
    if v.Some? then v.value else ""
  }

  /** `r.get("REGION") or r.get("name") or ""` (app.py:108) */
  function RegionIndexName(r: Region): string {
    FirstName(r.regionName, r.lowerName)
  }

  /** `x.get("NAME") or x.get("name") or ""` (app.py:123, 137, 150) */
  function DistrictIndexName(d: District): string {
    FirstName(d.upperName, d.lowerName)
  }

  function WardIndexName(w: Ward): string {
    FirstName(w.upperName, w.lowerName)
  }

  function StreetIndexName(s: Street): string {
    FirstName(s.upperName, s.lowerName)
  }

  /** `r.get("REGION", "")`: the region's display name in paths and export rows. */
  function RegionDisplay(r: Region): string {
    OrEmpty(r.regionName)
  }

  /** `pick_list(obj, *keys)` (app.py:272-281): the first of the values, in key order,
      that is a JSON array, or `[]` when none is. */
  function PickList<T>(fields: seq<Field<T>>): (r: seq<T>)
    ensures (exists k :: 0 <= k < |fields| && fields[k].List?) ==>
              exists k :: 0 <= k < |fields| && fields[k].List? && r == fields[k].items &&
                          forall j :: 0 <= j < k ==> !fields[j].List?
    ensures (forall k :: 0 <= k < |fields| ==> !fields[k].List?) ==> r == []
  {
    if fields == [] then []
    else if fields[0].List? then fields[0].items
    else PickList(fields[1..])
  }

  /** The "DISTRIC", "DISTRICT", "DISTRICTS" aliases of `list_districts` (app.py:291). */
  function DistrictAliases(r: Region): seq<District> {
    PickList([r.distric, r.district, r.districts])
  }

  /** The "WARD", "WARDS" aliases of `list_wards` (app.py:306). */
  function WardAliases(d: District): seq<Ward> {
    PickList([d.ward, d.wards])
  }

  /** The "STREETS", "STREET", "ROADS" aliases of `list_streets` (app.py:324). */
  function StreetAliases(w: Ward): seq<Street> {
    PickList([w.streets, w.street, w.roads])
  }

}
