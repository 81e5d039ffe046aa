/** The ArcGIS Online helpers of walter/integrations/agol.py: the credential
    check, the content-type, geometry-type and field-schema lookups, and what
    `upload_data` and `create_feature_service` build for the portal. The
    portal itself (`GIS`, `content.add`, `create_service`, `edit_features`) is not
    modelled; the methods give back what they would send it. */
module Agol {
  import opened Errors
  import opened PyStr

  const DefaultPortal := "https://www.arcgis.com"

  const CredentialsMessage :=
    "ArcGIS Online credentials not found. Set AGOL_USERNAME and AGOL_PASSWORD environment variables."

  const UploadTags: seq<string> := ["walter", "automated-upload"]
  const ServiceTags: seq<string> := ["walter", "automated-service"]

  // ---------------------------------------------------------------------------
  // Lookups

  /** The extension map of `_get_content_type`. */
  const ExtensionTypes: map<string, string> := map[
    ".shp" := "Shapefile",
    ".geojson" := "GeoJson",
    ".csv" := "CSV",
    ".zip" := "Shapefile",
    ".gpkg" := "GeoPackage"]

  /** `_get_content_type`: the content type for the lower-cased suffix of the
      file name, "File" for any other suffix or none. `fileName` is
      `file_path.name`, the last path component, to which `Suffix` applies
      pathlib's rule. */
  function ContentType(fileName: string): (t: string)
    ensures t in ExtensionTypes.Values || t == "File"
    ensures t == "File" <==> Lower(Suffix(fileName)) !in ExtensionTypes
  {
    var ext := Lower(Suffix(fileName));
    if ext in ExtensionTypes then ExtensionTypes[ext] else "File"
  }

  /** The type map of `_get_geometry_type`. */
  const EsriGeometryTypes: map<string, string> := map[
    "Point" := "esriGeometryPoint",
    "LineString" := "esriGeometryPolyline",
    "Polygon" := "esriGeometryPolygon",
    "MultiPoint" := "esriGeometryMultipoint",
    "MultiLineString" := "esriGeometryPolyline",
    "MultiPolygon" := "esriGeometryPolygon"]

  /** The Esri type of a geometry type; any type outside the map, and the None
      of a feature without geometry, reads as a point. */
  function EsriGeometryType(geomType: Option<string>): (t: string)
    ensures t in EsriGeometryTypes.Values
    ensures !(geomType.Some? && geomType.value in EsriGeometryTypes) ==> t == "esriGeometryPoint"
  {
    assert EsriGeometryTypes["Point"] in EsriGeometryTypes.Values;
    if geomType.Some? && geomType.value in EsriGeometryTypes then EsriGeometryTypes[geomType.value]
    else "esriGeometryPoint"
  }

  /** `_get_geometry_type`: the Esri type of the first feature's geometry type;
      `.iloc[0]` on a frame without rows raises. */
  function GeometryType(geomTypes: seq<Option<string>>): (r: Result<string>)
    ensures r.Err? <==> geomTypes == []
    ensures r.Err? ==> r.error == IndexError
    ensures r.Ok? ==> r.value in EsriGeometryTypes.Values
  {
    if geomTypes == [] then Err(IndexError) else Ok(EsriGeometryType(geomTypes[0]))
  }

  /** The dtype map of `_get_fields_schema`. */
  const EsriFieldTypes: map<string, string> := map[
    "int64" := "esriFieldTypeInteger",
    "float64" := "esriFieldTypeDouble",
    "object" := "esriFieldTypeString",
    "bool" := "esriFieldTypeSmallInteger",
    "datetime64[ns]" := "esriFieldTypeDate"]

  function EsriFieldType(dtype: string): string {
    if dtype in EsriFieldTypes then EsriFieldTypes[dtype] else "esriFieldTypeString"
  }

  datatype Field = Field(name: string, alias: string, fieldType: string, nullable: bool)

  /** The columns that get a field: all but the one named "geometry". */
  function AttributeColumns(dtypes: seq<(string, string)>): seq<(string, string)>
    decreases |dtypes|
  {
    if dtypes == [] then []
    else
      var rest := AttributeColumns(dtypes[..|dtypes| - 1]);
      if dtypes[|dtypes| - 1].0 != "geometry" then rest + [dtypes[|dtypes| - 1]] else rest
  }

  /** The schema entry of one column. */
  function FieldOf(column: (string, string)): Field {
    Field(column.0, column.0, EsriFieldType(column.1), true)
  }

  /** `_get_fields_schema` over `gdf.dtypes.items()`, given as (column, dtype
      name) pairs in column order. */
  method FieldsSchema(dtypes: seq<(string, string)>) returns (fields: seq<Field>)
    ensures |fields| == |AttributeColumns(dtypes)|
    ensures forall i :: 0 <= i < |fields| ==> fields[i] == FieldOf(AttributeColumns(dtypes)[i])
  {
    fields := [];
    for k := 0 to |dtypes|
      invariant |fields| == |AttributeColumns(dtypes[..k])|
      invariant forall i :: 0 <= i < |fields| ==> fields[i] == FieldOf(AttributeColumns(dtypes[..k])[i])
    {
      assert dtypes[..k + 1][..k] == dtypes[..k];
      var (col, dtype) := dtypes[k];
      if col != "geometry" {
        fields := fields + [Field(col, col, EsriFieldType(dtype), true)];
      }
    }
    assert dtypes[..|dtypes|] == dtypes;
  }

  // ---------------------------------------------------------------------------
  // The manager

  /** `username or os.getenv("AGOL_USERNAME")`, then the same for the password;
      both must come out non-empty. */
  function Credentials(username: Option<string>, password: Option<string>,
                       envUsername: Option<string>, envPassword: Option<string>): (r: Result<(string, string)>)
    ensures r.Ok? <==> Truthy(OrOption(username, envUsername)) && Truthy(OrOption(password, envPassword))
    ensures r.Err? ==> r.error == ValueError(CredentialsMessage)
    ensures r.Ok? && Truthy(username) ==> r.value.0 == username.value
    ensures r.Ok? && !Truthy(username) ==> Some(r.value.0) == envUsername
    ensures r.Ok? && Truthy(password) ==> r.value.1 == password.value
    ensures r.Ok? && !Truthy(password) ==> Some(r.value.1) == envPassword
  {
    var u := OrOption(username, envUsername);
    var p := OrOption(password, envPassword);
    if Truthy(u) && Truthy(p) then Ok((u.value, p.value)) else Err(ValueError(CredentialsMessage))
  }

  /** A caller's list of tags, which `upload_data` may extend in place. */
  class TagList {
    var items: seq<string>

    constructor (items: seq<string>)
      ensures this.items == items
    {
      this.items := items;
    }
  }

  /** The item properties `upload_data` passes to `content.add`. */
  datatype ItemProperties = ItemProperties(title: string, itemType: string, tags: string, description: string)

  /** The properties of an upload whose caller passed `callerTags` (empty for
      `None`). */
  function UploadProperties(fileName: string, title: Option<string>, callerTags: seq<string>,
                            description: Option<string>): ItemProperties
  {
    var t := OrElse(title, Stem(fileName));
    ItemProperties(t, ContentType(fileName), Join(",", callerTags + UploadTags),
                   OrElse(description, "Uploaded by Walter: " + t))
  }

  /** What `create_feature_service` builds: the `features` dictionary (the layer
      definition's geometry type and fields, the feature set's geometry type),
      which the source never passes on, and the title, tags and description that
      `create_service` receives. */
  datatype ServiceRequest = ServiceRequest(
    layerGeometryType: string,
    fields: seq<Field>,
    featureSetGeometryType: string,
    title: string,
    tags: seq<string>,
    description: string)

  class AGOLManager {
    var username: string
    var password: string
    var portalUrl: Option<string>

    constructor Init(username: string, password: string, portalUrl: Option<string>)
      ensures this.username == username && this.password == password && this.portalUrl == portalUrl
    {
      this.username := username;
      this.password := password;
      this.portalUrl := portalUrl;
    }

    /** `AGOLManager(username, password, portal_url)`, with the environment's
      AGOL_USERNAME and AGOL_PASSWORD as the fallbacks. */
    static method Create(username: Option<string>, password: Option<string>,
                         envUsername: Option<string>, envPassword: Option<string>,
                         portalUrl: Option<string> := Some(DefaultPortal))
      returns (r: Result<AGOLManager>)
      ensures Credentials(username, password, envUsername, envPassword).Err? ==>
        r == Err(Credentials(username, password, envUsername, envPassword).error)
      ensures Credentials(username, password, envUsername, envPassword).Ok? ==>
        r.Ok? && fresh(r.value) &&
        (r.value.username, r.value.password) == Credentials(username, password, envUsername, envPassword).value &&
        r.value.portalUrl == portalUrl
    {
      var creds := Credentials(username, password, envUsername, envPassword);
      if creds.Err? {
        return Err(creds.error);
      }
      var m := new AGOLManager.Init(creds.value.0, creds.value.1, portalUrl);
      return Ok(m);
    }

    /** `upload_data(file_path, title, tags, description)`: the properties sent
      with the file. A non-empty caller list gets the default tags appended in
      place; `None` or an empty list is replaced by a fresh list, and the caller's
      empty list stays empty. `fileName` is `file_path.name`, the last path
      component, whose suffix and stem pathlib takes. */
    method UploadData(fileName: string, title: Option<string>, tags: Option<TagList>, description: Option<string>)
      returns (props: ItemProperties)
      modifies if tags.Some? then {tags.value} else {}
      ensures props == UploadProperties(fileName, title, if tags.Some? then old(tags.value.items) else [], description)
      ensures tags.Some? && old(tags.value.items) != [] ==> tags.value.items == old(tags.value.items) + UploadTags
      ensures tags.Some? && old(tags.value.items) == [] ==> tags.value.items == []
    {
      var contentType := ContentType(fileName);
      var t := OrElse(title, Stem(fileName));
      var list: seq<string>;
      if tags.Some? && tags.value.items != [] {
        tags.value.items := tags.value.items + UploadTags;
        list := tags.value.items;
      } else {
        list := [] + UploadTags;
      }
      props := ItemProperties(t, contentType, Join(",", list), OrElse(description, "Uploaded by Walter: " + t));
    }

    /** `create_feature_service(gdf, title, tags, description)` for a frame with
      the given column dtypes and geometry types: the geometry type of an empty
      frame raises before anything is created. */
    method CreateFeatureService(dtypes: seq<(string, string)>, geomTypes: seq<Option<string>>, title: string,
                                tags: Option<seq<string>>, description: Option<string>)
      returns (r: Result<ServiceRequest>)
      ensures r.Err? <==> geomTypes == []
      ensures r.Err? ==> r.error == IndexError
      ensures r.Ok? ==>
        r.value.layerGeometryType == EsriGeometryType(geomTypes[0]) &&
        r.value.featureSetGeometryType == r.value.layerGeometryType &&
        |r.value.fields| == |AttributeColumns(dtypes)| &&
        (forall i :: 0 <= i < |r.value.fields| ==> r.value.fields[i] == FieldOf(AttributeColumns(dtypes)[i])) &&
        r.value.title == title &&
        r.value.tags == (if tags.Some? && tags.value != [] then tags.value else ServiceTags) &&
        r.value.description == OrElse(description, "Feature service created by Walter: " + title)
    {
      var layerType := GeometryType(geomTypes);
      if layerType.Err? {
        return Err(layerType.error);
      }
      var fields := FieldsSchema(dtypes);
      var setType := GeometryType(geomTypes);
      var serviceTags := if tags.Some? && tags.value != [] then tags.value else ServiceTags;
      r := Ok(ServiceRequest(layerType.value, fields, setType.value, title, serviceTags,
                             OrElse(description, "Feature service created by Walter: " + title)));
    }
  }

  // ---------------------------------------------------------------------------
  // Properties

  /** The suffix is matched without regard to case, ".shp" and ".zip" are both
      shapefiles, and a name with no suffix is a plain file. */
  lemma ContentTypeCases(fileName: string)
    ensures ContentType(fileName) == "Shapefile" <==> Lower(Suffix(fileName)) in {".shp", ".zip"}
    ensures Suffix(fileName) == "" ==> ContentType(fileName) == "File"
  {
    var ext := Lower(Suffix(fileName));
    if Suffix(fileName) == "" {
      assert ext == "";
    }
    if ext in ExtensionTypes && ExtensionTypes[ext] == "Shapefile" {
      assert ext == ".shp" || ext == ".zip";
    }
  }

  lemma UpperCaseShapefile()
    ensures ContentType("parcels.SHP") == "Shapefile"
  {
    assert "parcels.SHP"[7] == '.' && "parcels.SHP"[8..] == "SHP";
    assert RFind("parcels.SHP"[..10], '.') == RFind("parcels.SHP"[..9], '.');
    assert RFind("parcels.SHP", '.') == 7;
    assert Lower(".SHP") == ".shp";
  }

  /** A multi-part geometry type maps like its single form, except that
      MultiPoint has its own Esri type; any other type reads as a point. */
  lemma MultiPartTypes()
    ensures EsriGeometryType(Some("MultiLineString")) == EsriGeometryType(Some("LineString"))
    ensures EsriGeometryType(Some("MultiPolygon")) == EsriGeometryType(Some("Polygon"))
    ensures EsriGeometryType(Some("MultiPoint")) != EsriGeometryType(Some("Point"))
    ensures EsriGeometryType(Some("GeometryCollection")) == "esriGeometryPoint"
    ensures EsriGeometryType(None) == "esriGeometryPoint"
  {
  }

  /** Only the first feature's type is consulted. */
  lemma FirstFeatureDecides(geomTypes: seq<Option<string>>, more: seq<Option<string>>)
    requires geomTypes != []
    ensures GeometryType(geomTypes + more) == GeometryType(geomTypes[..1])
  {
  }

  /** A dtype outside the map is a string field. */
  lemma UnknownDtypeIsString(dtype: string)
    requires dtype !in {"int64", "float64", "bool", "datetime64[ns]"}
    ensures EsriFieldType(dtype) == "esriFieldTypeString"
  {
  }

  /** The fields name each column except "geometry", once per occurrence, in
      column order. */
  lemma {:induction false} AttributeColumnsExact(dtypes: seq<(string, string)>)
    ensures forall i :: 0 <= i < |AttributeColumns(dtypes)| ==> AttributeColumns(dtypes)[i].0 != "geometry"
    ensures forall c :: c in AttributeColumns(dtypes) <==> c in dtypes && c.0 != "geometry"
    ensures |AttributeColumns(dtypes)| <= |dtypes|
    ensures (forall i :: 0 <= i < |dtypes| ==> dtypes[i].0 != "geometry") ==> AttributeColumns(dtypes) == dtypes
    decreases |dtypes|
  {
    if dtypes != [] {
      var init := dtypes[..|dtypes| - 1];
      AttributeColumnsExact(init);
      assert dtypes == init + [dtypes[|dtypes| - 1]];
    }
  }

  /** Every field is nullable and aliased to its own name. */
  lemma FieldsAliasedNullable(column: (string, string))
    ensures FieldOf(column).alias == FieldOf(column).name == column.0 && FieldOf(column).nullable
  {
  }

  /** With comma-free tags, the submitted tag string splits back into the
      caller's tags followed by "walter" and "automated-upload". */
  lemma UploadTagsRoundTrip(fileName: string, title: Option<string>, callerTags: seq<string>, description: Option<string>)
    requires forall i :: 0 <= i < |callerTags| ==> ',' !in callerTags[i]
    ensures Split(UploadProperties(fileName, title, callerTags, description).tags, ',') == callerTags + UploadTags
  {
    var all := callerTags + UploadTags;
    assert all[|all| - 2] == "walter" && all[|all| - 1] == "automated-upload";
    forall i | 0 <= i < |all|
      ensures ',' !in all[i]
    {
      if i >= |callerTags| {
        assert all[i] in UploadTags;
      }
    }
    SplitJoin(all, ',');
  }

  /** The title defaults to the file's stem and the description names the title. */
  lemma UploadDefaults(fileName: string, callerTags: seq<string>)
    ensures UploadProperties(fileName, None, callerTags, None).title == Stem(fileName)
    ensures UploadProperties(fileName, None, callerTags, None).description == "Uploaded by Walter: " + Stem(fileName)
  {
  }
}
