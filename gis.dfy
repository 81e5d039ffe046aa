/** The CRS label, the area-unit choice and the geometry validation report of
    walter/utils/gis.py. walter/walter/utils/gis.py has the same `get_crs_info` and
    `validate_geometry`; its `get_geometry_stats` has no area unit. */
module Gis {
  import opened Errors
  import opened PyStr

  /** The `crs` attribute of a GeoDataFrame: none, a plain string, or a CRS object
      whose `to_authority()` answers an (authority, code) pair or nothing. */
  datatype Crs =
    | NoCrs
    | CrsString(text: string)
    | CrsObject(authority: Option<(string, string)>, isGeographic: bool)

  /** `get_crs_info`: total, one label per kind of CRS. */
  function CrsLabel(crs: Crs): (shown: string)
    ensures crs.NoCrs? ==> shown == "undefined"
    ensures crs.CrsString? ==> shown == crs.text
    ensures crs.CrsObject? ==> ':' in shown
  {
    match crs
    case NoCrs => "undefined"
    case CrsString(s) => s
    case CrsObject(authority, _) =>
      var name := if authority.Some? then authority.value.0 else "Custom";
      var code := if authority.Some? then authority.value.1 else "Unknown";
      assert (name + ":" + code)[|name|] == ':';
      name + ":" + code
  }

  /** An authority label splits back into the authority name and code, and an
      object without an authority reads as `Custom:Unknown`. */
  lemma CrsObjectLabel(authority: Option<(string, string)>, isGeographic: bool)
    requires authority.Some? ==> ':' !in authority.value.0 && ':' !in authority.value.1
    ensures var parts := Split(CrsLabel(CrsObject(authority, isGeographic)), ':');
      if authority.Some? then parts == [authority.value.0, authority.value.1]
      else parts == ["Custom", "Unknown"]
  {
    var name := if authority.Some? then authority.value.0 else "Custom";
    var code := if authority.Some? then authority.value.1 else "Unknown";
    assert ':' !in name && ':' !in code;
    assert CrsLabel(CrsObject(authority, isGeographic)) == name + [':'] + code;
    SplitFirstLine(name, code, ':');
    SplitNoSeparator(code, ':');
  }

  /** Only a missing CRS, or a string CRS that reads "undefined", is labelled
      "undefined"; a CRS object always gets a label with a colon in it. */
  lemma UndefinedLabel(crs: Crs)
    ensures CrsLabel(crs) == "undefined" <==> crs == NoCrs || crs == CrsString("undefined")
  {
    if crs.CrsObject? {
      assert ':' in CrsLabel(crs);
      assert ':' !in "undefined";
    }
  }

  /** The `area_unit` branch of `get_geometry_stats`: `gdf.crs and
      gdf.crs.is_geographic`. A non-empty string has no `is_geographic`. */
  function AreaUnit(crs: Crs): (r: Result<string>)
    ensures r == Ok("square meters") <==> crs.CrsObject? && crs.isGeographic
    ensures r == Ok("square units") <==> crs == NoCrs || crs == CrsString("") || (crs.CrsObject? && !crs.isGeographic)
    ensures r.Err? <==> crs.CrsString? && crs.text != ""
  {
    match crs
    case NoCrs => Ok("square units")
    case CrsString(s) => if s == "" then Ok("square units") else Err(AttributeError("is_geographic"))
    case CrsObject(_, geographic) => if geographic then Ok("square meters") else Ok("square units")
  }

  /** The figures the geometry library computes for `get_geometry_stats` (after
      the reprojection when the CRS is geographic), already formatted: the
      bounding box text, the total and the mean area. */
  datatype Measures = Measures(bbox: string, totalArea: string, meanArea: string)

  datatype GeometryStats = GeometryStats(bbox: string, totalArea: string, meanArea: string, areaUnit: string)

  /** `get_geometry_stats` with the measured figures supplied. */
  function GetGeometryStats(crs: Crs, m: Measures): (r: Result<GeometryStats>)
    ensures r.Ok? <==> AreaUnit(crs).Ok?
    ensures r.Ok? ==> r.value.areaUnit == AreaUnit(crs).value && r.value.bbox == m.bbox && r.value.totalArea == m.totalArea
    ensures r.Ok? ==> r.value.meanArea == m.meanArea
    ensures r.Err? ==> r.error == AttributeError("is_geographic")
  {
    var unit := AreaUnit(crs);
    if unit.Err? then Err(unit.error)
    else Ok(GeometryStats(m.bbox, m.totalArea, m.meanArea, unit.value))
  }

  // ---------------------------------------------------------------------------
  // validate_geometry

  /** One feature's geometry: its type name (None when the feature has no
      geometry), whether it is valid, and a reason for its invalidity. The reason
      is taken as given per feature: the source reads it as the attribute
      `geom.validation_error`, which Shapely geometries do not have. */
  datatype Geometry = Geometry(geomType: Option<string>, isValid: bool, validationError: string)

  datatype Issue = Issue(index: nat, reason: string)

  datatype ValidationReport = ValidationReport(valid: bool, issues: seq<Issue>)

  predicate AllValid(geoms: seq<Geometry>) {
    forall i :: 0 <= i < |geoms| ==> geoms[i].isValid
  }

  /** The issue entries for the invalid geometries of `geoms`, whose first
      element sits at row `offset` of the frame. */
  function IssuesFrom(geoms: seq<Geometry>, offset: nat): seq<Issue>
    decreases |geoms|
  {
    if geoms == [] then []
    else
      (if geoms[0].isValid then [] else [Issue(offset, geoms[0].validationError)])
      + IssuesFrom(geoms[1..], offset + 1)
  }

  /** `validate_geometry`, rows indexed by position. */
  function ValidateGeometry(geoms: seq<Geometry>): (report: ValidationReport)
    ensures report.valid <==> forall i :: 0 <= i < |geoms| ==> geoms[i].isValid
    ensures report.valid ==> report.issues == []
  {
    var valid := AllValid(geoms);
    ValidationReport(valid, if valid then [] else IssuesFrom(geoms, 0))
  }

  /** `issue` names an invalid geometry of `geoms` (whose first element sits at
      row `offset`), with that geometry's reason. */
  predicate Reports(geoms: seq<Geometry>, offset: nat, issue: Issue) {
    offset <= issue.index < offset + |geoms| &&
    !geoms[issue.index - offset].isValid &&
    issue.reason == geoms[issue.index - offset].validationError
  }

  /** Every issue names an invalid geometry of the frame, with its reason. */
  lemma {:induction false} IssuesSound(geoms: seq<Geometry>, offset: nat)
    ensures forall k :: 0 <= k < |IssuesFrom(geoms, offset)| ==> Reports(geoms, offset, IssuesFrom(geoms, offset)[k])
    decreases |geoms|
  {
    if geoms != [] {
      IssuesSound(geoms[1..], offset + 1);
      var rest := IssuesFrom(geoms[1..], offset + 1);
      assert forall k :: 0 <= k < |rest| ==> Reports(geoms[1..], offset + 1, rest[k]);
      var head: seq<Issue> := if geoms[0].isValid then [] else [Issue(offset, geoms[0].validationError)];
      var issues := head + rest;
      assert IssuesFrom(geoms, offset) == issues;
      forall k | 0 <= k < |issues|
        ensures Reports(geoms, offset, issues[k])
      {
        if k >= |head| {
          var m := k - |head|;
          assert issues[k] == rest[m];
          assert Reports(geoms[1..], offset + 1, rest[m]);
          assert geoms[1..][rest[m].index - (offset + 1)] == geoms[rest[m].index - offset];
        }
      }
    }
  }

  /** Issues come in frame order. */
  lemma {:induction false} IssuesOrdered(geoms: seq<Geometry>, offset: nat)
    ensures forall k, l :: 0 <= k < l < |IssuesFrom(geoms, offset)| ==>
      IssuesFrom(geoms, offset)[k].index < IssuesFrom(geoms, offset)[l].index
    decreases |geoms|
  {
    if geoms != [] {
      IssuesOrdered(geoms[1..], offset + 1);
      IssuesSound(geoms[1..], offset + 1);
      var rest := IssuesFrom(geoms[1..], offset + 1);
      var head: seq<Issue> := if geoms[0].isValid then [] else [Issue(offset, geoms[0].validationError)];
      var issues := head + rest;
      assert IssuesFrom(geoms, offset) == issues;
      forall k, l | 0 <= k < l < |issues|
        ensures issues[k].index < issues[l].index
      {
        assert issues[l] == rest[l - |head|];
        assert Reports(geoms[1..], offset + 1, rest[l - |head|]);
        if k >= |head| {
          assert issues[k] == rest[k - |head|];
        }
      }
    }
  }

  /** Every invalid geometry has an issue. */
  lemma {:induction false} IssuesComplete(geoms: seq<Geometry>, offset: nat)
    ensures forall j :: 0 <= j < |geoms| && !geoms[j].isValid ==>
      exists k :: 0 <= k < |IssuesFrom(geoms, offset)| && IssuesFrom(geoms, offset)[k].index == offset + j
    decreases |geoms|
  {
    if geoms != [] {
      IssuesComplete(geoms[1..], offset + 1);
      var rest := IssuesFrom(geoms[1..], offset + 1);
      var head: seq<Issue> := if geoms[0].isValid then [] else [Issue(offset, geoms[0].validationError)];
      var issues := head + rest;
      assert IssuesFrom(geoms, offset) == issues;
      forall j | 0 <= j < |geoms| && !geoms[j].isValid
        ensures exists k :: 0 <= k < |issues| && issues[k].index == offset + j
      {
        if j == 0 {
          assert issues[0].index == offset;
        } else {
          assert geoms[1..][j - 1] == geoms[j];
          var k' :| 0 <= k' < |rest| && rest[k'].index == offset + 1 + (j - 1);
          assert issues[|head| + k'] == rest[k'];
        }
      }
    }
  }

  /** `validate_geometry` as a whole: valid exactly when every geometry is (an
      empty frame included); otherwise one issue per invalid geometry, in order,
      and no valid geometry is reported. */
  lemma ValidationReportExact(geoms: seq<Geometry>)
    ensures var report := ValidateGeometry(geoms);
      (report.valid <==> AllValid(geoms)) &&
      (forall k :: 0 <= k < |report.issues| ==>
        report.issues[k].index < |geoms| &&
        !geoms[report.issues[k].index].isValid &&
        report.issues[k].reason == geoms[report.issues[k].index].validationError) &&
      (forall k, l :: 0 <= k < l < |report.issues| ==> report.issues[k].index < report.issues[l].index) &&
      (forall j :: 0 <= j < |geoms| && !geoms[j].isValid ==>
        exists k :: 0 <= k < |report.issues| && report.issues[k].index == j)
  {
    IssuesSound(geoms, 0);
    IssuesOrdered(geoms, 0);
    IssuesComplete(geoms, 0);
  }

  /** The report of an empty frame is valid with no issues. */
  lemma EmptyFrameIsValid()
    ensures ValidateGeometry([]) == ValidationReport(true, [])
  {
  }
}
