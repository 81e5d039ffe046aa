/** The describe command of walter/commands/describe.py: `analyze_dataset` turns
    a read dataset into an analysis record, and `generate_description` builds the
    ordered overview / spatial / attributes [/ statistics] sections from it and
    hands them to the renderer. */
module Describe {
  import opened Errors
  import opened PyStr
  import opened Text
  import opened Gis

  /** One row of a GeoDataFrame: its geometry, and its values in column order
      (each as its text). */
  datatype Row = Row(geometry: Geometry, values: seq<string>)

  /** What `gpd.read_file` gives: the columns (the geometry column among them),
      the rows, the CRS, and the figures the geometry library measures. */
  datatype Frame = Frame(columns: seq<string>, rows: seq<Row>, crs: Crs, measures: Measures)

  /** The dictionary `analyze_dataset` returns. */
  datatype AnalysisRecord = AnalysisRecord(
    filename: string,
    format: string,
    featureCount: nat,
    columns: seq<string>,
    crs: string,
    geometryType: seq<Option<string>>,
    geometryStats: GeometryStats,
    attributeSample: seq<(string, string)>)

  // ---------------------------------------------------------------------------
  // analyze_dataset

  /** `series.unique()`: each value once, in order of first appearance. */
  function Unique<T(==)>(xs: seq<T>): seq<T>
    decreases |xs|
  {
    if xs == [] then []
    else
      var u := Unique(xs[..|xs| - 1]);
      if xs[|xs| - 1] in u then u else u + [xs[|xs| - 1]]
  }

  /** The unique values hold each value of the input exactly once, and the first
      of them is the input's first value. */
  lemma {:induction false} UniqueMembers<T>(xs: seq<T>)
    ensures forall i, j :: 0 <= i < j < |Unique(xs)| ==> Unique(xs)[i] != Unique(xs)[j]
    ensures forall x :: x in Unique(xs) <==> x in xs
    ensures xs != [] ==> Unique(xs) != [] && Unique(xs)[0] == xs[0]
    decreases |xs|
  {
    if xs != [] {
      var init := xs[..|xs| - 1];
      UniqueMembers(init);
      assert xs == init + [xs[|xs| - 1]];
      if init != [] {
        assert init[0] == xs[0];
      }
    }
  }

  /** One step of `Unique`: appending a value keeps the order of first
      occurrences, whether the value is new or seen before. */
  lemma UniqueOrderStep<T>(xs: seq<T>, init: seq<T>, last: T, u0: seq<T>, u: seq<T>)
    requires xs == init + [last]
    requires forall x :: x in u0 <==> x in init
    requires forall i, j :: 0 <= i < j < |u0| ==> FirstIndex(init, u0[i]) < FirstIndex(init, u0[j])
    requires u == if last in u0 then u0 else u0 + [last]
    ensures forall x :: x in u ==> x in xs
    ensures forall i, j :: 0 <= i < j < |u| ==> FirstIndex(xs, u[i]) < FirstIndex(xs, u[j])
  {
    forall i, j | 0 <= i < j < |u|
      ensures FirstIndex(xs, u[i]) < FirstIndex(xs, u[j])
    {
      assert u[i] == u0[i];
      FirstIndexAppend(init, last, u[i]);
      FirstIndexAppend(init, last, u[j]);
      if j < |u0| {
        assert u[j] == u0[j];
      } else {
        assert u[j] == last && last !in init;
      }
    }
  }

  /** The unique values come in the order of their first occurrences. */
  lemma {:induction false} UniqueOrder<T>(xs: seq<T>)
    ensures forall x :: x in Unique(xs) ==> x in xs
    ensures forall i, j :: 0 <= i < j < |Unique(xs)| ==>
      FirstIndex(xs, Unique(xs)[i]) < FirstIndex(xs, Unique(xs)[j])
    decreases |xs|
  {
    if xs != [] {
      var init := xs[..|xs| - 1];
      var last := xs[|xs| - 1];
      UniqueMembers(init);
      UniqueOrder(init);
      assert Unique(xs) == if last in Unique(init) then Unique(init) else Unique(init) + [last];
      UniqueOrderStep(xs, init, last, Unique(init), Unique(xs));
    }
  }

  /** `series.unique()` as the source relies on it: each value of the input
      exactly once, in the order of their first occurrences, so the first of
      them is the input's first value. */
  lemma UniqueSpec<T>(xs: seq<T>)
    ensures forall i, j :: 0 <= i < j < |Unique(xs)| ==> Unique(xs)[i] != Unique(xs)[j]
    ensures forall x :: x in Unique(xs) <==> x in xs
    ensures forall i, j :: 0 <= i < j < |Unique(xs)| ==>
      FirstIndex(xs, Unique(xs)[i]) < FirstIndex(xs, Unique(xs)[j])
    ensures xs != [] ==> Unique(xs) != [] && Unique(xs)[0] == xs[0]
  {
    UniqueMembers(xs);
    UniqueOrder(xs);
  }

  /** `gdf.geometry.geom_type` */
  function GeomTypes(rows: seq<Row>): seq<Option<string>> {
    seq(|rows|, i requires 0 <= i < |rows| => rows[i].geometry.geomType)
  }

  /** A record as a dictionary: column name to value, for as many columns as the
      row has values. */
  function Zip(keys: seq<string>, values: seq<string>): seq<(string, string)>
    decreases |keys|
  {
    if keys == [] || values == [] then []
    else [(keys[0], values[0])] + Zip(keys[1..], values[1..])
  }

  /** The zipped record pairs the i-th column with the i-th value, for as many
      positions as both have. */
  lemma {:induction false} ZipPairs(keys: seq<string>, values: seq<string>)
    ensures |Zip(keys, values)| == if |keys| <= |values| then |keys| else |values|
    ensures forall i :: 0 <= i < |Zip(keys, values)| ==> Zip(keys, values)[i] == (keys[i], values[i])
    decreases |keys|
  {
    if keys != [] && values != [] {
      ZipPairs(keys[1..], values[1..]);
      var rest := Zip(keys[1..], values[1..]);
      forall i | 0 <= i < |Zip(keys, values)|
        ensures Zip(keys, values)[i] == (keys[i], values[i])
      {
        if i > 0 {
          assert Zip(keys, values)[i] == rest[i - 1];
        }
      }
    }
  }

  /** `analyze_dataset(file_path)`, where `fileName` is `file_path.name` and
      `read` is what `gpd.read_file(file_path)` gives. The dictionary's entries are
      evaluated in order, so a failing `get_geometry_stats` wins over the
      `[0]` of a frame without rows. */
  function AnalyzeDataset(fileName: string, read: Result<Frame>): (r: Result<AnalysisRecord>)
    ensures read.Err? ==> r == Err(read.error)
    ensures read.Ok? && AreaUnit(read.value.crs).Err? ==> r == Err(AttributeError("is_geographic"))
    ensures read.Ok? && AreaUnit(read.value.crs).Ok? && read.value.rows == [] ==> r == Err(IndexError)
    ensures r.Ok? <==> read.Ok? && AreaUnit(read.value.crs).Ok? && read.value.rows != []
    ensures r.Ok? ==>
      r.value.filename == fileName && r.value.format == Suffix(fileName) &&
      r.value.featureCount == |read.value.rows| && r.value.columns == read.value.columns &&
      r.value.crs == CrsLabel(read.value.crs) &&
      r.value.geometryStats == GetGeometryStats(read.value.crs, read.value.measures).value &&
      r.value.geometryStats.areaUnit == AreaUnit(read.value.crs).value &&
      r.value.attributeSample == Zip(read.value.columns, read.value.rows[0].values) &&
      r.value.geometryType == Unique(GeomTypes(read.value.rows)) &&
      (forall t :: t in r.value.geometryType <==> exists i :: 0 <= i < |read.value.rows| && read.value.rows[i].geometry.geomType == t)
  {
    match read
    case Err(e) => Err(e)
    case Ok(gdf) =>
      var stats := GetGeometryStats(gdf.crs, gdf.measures);
      if stats.Err? then Err(stats.error)
      else if gdf.rows == [] then Err(IndexError)
      else
        var types := Unique(GeomTypes(gdf.rows));
        UniqueSpec(GeomTypes(gdf.rows));
        assert forall t :: t in GeomTypes(gdf.rows) <==> exists i :: 0 <= i < |gdf.rows| && gdf.rows[i].geometry.geomType == t by {
          forall t | t in GeomTypes(gdf.rows)
            ensures exists i :: 0 <= i < |gdf.rows| && gdf.rows[i].geometry.geomType == t
          {
            var i :| 0 <= i < |GeomTypes(gdf.rows)| && GeomTypes(gdf.rows)[i] == t;
          }
          forall t | exists i :: 0 <= i < |gdf.rows| && gdf.rows[i].geometry.geomType == t
            ensures t in GeomTypes(gdf.rows)
          {
            var i :| 0 <= i < |gdf.rows| && gdf.rows[i].geometry.geomType == t;
            assert GeomTypes(gdf.rows)[i] == t;
          }
        }
        Ok(AnalysisRecord(
          fileName, Suffix(fileName), |gdf.rows|, gdf.columns, CrsLabel(gdf.crs),
          types, stats.value, Zip(gdf.columns, gdf.rows[0].values)))
  }

  // ---------------------------------------------------------------------------
  // generate_description

  /** The overview sentence of a record none of whose geometries is missing. */
  function OverviewText(info: AnalysisRecord): string
    requires None !in info.geometryType
  {
    "This dataset (" + info.filename + ") contains " + Decimal(info.featureCount) + " "
      + Lower(Join(", ", Values(info.geometryType))) + " features."
  }

  function SpatialText(info: AnalysisRecord): string {
    "The data uses the " + info.crs + " coordinate system."
  }

  function AttributesText(info: AnalysisRecord): string {
    "Available attributes include: " + Join(", ", info.columns) + "."
  }

  function StatisticsText(stats: GeometryStats): string {
    "The features cover an area of " + stats.totalArea + " " + stats.areaUnit
      + ", with a bounding box extent of " + stats.bbox + "."
  }

  /** The `components` dictionary handed to `format_output`. */
  function DescriptionComponents(info: AnalysisRecord, includeStats: bool): Components
    requires None !in info.geometryType
  {
    [("overview", OverviewText(info)), ("spatial", SpatialText(info)), ("attributes", AttributesText(info))]
      + if includeStats then [("statistics", StatisticsText(info.geometryStats))] else []
  }

  /** `generate_description(file_path, format="markdown", include_stats=True)`:
      the analysis error; the TypeError of joining the geometry types when a
      feature has no geometry (its type is None); or exactly
      `format_output(components, format)`. */
  method GenerateDescription(fileName: string, read: Result<Frame>, format: string := "markdown", includeStats: bool := true)
    returns (r: Result<string>)
    ensures AnalyzeDataset(fileName, read).Err? ==> r == Err(AnalyzeDataset(fileName, read).error)
    ensures AnalyzeDataset(fileName, read).Ok? && None in AnalyzeDataset(fileName, read).value.geometryType ==>
      r == Err(TypeError(NoneItemMessage(FirstIndex(AnalyzeDataset(fileName, read).value.geometryType, None))))
    ensures AnalyzeDataset(fileName, read).Ok? && None !in AnalyzeDataset(fileName, read).value.geometryType ==>
      r == Ok(Render(SelectRenderer(format), DescriptionComponents(AnalyzeDataset(fileName, read).value, includeStats)))
  {
    var analysis := AnalyzeDataset(fileName, read);
    if analysis.Err? {
      return Err(analysis.error);
    }
    var info := analysis.value;
    var types := JoinChecked(", ", info.geometryType);
    if types.Err? {
      return Err(types.error);
    }
    var components: Components := [
      ("overview", OverviewText(info)),
      ("spatial", SpatialText(info)),
      ("attributes", AttributesText(info))
    ];
    if includeStats {
      components := components + [("statistics", StatisticsText(info.geometryStats))];
    }
    assert components == DescriptionComponents(info, includeStats);
    var out := FormatOutput(components, format);
    return Ok(out);
  }

  // ---------------------------------------------------------------------------
  // Properties

  /** The sections are overview, spatial and attributes, in that order, and
      statistics comes last exactly when it is asked for; no key repeats. */
  lemma ComponentKeys(info: AnalysisRecord, includeStats: bool)
    requires None !in info.geometryType
    ensures var c := DescriptionComponents(info, includeStats);
      |c| == (if includeStats then 4 else 3) &&
      c[0].0 == "overview" && c[1].0 == "spatial" && c[2].0 == "attributes" &&
      (includeStats ==> c[3] == ("statistics", StatisticsText(info.geometryStats))) &&
      (forall i, j :: 0 <= i < j < |c| ==> c[i].0 != c[j].0)
  {
  }

  predicate SingleLineRecord(info: AnalysisRecord) {
    None !in info.geometryType && '\n' !in OverviewText(info) && '\n' !in SpatialText(info) && '\n' !in AttributesText(info)
    && '\n' !in StatisticsText(info.geometryStats)
  }

  /** The heading and body lines of section `i` of a Markdown document. */
  lemma MarkdownSectionAt(c: Components, i: nat)
    requires c != [] && SingleLine(c) && i < |c|
    ensures |Split(Render(Markdown, c), '\n')| == 4 * |c|
    ensures Split(Render(Markdown, c), '\n')[4 * i] == "### " + Title(c[i].0)
    ensures Split(Render(Markdown, c), '\n')[4 * i + 2] == c[i].1
  {
    MarkdownLayout(c);
    var lines := Split(Render(Markdown, c), '\n');
    assert lines[4 * i..4 * i + 4][0] == lines[4 * i];
    assert lines[4 * i..4 * i + 4][2] == lines[4 * i + 2];
  }

  /** "overview" is a lower-case word whose title is "Overview". */
  lemma OverviewWord()
    ensures "overview" != [] && LowerWord("overview")
    ensures "Overview" == [UpperChar("overview"[0])] + "overview"[1..]
  {
  }

  /** "spatial" is a lower-case word whose title is "Spatial". */
  lemma SpatialWord()
    ensures "spatial" != [] && LowerWord("spatial")
    ensures "Spatial" == [UpperChar("spatial"[0])] + "spatial"[1..]
  {
  }

  /** "attributes" is a lower-case word whose title is "Attributes". */
  lemma AttributesWord()
    ensures "attributes" != [] && LowerWord("attributes")
    ensures "Attributes" == [UpperChar("attributes"[0])] + "attributes"[1..]
  {
  }

  /** "statistics" is a lower-case word whose title is "Statistics". */
  lemma StatisticsWord()
    ensures "statistics" != [] && LowerWord("statistics")
    ensures "Statistics" == [UpperChar("statistics"[0])] + "statistics"[1..]
  {
  }



  /** The lines of the Markdown description. */
  function MarkdownLines(info: AnalysisRecord, includeStats: bool): seq<string>
    requires None !in info.geometryType
  {
    Split(Render(Markdown, DescriptionComponents(info, includeStats)), '\n')
  }

  /** Section `i` of the description, under heading `heading`. */
  lemma DescriptionSectionAt(info: AnalysisRecord, includeStats: bool, i: nat, heading: string)
    requires SingleLineRecord(info)
    requires i < |DescriptionComponents(info, includeStats)|
    requires Title(DescriptionComponents(info, includeStats)[i].0) == heading
    ensures |MarkdownLines(info, includeStats)| == (if includeStats then 16 else 12)
    ensures MarkdownLines(info, includeStats)[4 * i] == "### " + heading
    ensures MarkdownLines(info, includeStats)[4 * i + 2] == DescriptionComponents(info, includeStats)[i].1
  {
    var c := DescriptionComponents(info, includeStats);
    assert SingleLine(c);
    MarkdownSectionAt(c, i);
  }

  lemma OverviewSection(info: AnalysisRecord, includeStats: bool)
    requires SingleLineRecord(info)
    ensures |MarkdownLines(info, includeStats)| == (if includeStats then 16 else 12)
    ensures MarkdownLines(info, includeStats)[0] == "### " + "Overview"
    ensures MarkdownLines(info, includeStats)[2] == OverviewText(info)
  {
    var c := DescriptionComponents(info, includeStats);
    assert c[0].0 == "overview";
    assert Title(c[0].0) == "Overview" by { OverviewWord(); LowerWordTitle(c[0].0, "Overview"); }
    DescriptionSectionAt(info, includeStats, 0, "Overview");
  }

  lemma SpatialSection(info: AnalysisRecord, includeStats: bool)
    requires SingleLineRecord(info)
    ensures |MarkdownLines(info, includeStats)| == (if includeStats then 16 else 12)
    ensures MarkdownLines(info, includeStats)[4] == "### " + "Spatial"
    ensures MarkdownLines(info, includeStats)[6] == SpatialText(info)
  {
    var c := DescriptionComponents(info, includeStats);
    assert c[1].0 == "spatial";
    assert Title(c[1].0) == "Spatial" by { SpatialWord(); LowerWordTitle(c[1].0, "Spatial"); }
    DescriptionSectionAt(info, includeStats, 1, "Spatial");
  }

  lemma AttributesSection(info: AnalysisRecord, includeStats: bool)
    requires SingleLineRecord(info)
    ensures |MarkdownLines(info, includeStats)| == (if includeStats then 16 else 12)
    ensures MarkdownLines(info, includeStats)[8] == "### " + "Attributes"
    ensures MarkdownLines(info, includeStats)[10] == AttributesText(info)
  {
    var c := DescriptionComponents(info, includeStats);
    assert c[2].0 == "attributes";
    assert Title(c[2].0) == "Attributes" by { AttributesWord(); LowerWordTitle(c[2].0, "Attributes"); }
    DescriptionSectionAt(info, includeStats, 2, "Attributes");
  }

  lemma StatisticsSection(info: AnalysisRecord)
    requires SingleLineRecord(info)
    ensures |MarkdownLines(info, true)| == 16
    ensures MarkdownLines(info, true)[12] == "### " + "Statistics"
    ensures MarkdownLines(info, true)[14] == StatisticsText(info.geometryStats)
  {
    var c := DescriptionComponents(info, true);
    assert c[3].0 == "statistics";
    assert Title(c[3].0) == "Statistics" by { StatisticsWord(); LowerWordTitle(c[3].0, "Statistics"); }
    DescriptionSectionAt(info, true, 3, "Statistics");
  }

  /** The Markdown description has one `###` heading per section, in the order
      Overview, Spatial, Attributes [, Statistics], each followed by its text. */
  lemma MarkdownDescription(info: AnalysisRecord, includeStats: bool)
    requires SingleLineRecord(info)
    ensures |MarkdownLines(info, includeStats)| == (if includeStats then 16 else 12)
    ensures MarkdownLines(info, includeStats)[0] == "### Overview"
    ensures MarkdownLines(info, includeStats)[2] == OverviewText(info)
    ensures MarkdownLines(info, includeStats)[4] == "### Spatial"
    ensures MarkdownLines(info, includeStats)[6] == SpatialText(info)
    ensures MarkdownLines(info, includeStats)[8] == "### Attributes"
    ensures MarkdownLines(info, includeStats)[10] == AttributesText(info)
    ensures includeStats ==>
      MarkdownLines(info, includeStats)[12] == "### Statistics" &&
      MarkdownLines(info, includeStats)[14] == StatisticsText(info.geometryStats)
  {
    assert "### " + "Overview" == "### Overview";
    assert "### " + "Spatial" == "### Spatial";
    assert "### " + "Attributes" == "### Attributes";
    assert "### " + "Statistics" == "### Statistics";
    OverviewSection(info, includeStats);
    SpatialSection(info, includeStats);
    AttributesSection(info, includeStats);
    if includeStats {
      StatisticsSection(info);
    }
  }

  lemma ThreePointTypes(g: Geometry, values: seq<string>)
    requires g.geomType == Some("Point")
    ensures Unique(GeomTypes([Row(g, values), Row(g, values), Row(g, values)])) == [Some("Point")]
  {
    var types := GeomTypes([Row(g, values), Row(g, values), Row(g, values)]);
    assert types == [Some("Point"), Some("Point"), Some("Point")];
    assert types[..1][..0] == [];
    assert Unique(types[..1]) == [Some("Point")];
    assert types[..2][..1] == types[..1];
    assert Unique(types[..2]) == [Some("Point")];
    assert types[..|types| - 1] == types[..2];
  }

  lemma ShapefileSuffix()
    ensures Suffix("cities.shp") == ".shp"
  {
    assert "cities.shp"[9] == 'p' && "cities.shp"[8] == 'h' && "cities.shp"[7] == 's' && "cities.shp"[6] == '.';
    assert "cities.shp"[..9] == "cities.sh";
    assert "cities.sh"[..8] == "cities.s";
    assert "cities.s"[..7] == "cities.";
    assert RFind("cities.shp", '.') == 6;
  }

  /** The analysis of three points in `cities.shp`. */
  lemma ThreePointsRecord(crs: Crs, m: Measures, g: Geometry, values: seq<string>)
    requires g.geomType == Some("Point")
    requires crs.CrsObject?
    ensures AnalyzeDataset("cities.shp", Ok(Frame(["name", "population", "state", "geometry"], [Row(g, values), Row(g, values), Row(g, values)], crs, m))).Ok?
    ensures AnalyzeDataset("cities.shp", Ok(Frame(["name", "population", "state", "geometry"], [Row(g, values), Row(g, values), Row(g, values)], crs, m))).value
      == AnalysisRecord("cities.shp", ".shp", 3, ["name", "population", "state", "geometry"], CrsLabel(crs), [Some("Point")],
           GetGeometryStats(crs, m).value, Zip(["name", "population", "state", "geometry"], values))
  {
    ThreePointTypes(g, values);
    ShapefileSuffix();
  }

  lemma ThreePointsOverviewText(info: AnalysisRecord)
    requires info.filename == "cities.shp" && info.featureCount == 3 && info.geometryType == [Some("Point")]
    ensures OverviewText(info) == "This dataset (cities.shp) contains 3 point features."
  {
    assert Decimal(3) == "3";
    assert Values(info.geometryType) == ["Point"];
    assert Lower(Join(", ", ["Point"])) == "point";
    ThreePointsSentence();
  }

  lemma ThreePointsSentence()
    ensures "This dataset (" + "cities.shp" + ") contains " + "3" + " " + "point" + " features."
      == "This dataset (cities.shp) contains 3 point features."
  {
  }

  /** A dataset of three points with a name, population and state column (and
      its geometry column): the overview lower-cases the geometry type, and the
      attributes listed include the geometry column. */
  lemma ThreePointsOverview(crs: Crs, m: Measures, g: Geometry, values: seq<string>)
    requires g.geomType == Some("Point")
    requires crs.CrsObject?
    ensures AnalyzeDataset("cities.shp", Ok(Frame(["name", "population", "state", "geometry"], [Row(g, values), Row(g, values), Row(g, values)], crs, m))).Ok?
    ensures OverviewText(AnalyzeDataset("cities.shp", Ok(Frame(["name", "population", "state", "geometry"], [Row(g, values), Row(g, values), Row(g, values)], crs, m))).value)
      == "This dataset (cities.shp) contains 3 point features."
    ensures AnalyzeDataset("cities.shp", Ok(Frame(["name", "population", "state", "geometry"], [Row(g, values), Row(g, values), Row(g, values)], crs, m))).value.columns
      == ["name", "population", "state", "geometry"]
    ensures AnalyzeDataset("cities.shp", Ok(Frame(["name", "population", "state", "geometry"], [Row(g, values), Row(g, values), Row(g, values)], crs, m))).value.format == ".shp"
  {
    ThreePointsRecord(crs, m, g, values);
    var info := AnalyzeDataset("cities.shp", Ok(Frame(["name", "population", "state", "geometry"], [Row(g, values), Row(g, values), Row(g, values)], crs, m))).value;
    ThreePointsOverviewText(info);
  }
}
