# Walter: the deterministic core, in Dafny

Walter is a GIS assistant. It reads a vector dataset with geopandas and describes it. It asks a local Ollama model for prose and tags, and publishes to ArcGIS Online and GitBook. Between those libraries sit small routines that shape strings and records. This project models those routines and proves what they promise. The foreign calls whose results the modelled code uses enter as oracle values passed in as parameters. The arcgis portal calls and the SUMMARY.md write are not modelled at all (see "## Left out"). The oracles are:

- `gpd.read_file`;
- `ollama.list`, `ollama.pull` and `ollama.generate`;
- the GitBook HTTP server and its YAML configuration file;
- the directory glob.

The modules:

- `Errors`: `Option`, `Result`, and the Python exception kinds the modelled code raises.
- `PyStr`: the Python string, list and `pathlib` operations the code relies on. It covers ASCII `lower`, `upper`, `title`, `strip`, one-character `split`, `join` (and its TypeError over a list holding None), character `replace`, `xs[:n]`, `str(n)`, truthiness of optional strings, and `Path.suffix` / `Path.stem`. Each comes with lemmas such as split/join round trips, strip of padded text and title-case shape.
- `Text`: the section renderer (`format_markdown`, `format_html`, `format_text`, `format_output`) of `walter/utils/text.py`. `walter/walter/utils/text.py` is an identical copy, modelled once. The three loops are methods proved against a `Render` specification function, and the line layout of each document format is proved from it.
- `Gis`: `get_crs_info`, the area-unit branch of `get_geometry_stats`, and `validate_geometry`, from both `gis.py` files.
- `Describe`: `analyze_dataset` as a function from the read result to an analysis record or an error, and `generate_description` as a method that assembles the ordered components and renders them.
- `Llm`: class `LLMManager`, covering its construction and the `llm_available` flag, `_ensure_model`, the three public methods with their fallbacks, tag cleaning, and the fallback and prompt builders.
- `Agol`: the content-type, Esri geometry-type and field-type lookups, the field-schema loop, and the credential check. It also covers `upload_data`, which extends the caller's tag list in place (a `TagList` object), and what `create_feature_service` builds: the `features` dictionary, which the source never sends, and the title, tags and description `create_service` receives.
- `GitBook`: class `GitBookAPI` (token, headers, URLs and the two requests) and class `GitBookPublisher` (configuration path, `load_config`, space resolution, create-versus-update dispatch, page titles and the `sync_directory` loop).

## Model

| member | source | states |
|---|---|---|
| Text.FormatMarkdown | walter/utils/text.py:16-23 | The loop's output is the Markdown rendering: one `### Title(key)` / blank / body / blank section per component, joined by newlines. |
| Text.FormatHtml | walter/utils/text.py:35-46 | The loop's output is the HTML rendering: the sections between the container's opening and closing lines. |
| Text.FormatText | walter/utils/text.py:58-65 | The loop's output is the plain-text rendering: upper-cased key, a row of `=` as long as the key, then the body. |
| Text.SelectRenderer | walter/walter/utils/text.py:78-84 | Markdown exactly when the lower-cased name is "markdown", HTML exactly when it is "html", plain text for every other name. |
| Text.FormatOutput | walter/utils/text.py:67-85 | Never fails. Its output is the rendering chosen by the lower-cased format name, "markdown" when none is given. |
| Text.SelectRendererIgnoresCase | walter/utils/text.py:78-84 | A name and its lower-cased form select the same renderer ("Markdown", "HTML", "Text" and "TEXT" included). |
| Text.UnknownFormatIsPlainText | walter/walter/utils/text.py:84 | A name outside the three, after lower-casing, gives the plain-text document ("xml" and "md" included). |
| Text.EmptyDocuments | walter/walter/utils/text.py:16-65 | No components: Markdown and plain text are "", and HTML is the bare container `<div class='walter-output'>\n</div>`. |
| Text.RenderConcat | walter/utils/text.py:19-23 | For Markdown and plain text, rendering two runs of components equals rendering each and joining them with a newline. No section is dropped, merged or reordered. |
| Text.HtmlWrapped | walter/walter/utils/text.py:42-46 | Whatever the bodies hold, the HTML document starts with the container's opening tag and ends with `</div>`. |
| Text.MarkdownLayout | walter/walter/utils/text.py:19-23 | N single-line components give 4N lines. Lines 4i..4i+3 are the heading `### ` + Title(key i), a blank line, body i, and a blank line, in input order. |
| Text.PlainTextLayout | walter/utils/text.py:61-65 | N single-line components give 4N lines. Lines 4i..4i+3 are Upper(key i), a row of `=` as long as key i, body i, and a blank line. |
| Text.HtmlLayout | walter/utils/text.py:38-46 | The HTML document has 2N+2 lines: the opening container line, one `<h3>Title(key)</h3>` / `<p>body</p>` pair per component in order, and the closing line. Bodies are not escaped. |
| Gis.CrsLabel | walter/utils/gis.py:18-29 | "undefined" for no CRS and a string CRS verbatim. A CRS object always gets a label containing ':'. |
| Gis.CrsObjectLabel | walter/walter/utils/gis.py:26-29 | An object with an authority gives a label that splits back into exactly (name, code). An object without one gives "Custom:Unknown". |
| Gis.UndefinedLabel | walter/walter/utils/gis.py:18-23 | The label is "undefined" exactly for no CRS or the string CRS "undefined". |
| Gis.AreaUnit | walter/utils/gis.py:46-51 | "square meters" exactly for a geographic CRS object, and "square units" for no CRS, "" or a projected object. A non-empty string CRS raises AttributeError. |
| Gis.GetGeometryStats | walter/utils/gis.py:41-62 | Succeeds exactly when the area unit does, and otherwise fails with its AttributeError. The statistics carry that unit and the measured bbox, total area and mean area. |
| Gis.ValidateGeometry | walter/utils/gis.py:74-90 | `valid` holds exactly when every geometry is valid, and then there are no issues. |
| Gis.IssuesSound | walter/utils/gis.py:80-88 | Every issue names an invalid geometry of the frame, with that geometry's reason. |
| Gis.IssuesOrdered | walter/walter/utils/gis.py:71-79 | Issues come in strictly increasing frame order. |
| Gis.IssuesComplete | walter/walter/utils/gis.py:71-79 | Every invalid geometry has an issue. |
| Gis.ValidationReportExact | walter/walter/utils/gis.py:65-79 | The whole report: valid iff all geometries are valid (an empty frame included), and issues are exactly the invalid geometries, in order, with their reasons. |
| Gis.EmptyFrameIsValid | walter/utils/gis.py:74-77 | A frame without features is valid with no issues. |
| Describe.UniqueSpec | walter/commands/describe.py:32 | `unique()` yields no duplicates, holds exactly the input's values, and lists them in the order of their first occurrences, so the first value comes first. |
| Describe.AnalyzeDataset | walter/commands/describe.py:23-35 | Errors come in evaluation order: the read error, then AttributeError from the statistics, then IndexError for a frame without rows (`[0]` of no records). On success: name, suffix, row count, full column list (geometry included), CRS label, the geometry types present (exactly `Unique` of the per-row types: each once, in order of first appearance), exactly the `get_geometry_stats` result, and the first row zipped with the column names as the attribute sample. |
| PyStr.JoinChecked | walter/commands/describe.py:60 | `str.join` over a list that may hold None: TypeError exactly when a None is present, naming the first one's position; otherwise the join of the strings. |
| Describe.ZipPairs | walter/commands/describe.py:34 | The attribute sample pairs column i with the first row's value i, for every position both have. |
| Describe.GenerateDescription | walter/commands/describe.py:39-73 | Passes the analysis error through. A feature without geometry puts None among the geometry types, and the overview's `', '.join` then raises TypeError naming the first None item. Otherwise the result is exactly the chosen rendering of the overview/spatial/attributes[/statistics] components, with defaults markdown and statistics on. |
| Describe.ComponentKeys | walter/commands/describe.py:59-70 | Keys are overview, spatial and attributes in that order. Statistics is a fourth, last entry exactly when asked for. |
| Describe.MarkdownDescription | walter/commands/describe.py:59-73 | For a single-line record, the default Markdown description has 16 lines (12 without statistics). The headings "### Overview", "### Spatial", "### Attributes" ["### Statistics"] sit at lines 0, 4, 8 [12], with the section texts two lines below each. |
| Describe.ThreePointsOverview | walter/commands/describe.py:60 | Three Point features in cities.shp read "This dataset (cities.shp) contains 3 point features.". The columns keep "geometry" and the format is ".shp". |
| Llm.LLMManager.Create | walter/integrations/llm.py:15-37 | ImportError "Ollama is required but not available" exactly when the import fails and the LLM is required. Otherwise the model is resolved, the temperature is stored and the context window is resolved (0 or none gives 2048). The flag equals import success, and no runtime call was made: `_ensure_model` runs while the flag is still false. Defaults are those of the source (temperature 0.7, `require_llm` false). |
| Llm.LLMManager.CreateDefault | walter/integrations/llm.py:12-37 | `LLMManager()` never raises. It has model "phi" (or WALTER_MODEL), a 2048-token context, temperature 0.7, and the flag equal to import success. |
| Llm.LLMManager.EnsureModel | walter/integrations/llm.py:39-53 | With the flag false, it does nothing. Otherwise it lists the models, pulls the model when absent, and clears the flag when listing or pulling fails. |
| Llm.LLMManager.GenerateDescription | walter/integrations/llm.py:55-79 | Flag false, or the call raises: the fallback description. Otherwise the stripped reply to the description prompt, with the manager's model and temperature. |
| Llm.LLMManager.SuggestTags | walter/integrations/llm.py:81-122 | Flag false, or the call raises: the five fallback tags. Otherwise the cleaned reply, truncated to `count`. |
| Llm.LLMManager.ExplainAnalysis | walter/integrations/llm.py:124-154 | Flag false, or the call raises: the fallback analysis. Otherwise the stripped reply to the analysis prompt. |
| Llm.ModelResolution | walter/integrations/llm.py:23 | A non-empty model wins. Otherwise WALTER_MODEL when set, else "phi". |
| Llm.FallbackDescriptionText | walter/integrations/llm.py:156-165 | After `strip()`, the fallback is the two-line body with defaults "Unknown", ["Unknown"] and [] for missing keys. |
| Llm.FallbackDescriptionLines | walter/integrations/llm.py:162-165 | That body is exactly two lines: the feature sentence, then the indented attribute sentence. |
| Llm.FallbackAnalysisText | walter/integrations/llm.py:171-178 | The fallback analysis starts "Analysis Results Summary:". It reads `geometry_types` and `attributes` (defaults ["Unknown"] and []) and ends with the joined attributes. |
| Llm.FallbackAnalysisNoAttributes | walter/integrations/llm.py:173-178 | With no attributes, the fallback ends at "- Available Attributes:". |
| Llm.CleanTagsShape | walter/integrations/llm.py:114-119 | min(count, number of comma pieces) tags for count >= 0, and Python's slice (all but the last -count) for a negative count. Tag i is piece i stripped, lower-cased, with spaces made hyphens, in order. |
| Llm.CleanTagChars | walter/integrations/llm.py:114-117 | No cleaned tag holds a comma, a space or an upper-case letter. |
| Llm.TagsKeepDuplicates | walter/integrations/llm.py:114-119 | Duplicates are kept: the reply "GIS, gis" gives ["gis", "gis"]. |
| Llm.RecordFallback | walter/gui.py:312-313 | For an `analyze_dataset` record without null geometries, the fallback description lists the geometry types in their own case and all columns, the geometry column included. |
| Agol.ContentType | walter/integrations/agol.py:128-137 | Always one of the mapped content types or "File", and "File" exactly when the lower-cased suffix is not in the map. |
| Agol.ContentTypeCases | walter/integrations/agol.py:130-137 | "Shapefile" exactly for ".shp" and ".zip" in any case. A name without a suffix is "File". |
| Agol.UpperCaseShapefile | walter/integrations/agol.py:137 | "parcels.SHP" is a Shapefile. |
| Agol.GeometryType | walter/integrations/agol.py:139-150 | IndexError exactly for a frame without features. Otherwise one of the Esri geometry types. |
| Agol.MultiPartTypes | walter/integrations/agol.py:142-150 | MultiLineString and MultiPolygon map like their single forms, MultiPoint does not, and an unknown type maps to esriGeometryPoint. |
| Agol.EsriGeometryType | walter/integrations/agol.py:142-150 | Always a mapped Esri type. Any type outside the map, and the None of a feature without geometry, gives esriGeometryPoint (`type_map.get`'s default). |
| Agol.FirstFeatureDecides | walter/integrations/agol.py:141 | Only the first feature's type matters. |
| Agol.FieldsSchema | walter/integrations/agol.py:152-172 | The loop gives one field per non-geometry column, in column order, each built by `FieldOf`. |
| Agol.AttributeColumnsExact | walter/integrations/agol.py:163-164 | The schema's columns are exactly the non-"geometry" columns, with none added. |
| Agol.FieldsAliasedNullable | walter/integrations/agol.py:165-170 | Every field's alias is its name, and it is nullable. |
| Agol.UnknownDtypeIsString | walter/integrations/agol.py:154-168 | An unmapped dtype is esriFieldTypeString. |
| Agol.Credentials | walter/integrations/agol.py:22-28 | ValueError with the credentials message exactly when username or password is missing or empty after the environment fallback. Otherwise the explicit value, else the environment's. |
| Agol.AGOLManager.Create | walter/integrations/agol.py:15-30 | The credential error, or a manager holding the resolved credentials and the portal URL (default https://www.arcgis.com). |
| Agol.AGOLManager.UploadData | walter/integrations/agol.py:32-56 | A non-empty caller list is extended in place with "walter" and "automated-upload". An empty list is left alone and a fresh list is used. The submitted properties are those of the caller's original tags. |
| Agol.UploadTagsRoundTrip | walter/integrations/agol.py:47-54 | The submitted tag string splits back into the caller's tags followed by "walter" and "automated-upload". |
| Agol.UploadDefaults | walter/integrations/agol.py:44-55 | The title defaults to the file stem, and the description to "Uploaded by Walter: " + title. |
| Agol.AGOLManager.CreateFeatureService | walter/integrations/agol.py:87-115 | IndexError exactly for a frame without features. Otherwise the built (unsent) `features` dictionary's layer and feature set share the first feature's Esri type and carry the fields schema. Tags are the caller's when non-empty, else ["walter", "automated-service"], never appended. The description has its default. |
| GitBook.RaiseForStatus | walter/integrations/gitbook.py:34-35 | HttpError exactly for a 4xx or 5xx status. Otherwise the JSON body. |
| GitBook.GitBookAPI.Create | walter/integrations/gitbook.py:14-24 | ValueError with the token message exactly when neither the argument nor GITBOOK_TOKEN gives a non-empty token. Otherwise the base URL and the headers `Bearer <token>` and `application/json`. |
| GitBook.GitBookAPI.CreatePage | walter/integrations/gitbook.py:26-35 | The server's answer to a POST of {title, content} to the space's content URL, through `raise_for_status`. |
| GitBook.GitBookAPI.UpdatePage | walter/integrations/gitbook.py:37-43 | The server's answer to a PATCH of {content} to the page URL, through `raise_for_status`. |
| GitBook.PageUrlExtendsContentUrl | walter/integrations/gitbook.py:28-39 | The update URL is the create URL followed by "/" and the page id. |
| GitBook.GitBookPublisher.Create | walter/integrations/gitbook.py:48-51 | The configuration path defaults to `<home>/.walter/gitbook.yml`. The client takes its token from the environment, and construction fails with the token ValueError without one. |
| GitBook.GitBookPublisher.LoadConfig | walter/integrations/gitbook.py:58-64 | FileNotFoundError "GitBook config not found at <path>" when the file does not exist, else its contents. |
| GitBook.ResolveSpace | walter/integrations/gitbook.py:80-83 | An explicit space id overrides the config's `default_space`. With neither, ValueError "GitBook space ID not provided". |
| GitBook.GitBookPublisher.PublishContent | walter/integrations/gitbook.py:71-88 | The configuration error first, then the space error. Otherwise the server's answer to the request for the resolved space. |
| GitBook.PublishDispatch | walter/integrations/gitbook.py:85-88 | With a page id, a PATCH to the page URL carrying only the content. Without one, a POST to the content URL carrying title and content. |
| GitBook.GitBookPublisher.SyncDirectory | walter/integrations/gitbook.py:90-116 | The configuration and space errors, else exactly `SyncFrom`: files in glob order, SUMMARY.md skipped, and the first failure stopping the run. |
| GitBook.SyncPublishesEachFile | walter/integrations/gitbook.py:98-116 | A completed sync has one page per file not named SUMMARY.md, in order. Page i is what publishing file i gives. |
| GitBook.SyncedPageFields | walter/integrations/gitbook.py:109-116 | Page i of a completed sync holds file i's derived title, its relative path, and the "id" of the server's reply to publishing it. |
| GitBook.PublishableSkipsSummary | walter/integrations/gitbook.py:101-103 | The published files are exactly the files not named SUMMARY.md. |
| GitBook.MissingIdStops | walter/integrations/gitbook.py:111-115 | A reply without "id" stops the sync with KeyError. |
| GitBook.PageTitleChars | walter/integrations/gitbook.py:109 | The title is as long as the stem. Hyphens become spaces and underscores stay. |
| GitBook.TwoWordPageTitle | walter/integrations/gitbook.py:109 | For `a-b.md` or `a_b.md` with lower-case words, both words are capitalised. The hyphen becomes a space and the underscore stays. |
| GitBook.UnderscoreTitle | walter/integrations/gitbook.py:109 | "user_guide.md" gives the title "User_Guide". |
| GitBook.UnderscorePageTitle | walter/integrations/gitbook.py:109 | For any two lower-case words, `a_b.md` is titled with both words capitalised and the underscore kept. |
| GitBook.NestedPageTitle | walter/integrations/gitbook.py:109-114 | A file in a sub-directory is titled by its own name; the directory part of the relative path plays no part. |

## Left out

- Reading files, geopandas, Shapely, pyproj, Streamlit, the Ollama runtime, `requests`, YAML, Jinja2 and the arcgis library are foreign code. Their results enter as parameters: the read frame, the measured figures, the validity flag per feature and an assumed reason per invalid feature, the model listing, the pull outcome, the generate reply, the HTTP response, the parsed configuration and the file list.
- The floating-point figures of `get_geometry_stats` (area sums and means, the reprojection to EPSG:3857 and `:.2f` formatting) are opaque strings supplied with the frame. Only the area-unit branch is modelled. The `bbox_area` entry, which is always None because a NumPy array has no `area` attribute, is dropped from the model's statistics.
- Gis.ValidateGeometry: the reason of an invalid feature is an assumed per-feature string. The source reads it as `geom.validation_error`, an attribute Shapely geometries do not have, so as written that read would raise AttributeError at the first invalid geometry. The model returns the report the code evidently means to build.
- Gis.ValidateGeometry: an issue's index is the feature's position in the frame. The source reports the frame's index label, which is the same for the default 0-based index `read_file` gives but not for a re-indexed frame.
- Gis.GetGeometryStats: models the `walter/utils/gis.py` version. The copy in `walter/walter/utils/gis.py` has no area unit and no projection branch.
- `update_metadata` in agol.py is a direct pass-through to the arcgis item API, with no logic of its own.
- The portal login `GIS(...)`, `gdf.to_json()`, `content.add`, `create_service` and `edit_features` in agol.py are not modelled. The model returns the properties `content.add` would receive and the title, tags and description `create_service` would receive, not the item dictionaries they would return.
- Agol.AGOLManager.CreateFeatureService: the `features` dictionary (layer geometry type, fields schema, feature-set geometry type) is built but never passed to the portal. The model returns it in `layerGeometryType`, `fields` and `featureSetGeometryType` because building it is what raises IndexError on an empty frame. `edit_features` receives only the GeoJSON features, which are not modelled.
- `create_summary` and the SUMMARY.md write at the end of `sync_directory` are not modelled: the template file is not part of this model.
- GitBook.GitBookPublisher.LoadConfig: the configuration is modelled as a map from keys to strings. An empty YAML file, whose `config.get` would raise AttributeError, and non-string values are not modelled.
- GitBook.GitBookPublisher.SyncDirectory: reading each Markdown file is an oracle that always succeeds, and connection errors from `requests` are not modelled (the server oracle always answers).
- The `print` at llm.py:49 and the `warnings.warn` messages of `LLMManager` (llm.py:36, 53, 78, 121 and 153) are not modelled. Each method's result in those branches is.
- Llm.LLMManager.GenerateDescription: the info dictionary's geometry types are strings. For a record with a null geometry the source's `', '.join` raises TypeError, in the fallback (llm.py:159) and in the prompt builder (llm.py:188, outside the `try`). The model does not represent that case, and Llm.RecordFallback is stated for records without null geometries. Describe.GenerateDescription does model the TypeError.
- Llm.LLMManager.GenerateDescription: the prompt is modelled as the text it holds, but no lemma states its line-by-line layout. The JSON text of the statistics is an input, not computed.
- Llm.LLMManager.ExplainAnalysis: `json.dumps(analysis_results, indent=2)` is an input string, not computed from the dictionary.
- The temperature is a real number passed through unchanged. No arithmetic is done on it.
- Case functions (`title`, `upper`, `lower`) and whitespace for `strip` are modelled on ASCII only, not full Unicode.
- Describe.ThreePointsOverview: the attributes sentence for the example dataset is not stated as a literal. Its general form is stated by Describe.MarkdownDescription.
- The page title replaces only hyphens with spaces; underscores stay as they are (GitBook.UnderscoreTitle).
- `walter/gui.py` (UI, exports and its unused inline prompts), both `cli.py` files, the tests, `setup.py` and the `__init__.py` files are wiring, not core logic.
