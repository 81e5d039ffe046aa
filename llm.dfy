/** The Ollama-backed `LLMManager` of walter/integrations/llm.py. The model
    runtime is not modelled: whether `import ollama` succeeds is a constructor
    parameter, and the answers of `ollama.list`, `ollama.pull` and
    `ollama.generate` are oracle values handed to the methods that call them. */
module Llm {
  import opened Errors
  import opened PyStr
  import Describe

  const DefaultModel := "phi"
  const DefaultContext := 2048

  /** The eight spaces that indent every line of the prompt and fallback
      templates after the first. */
  const Indent := "        "

  /** A line break followed by the indentation: what surrounds each template
      between its triple quotes. */
  const Pad := "\n" + Indent

  /** A dictionary handed to the manager, by the keys the manager reads. Each
      value is given as the text Python's `str` (or `json.dumps`) makes of it. */
  datatype Info = Info(
    filename: Option<string>,
    format: Option<string>,
    featureCount: Option<string>,
    crs: Option<string>,
    geometryType: Option<seq<string>>,
    geometryTypes: Option<seq<string>>,
    columns: Option<seq<string>>,
    attributes: Option<seq<string>>,
    /** `json.dumps(d['geometry_stats'], indent=2)` when the key is present */
    geometryStatsJson: Option<string>,
    /** `json.dumps(d, indent=2)` */
    json: string)

  /** `d.get(key, default)` */
  function GetOr<T>(o: Option<T>, default: T): T {
    if o.Some? then o.value else default
  }

  /** `str(d.get(key))`: a missing key reads as `None`. */
  function Shown(o: Option<string>): string {
    GetOr(o, "None")
  }

  /** `str(n)` for any integer */
  function IntStr(n: int): string {
    if n < 0 then "-" + Decimal(-n) else Decimal(n)
  }

  // ---------------------------------------------------------------------------
  // Oracles for the model runtime

  /** The keyword arguments of one `ollama.generate` call. */
  datatype Request = Request(model: string, prompt: string, temperature: real)

  /** What `ollama.generate` gives: a reply with a `response` entry, or any
      exception (a reply without that entry included). */
  datatype Reply = Replied(response: string) | Raised

  /** What `ollama.list()` gives: the model names, or an exception. */
  datatype Listing = Listed(names: seq<string>) | ListFailed

  datatype RuntimeCall = ListModels | PullModel(name: string)

  // ---------------------------------------------------------------------------
  // Fallbacks

  /** `_generate_fallback_tags` */
  const FallbackTags: seq<string> := ["gis", "spatial-data", "geospatial", "vector-data", "analysis"]

  /** The text of `_generate_fallback_description` between the template's
      leading and trailing padding. */
  function DescriptionBody(featureCount: string, geometryType: string, columns: string): string {
    "Dataset contains " + featureCount + " features of type " + geometryType + "."
      + Pad + "Available attributes: " + columns + "."
  }

  /** The f-string of `_generate_fallback_description`, before `strip()`. */
  function DescriptionTemplate(featureCount: string, geometryType: string, columns: string): string {
    Pad + DescriptionBody(featureCount, geometryType, columns) + Pad
  }

  /** `_generate_fallback_description(data)` */
  function FallbackDescription(data: Info): string {
    Strip(DescriptionTemplate(
      GetOr(data.featureCount, "Unknown"),
      Join(", ", GetOr(data.geometryType, ["Unknown"])),
      Join(", ", GetOr(data.columns, []))))
  }

  /** The lines of `_generate_fallback_analysis` up to the attributes label. */
  function AnalysisSummary(featureCount: string, geometryTypes: string): string {
    "Analysis Results Summary:"
      + Pad + "- Feature Count: " + featureCount
      + Pad + "- Geometry Types: " + geometryTypes
      + Pad + "- Available Attributes:"
  }

  /** The f-string of `_generate_fallback_analysis`, before `strip()`. */
  function AnalysisTemplate(featureCount: string, geometryTypes: string, attributes: string): string {
    Pad + AnalysisSummary(featureCount, geometryTypes) + " " + attributes + Pad
  }

  /** `_generate_fallback_analysis(results)` */
  function FallbackAnalysis(results: Info): string {
    Strip(AnalysisTemplate(
      GetOr(results.featureCount, "Unknown"),
      Join(", ", GetOr(results.geometryTypes, ["Unknown"])),
      Join(", ", GetOr(results.attributes, []))))
  }

  // ---------------------------------------------------------------------------
  // Prompts

  /** The lines of `_create_description_prompt(data)`. */
  function DescriptionPromptLines(data: Info): seq<string> {
    [ "",
      Indent + "Generate a professional description of this GIS dataset:",
      Indent,
      Indent + "Dataset Information:",
      Indent + "- Name: " + Shown(data.filename),
      Indent + "- Format: " + Shown(data.format),
      Indent + "- Features: " + Shown(data.featureCount) + " " + Lower(Join(", ", GetOr(data.geometryType, []))),
      Indent + "- CRS: " + Shown(data.crs),
      Indent + "- Attributes: " + Join(", ", GetOr(data.columns, [])),
      Indent,
      Indent + "Statistics:",
      Indent + GetOr(data.geometryStatsJson, "{}"),
      Indent,
      Indent + "Write a clear, professional description that a GIS analyst would find helpful.",
      Indent + "Focus on the key characteristics and potential uses of the dataset.",
      Indent + "Use natural, flowing language rather than just listing facts.",
      Indent ]
  }

  function DescriptionPrompt(data: Info): string {
    Join("\n", DescriptionPromptLines(data))
  }

  /** The lines of the prompt `suggest_tags` sends. */
  function TagsPromptLines(description: string, count: int): seq<string> {
    [ "",
      Indent + "Based on this GIS dataset description, suggest " + IntStr(count) + " relevant tags:",
      Indent,
      Indent + description,
      Indent,
      Indent + "Format the tags as a comma-separated list, using lowercase and hyphens for spaces.",
      Indent + "Example: urban-planning, demographics, transportation",
      Indent,
      Indent + "Tags:",
      Indent ]
  }

  function TagsPrompt(description: string, count: int): string {
    Join("\n", TagsPromptLines(description, count))
  }

  /** The lines of the prompt `explain_analysis` sends. */
  function AnalysisPromptLines(resultsJson: string): seq<string> {
    [ "",
      Indent + "Explain these GIS analysis results in clear, natural language:",
      Indent,
      Indent + resultsJson,
      Indent,
      Indent + "Focus on key insights and patterns. Use professional but accessible language.",
      Indent ]
  }

  function AnalysisPrompt(resultsJson: string): string {
    Join("\n", AnalysisPromptLines(resultsJson))
  }

  // ---------------------------------------------------------------------------
  // Tag cleanup

  /** `tag.strip().lower().replace(" ", "-")` */
  function CleanTag(tag: string): string {
    ReplaceChar(Lower(Strip(tag)), ' ', '-')
  }

  function CleanEach(pieces: seq<string>): seq<string> {
    seq(|pieces|, i requires 0 <= i < |pieces| => CleanTag(pieces[i]))
  }

  /** The tags `suggest_tags` makes of a reply: one per comma-separated piece,
      cleaned, cut to the first `count`. */
  function CleanTags(reply: string, count: int): seq<string> {
    SlicePrefix(CleanEach(Split(reply, ',')), count)
  }

  // ---------------------------------------------------------------------------
  // The manager

  /** `model or os.getenv("WALTER_MODEL", "phi")`, where `env` is the variable's
      value when it is set. */
  function ResolveModel(model: Option<string>, env: Option<string>): string {
    OrElse(model, GetOr(env, DefaultModel))
  }

  /** `context_window or 2048` */
  function ResolveContext(contextWindow: Option<int>): int {
    if contextWindow.Some? && contextWindow.value != 0 then contextWindow.value else DefaultContext
  }

  /** The runtime calls `_ensure_model` makes when the flag is set. */
  function EnsureCalls(model: string, listing: Listing): seq<RuntimeCall> {
    match listing
    case ListFailed => [ListModels]
    case Listed(names) => [ListModels] + if model in names then [] else [PullModel(model)]
  }

  /** Whether the flag survives `_ensure_model` when it is set: listing worked,
      and the model was there or the pull worked. */
  predicate EnsureKeepsFlag(model: string, listing: Listing, pullOk: bool) {
    listing.Listed? && (model in listing.names || pullOk)
  }

  class LLMManager {
    var model: string
    var contextWindow: int
    var temperature: real
    var llmAvailable: bool
    /** whether `self.ollama` holds the runtime module (rather than `None`) */
    var runtimeLoaded: bool
    /** the calls made on the runtime by `_ensure_model` */
    ghost var runtimeCalls: seq<RuntimeCall>

    /** `__init__` when `import ollama` gives `importOk` and the caller does not
      need to be told of a failed import (see `Create`). The flag is still false
      while `_ensure_model` runs, so that call lists and pulls nothing. */
    constructor Init(model: Option<string>, env: Option<string>, contextWindow: Option<int>,
                     temperature: real, importOk: bool, listing: Listing, pullOk: bool)
      ensures this.model == ResolveModel(model, env)
      ensures this.contextWindow == ResolveContext(contextWindow)
      ensures this.temperature == temperature
      ensures llmAvailable == importOk && runtimeLoaded == importOk
      ensures runtimeCalls == []
    {
      this.model := ResolveModel(model, env);
      this.contextWindow := ResolveContext(contextWindow);
      this.temperature := temperature;
      llmAvailable := false;
      runtimeLoaded := false;
      runtimeCalls := [];
      new;
      if importOk {
        runtimeLoaded := true;
        EnsureModel(listing, pullOk);
        llmAvailable := true;
      }
    }

    /** `LLMManager(model, context_window, temperature, require_llm)`: a failed
      import raises when `require_llm` is set; otherwise the manager comes up with
      the flag equal to whether the import worked. The oracles come first; the
      remaining parameters carry the source's defaults. */
    static method Create(env: Option<string>, importOk: bool, listing: Listing, pullOk: bool,
                         model: Option<string> := None, contextWindow: Option<int> := None,
                         temperature: real := 0.7, requireLlm: bool := false)
      returns (r: Result<LLMManager>)
      ensures r.Err? <==> !importOk && requireLlm
      ensures r.Err? ==> r.error == ImportError("Ollama is required but not available")
      ensures r.Ok? ==> fresh(r.value) && r.value.llmAvailable == importOk && r.value.runtimeLoaded == importOk
      ensures r.Ok? ==> r.value.model == ResolveModel(model, env) && r.value.runtimeCalls == []
      ensures r.Ok? ==> r.value.temperature == temperature && r.value.contextWindow == ResolveContext(contextWindow)
    {
      if !importOk && requireLlm {
        return Err(ImportError("Ollama is required but not available"));
      }
      var m := new LLMManager.Init(model, env, contextWindow, temperature, importOk, listing, pullOk);
      return Ok(m);
    }

    /** `LLMManager()`: never raises, and comes up with model "phi" (or
      WALTER_MODEL), a 2048-token context and temperature 0.7. */
    static method CreateDefault(env: Option<string>, importOk: bool, listing: Listing, pullOk: bool)
      returns (m: LLMManager)
      ensures fresh(m) && m.llmAvailable == importOk && m.runtimeCalls == []
      ensures m.model == GetOr(env, "phi") && m.contextWindow == 2048 && m.temperature == 0.7
    {
      var r := Create(env, importOk, listing, pullOk);
      m := r.value;
    }

    /** `_ensure_model`: nothing while the flag is false; otherwise list the
      models, pull this one when it is missing, and clear the flag on any
      failure. */
    method EnsureModel(listing: Listing, pullOk: bool)
      modifies this
      ensures model == old(model) && contextWindow == old(contextWindow)
      ensures temperature == old(temperature) && runtimeLoaded == old(runtimeLoaded)
      ensures !old(llmAvailable) ==> !llmAvailable && runtimeCalls == old(runtimeCalls)
      ensures old(llmAvailable) ==>
        runtimeCalls == old(runtimeCalls) + EnsureCalls(model, listing) &&
        llmAvailable == EnsureKeepsFlag(model, listing, pullOk)
    {
      if !llmAvailable {
        return;
      }
      runtimeCalls := runtimeCalls + [ListModels];
      if listing.ListFailed? {
        llmAvailable := false;
        return;
      }
      if model !in listing.names {
        runtimeCalls := runtimeCalls + [PullModel(model)];
        if !pullOk {
          llmAvailable := false;
        }
      }
    }

    /** `generate_description(data)`: the fallback when the flag is false or the
      call raises, else the stripped reply to the description prompt. */
    method GenerateDescription(data: Info, generate: Request -> Reply) returns (text: string)
      ensures !llmAvailable ==> text == FallbackDescription(data)
      ensures llmAvailable ==>
        match generate(Request(model, DescriptionPrompt(data), temperature))
        case Replied(response) => text == Strip(response)
        case Raised => text == FallbackDescription(data)
    {
      if !llmAvailable {
        return FallbackDescription(data);
      }
      var prompt := DescriptionPrompt(data);
      var reply := generate(Request(model, prompt, temperature));
      match reply
      case Replied(response) => text := Strip(response);
      case Raised => text := FallbackDescription(data);
    }

    /** `suggest_tags(description, count=5)`: the fallback tags when the flag is
      false or the call raises, else the cleaned reply. */
    method SuggestTags(description: string, count: int := 5, generate: Request -> Reply) returns (tags: seq<string>)
      ensures !llmAvailable ==> tags == FallbackTags
      ensures llmAvailable ==>
        match generate(Request(model, TagsPrompt(description, count), temperature))
        case Replied(response) => tags == CleanTags(response, count)
        case Raised => tags == FallbackTags
    {
      if !llmAvailable {
        return FallbackTags;
      }
      var prompt := TagsPrompt(description, count);
      var reply := generate(Request(model, prompt, temperature));
      match reply
      case Replied(response) =>
        var pieces := Split(response, ',');
        var cleaned := CleanEach(pieces);
        tags := SlicePrefix(cleaned, count);
      case Raised => tags := FallbackTags;
    }

    /** `explain_analysis(analysis_results)` */
    method ExplainAnalysis(results: Info, generate: Request -> Reply) returns (text: string)
      ensures !llmAvailable ==> text == FallbackAnalysis(results)
      ensures llmAvailable ==>
        match generate(Request(model, AnalysisPrompt(results.json), temperature))
        case Replied(response) => text == Strip(response)
        case Raised => text == FallbackAnalysis(results)
    {
      if !llmAvailable {
        return FallbackAnalysis(results);
      }
      var prompt := AnalysisPrompt(results.json);
      var reply := generate(Request(model, prompt, temperature));
      match reply
      case Replied(response) => text := Strip(response);
      case Raised => text := FallbackAnalysis(results);
    }
  }

  // ---------------------------------------------------------------------------
  // Properties

  /** A missing or empty model name falls to the environment variable, and an
      unset variable to "phi"; a non-empty model name wins. */
  lemma ModelResolution(model: Option<string>, env: Option<string>)
    ensures model.Some? && model.value != "" ==> ResolveModel(model, env) == model.value
    ensures !(model.Some? && model.value != "") && env.Some? ==> ResolveModel(model, env) == env.value
    ensures !(model.Some? && model.value != "") && env.None? ==> ResolveModel(model, env) == "phi"
  {
  }

  /** The fallback description is two lines: the feature count and types, then
      (after the source indentation) the attributes. */
  lemma FallbackDescriptionText(data: Info)
    ensures FallbackDescription(data) == DescriptionBody(
      GetOr(data.featureCount, "Unknown"),
      Join(", ", GetOr(data.geometryType, ["Unknown"])),
      Join(", ", GetOr(data.columns, [])))
  {
    var body := DescriptionBody(
      GetOr(data.featureCount, "Unknown"),
      Join(", ", GetOr(data.geometryType, ["Unknown"])),
      Join(", ", GetOr(data.columns, [])));
    assert AllSpace(Pad);
    assert body[0] == 'D' && body[|body| - 1] == '.';
    StripPadded(Pad, body, Pad);
  }

  /** The two lines of the fallback description, when the values have no line
      break in them. */
  lemma FallbackDescriptionLines(featureCount: string, geometryType: string, columns: string)
    requires '\n' !in featureCount && '\n' !in geometryType && '\n' !in columns
    ensures Split(DescriptionBody(featureCount, geometryType, columns), '\n') ==
      ["Dataset contains " + featureCount + " features of type " + geometryType + ".",
       Indent + "Available attributes: " + columns + "."]
  {
    var first := "Dataset contains " + featureCount + " features of type " + geometryType + ".";
    var second := Indent + "Available attributes: " + columns + ".";
    assert DescriptionBody(featureCount, geometryType, columns) == first + "\n" + second;
    SplitFirstLine(first, second, '\n');
    SplitNoSeparator(second, '\n');
  }

  /** The fallback analysis starts with its summary line; when the attribute list
      is non-empty and ends in a non-space, it is kept whole. */
  lemma FallbackAnalysisText(results: Info)
    requires var attrs := Join(", ", GetOr(results.attributes, []));
      attrs != [] && !IsSpace(attrs[|attrs| - 1])
    ensures FallbackAnalysis(results) ==
      AnalysisSummary(GetOr(results.featureCount, "Unknown"), Join(", ", GetOr(results.geometryTypes, ["Unknown"])))
        + " " + Join(", ", GetOr(results.attributes, []))
  {
    var summary := AnalysisSummary(GetOr(results.featureCount, "Unknown"), Join(", ", GetOr(results.geometryTypes, ["Unknown"])));
    var attrs := Join(", ", GetOr(results.attributes, []));
    var body := summary + " " + attrs;
    assert AllSpace(Pad);
    assert Pad + summary + " " + attrs + Pad == Pad + body + Pad;
    assert body[0] == 'A';
    StripPadded(Pad, body, Pad);
  }

  /** With no attributes the space after the label is stripped too, so the
      summary ends in "Attributes:". */
  lemma FallbackAnalysisNoAttributes(results: Info)
    requires Join(", ", GetOr(results.attributes, [])) == ""
    ensures FallbackAnalysis(results) ==
      AnalysisSummary(GetOr(results.featureCount, "Unknown"), Join(", ", GetOr(results.geometryTypes, ["Unknown"])))
  {
    var summary := AnalysisSummary(GetOr(results.featureCount, "Unknown"), Join(", ", GetOr(results.geometryTypes, ["Unknown"])));
    var back := " " + Pad;
    assert AllSpace(Pad) && AllSpace(back);
    assert Pad + summary + " " + "" + Pad == Pad + summary + back;
    assert summary[0] == 'A' && summary[|summary| - 1] == ':';
    StripPadded(Pad, summary, back);
  }

  /** Cleaned tags: one per piece of the reply, in order, as many as `count`
      allows (all but the last `-count` when it is negative). */
  lemma CleanTagsShape(reply: string, count: int)
    ensures var pieces := Split(reply, ',');
      |CleanTags(reply, count)| ==
        (if count >= 0 then (if count <= |pieces| then count else |pieces|)
         else if |pieces| + count >= 0 then |pieces| + count else 0)
    ensures forall i :: 0 <= i < |CleanTags(reply, count)| ==>
      CleanTags(reply, count)[i] == CleanTag(Split(reply, ',')[i])
  {
  }

  /** A cleaned tag has no comma, no space and no upper-case letter. */
  lemma CleanTagChars(reply: string, count: int)
    ensures forall i :: 0 <= i < |CleanTags(reply, count)| ==>
      ',' !in CleanTags(reply, count)[i] && ' ' !in CleanTags(reply, count)[i] &&
      forall j :: 0 <= j < |CleanTags(reply, count)[i]| ==> !IsUpper(CleanTags(reply, count)[i][j])
  {
    var pieces := Split(reply, ',');
    SplitPiecesFree(reply, ',');
    forall i | 0 <= i < |CleanTags(reply, count)|
      ensures ',' !in CleanTags(reply, count)[i]
    {
      assert CleanTags(reply, count)[i] == CleanTag(pieces[i]);
      StripSubsequence(pieces[i]);
    }
  }

  lemma TwoPieces()
    ensures Split("GIS, gis", ',') == ["GIS", " gis"]
  {
    assert "GIS, gis" == "GIS" + [','] + " gis";
    SplitFirstLine("GIS", " gis", ',');
    SplitNoSeparator(" gis", ',');
  }

  lemma CleanUpper()
    ensures CleanTag("GIS") == "gis"
  {
    StripPadded("", "GIS", "");
    assert "" + "GIS" + "" == "GIS";
    assert Lower("GIS") == "gis";
  }

  lemma CleanPadded()
    ensures CleanTag(" gis") == "gis"
  {
    StripPadded(" ", "gis", "");
    assert " " + "gis" + "" == " gis";
    assert Lower("gis") == "gis";
  }

  /** The tags are not de-duplicated: two pieces that clean to the same tag both
      stay. */
  lemma TagsKeepDuplicates()
    ensures CleanTags("GIS, gis", 5) == ["gis", "gis"]
  {
    TwoPieces();
    CleanUpper();
    CleanPadded();
    assert CleanEach(["GIS", " gis"]) == ["gis", "gis"];
  }

  /** The description a manager makes of an `analyze_dataset` record when the
      model is not available keeps the geometry type's case and lists every
      column (the geometry column too). */
  function RecordInfo(rec: Describe.AnalysisRecord, statsJson: string, json: string): Info
    requires None !in rec.geometryType
  {
    Info(Some(rec.filename), Some(rec.format), Some(Decimal(rec.featureCount)), Some(rec.crs),
         Some(Values(rec.geometryType)), None, Some(rec.columns), None, Some(statsJson), json)
  }

  lemma RecordFallback(rec: Describe.AnalysisRecord, statsJson: string, json: string)
    requires None !in rec.geometryType
    ensures FallbackDescription(RecordInfo(rec, statsJson, json)) ==
      DescriptionBody(Decimal(rec.featureCount), Join(", ", Values(rec.geometryType)), Join(", ", rec.columns))
  {
    FallbackDescriptionText(RecordInfo(rec, statsJson, json));
  }
}
